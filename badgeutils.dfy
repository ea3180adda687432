/**
 * Badges: one per company principle; a badge is earned with `BadgeThreshold`
 * applause for its principle, and dated by the applause that reached the threshold.
 */
module BadgeUtils {
  import opened Js
  import opened Seqs
  import opened JsObject
  import opened Types
  import opened Constants

  /** The applause for principle `p`, in the order they were received. */
  function WithPrinciple(s: seq<Applause>, p: string): (r: seq<Applause>)
    ensures |r| <= |s|
    ensures forall i :: 0 <= i < |r| ==> r[i].principio == p
  {
    if s == [] then []
    else WithPrinciple(s[..|s| - 1], p) + (if s[|s| - 1].principio == p then [s[|s| - 1]] else [])
  }

  lemma {:induction false} WithPrincipleMultiplicity(s: seq<Applause>, p: string, a: Applause)
    ensures multiset(WithPrinciple(s, p))[a] == if a.principio == p then multiset(s)[a] else 0
  {
    if s != [] {
      WithPrincipleMultiplicity(s[..|s| - 1], p, a);
      assert s == s[..|s| - 1] + [s[|s| - 1]];
    }
  }

  lemma WithPrinciplePermutation(a: seq<Applause>, b: seq<Applause>, p: string)
    requires multiset(a) == multiset(b)
    ensures multiset(WithPrinciple(a, p)) == multiset(WithPrinciple(b, p))
  {
    forall x
      ensures multiset(WithPrinciple(a, p))[x] == multiset(WithPrinciple(b, p))[x]
    {
      WithPrincipleMultiplicity(a, p, x);
      WithPrincipleMultiplicity(b, p, x);
    }
  }

  /** What the grouping object holds for principle `p`: its applause, or nothing when there are none. */
  function Grouped(s: seq<Applause>, p: string): Option<seq<Applause>>
  {
    if WithPrinciple(s, p) == [] then None else Some(WithPrinciple(s, p))
  }

  /**
   * The `for ... of` loop that groups the applause by principle: afterwards the
   * object holds, for every principle that occurs, its applause in order, and
   * nothing for a principle that does not occur.
   */
  method GroupByPrinciple(received: seq<Applause>) returns (groups: Record<seq<Applause>>)
    ensures forall p :: Get(groups, p) == Grouped(received, p)
  {
    groups := [];
    for i := 0 to |received|
      invariant forall p :: Get(groups, p) == Grouped(received[..i], p)
    {
      var a := received[i];
      var group := match Get(groups, a.principio) case Some(g) => g case None => [];
      GroupStep(groups, received, i);
      groups := Put(groups, a.principio, group + [a]);
    }
    assert received[..|received|] == received;
  }

  /** One turn of the grouping loop keeps the object in step with the applause seen so far. */
  lemma GroupStep(groups: Record<seq<Applause>>, received: seq<Applause>, i: nat)
    requires i < |received|
    requires forall p :: Get(groups, p) == Grouped(received[..i], p)
    ensures var a := received[i];
      var group := match Get(groups, a.principio) case Some(g) => g case None => [];
      forall p :: Get(Put(groups, a.principio, group + [a]), p) == Grouped(received[..i + 1], p)
  {
    var a := received[i];
    var prefix := received[..i];
    var group := match Get(groups, a.principio) case Some(g) => g case None => [];
    var s := received[..i + 1];
    assert s[..|s| - 1] == prefix && s[|s| - 1] == a;
    forall p
      ensures Get(Put(groups, a.principio, group + [a]), p) == Grouped(s, p)
    {
      assert WithPrinciple(s, p) == WithPrinciple(prefix, p) + (if a.principio == p then [a] else []);
      GetPut(groups, a.principio, group + [a], p);
      assert Get(groups, p) == Grouped(prefix, p);
      if a.principio == p {
        assert group == WithPrinciple(prefix, p);
        assert WithPrinciple(s, p) == group + [a];
        assert Grouped(s, p) == Some(group + [a]);
      } else {
        assert WithPrinciple(s, p) == WithPrinciple(prefix, p);
        assert Grouped(s, p) == Grouped(prefix, p);
      }
    }
  }

  function ByDate(timeOf: string -> int): Applause -> int
  {
    (a: Applause) => timeOf(a.fecha)
  }

  /**
   * One badge for the applause of its principle; `timeOf` is the date parser
   * (`new Date(fecha).getTime()`).
   */
  function EvaluateBadge(def: BadgeDefinition, relevant: seq<Applause>, timeOf: string -> int): EarnedBadge
  {
    var earned := |relevant| >= BadgeThreshold;
    EarnedBadge(def.name, def.principle, |relevant|, def.description, earned,
      if earned then Some(SortBy(relevant, ByDate(timeOf))[BadgeThreshold - 1].fecha) else None)
  }

  /** Every badge, in the order of `BadgeDefinitions`, evaluated on the applause received. */
  function EarnedBadges(received: seq<Applause>, timeOf: string -> int): (badges: seq<EarnedBadge>)
    ensures |badges| == |BadgeDefinitions|
    ensures forall i :: 0 <= i < |badges| ==>
      var def := BadgeDefinitions[i];
      badges[i].name == def.name && badges[i].principle == def.principle && badges[i].description == def.description
      && badges[i].count == |WithPrinciple(received, def.principle)|
      && (badges[i].earned <==> badges[i].count >= BadgeThreshold)
      && (badges[i].earnedDate.Some? <==> badges[i].earned)
  {
    seq(|BadgeDefinitions|, i requires 0 <= i < |BadgeDefinitions| =>
      EvaluateBadge(BadgeDefinitions[i], WithPrinciple(received, BadgeDefinitions[i].principle), timeOf))
  }

  /** `calculateEarnedBadges`: group once, then evaluate each badge definition. */
  method CalculateEarnedBadges(received: seq<Applause>, timeOf: string -> int) returns (badges: seq<EarnedBadge>)
    ensures badges == EarnedBadges(received, timeOf)
  {
    var groups := GroupByPrinciple(received);
    badges := [];
    var i := 0;
    while i < |BadgeDefinitions|
      invariant 0 <= i <= |BadgeDefinitions|
      invariant badges == EarnedBadges(received, timeOf)[..i]
    {
      var def := BadgeDefinitions[i];
      var relevant := match Get(groups, def.principle) case Some(g) => g case None => [];
      var count := |relevant|;
      var earned := count >= BadgeThreshold;
      var earnedDate: Option<string> := None;
      if earned {
        var sorted := SortBy(relevant, ByDate(timeOf));
        earnedDate := Some(sorted[BadgeThreshold - 1].fecha);
      }
      badges := badges + [EarnedBadge(def.name, def.principle, count, def.description, earned, earnedDate)];
      i := i + 1;
    }
  }

  /**
   * A badge's date is the moment its principle's applause reached the threshold:
   * at least three of them are dated no later, at most two strictly earlier.
   */
  lemma EarnedDateReachesThreshold(def: BadgeDefinition, relevant: seq<Applause>, timeOf: string -> int)
    requires |relevant| >= BadgeThreshold
    ensures var t := timeOf(EvaluateBadge(def, relevant, timeOf).earnedDate.value);
      CountBy(relevant, AtMost(ByDate(timeOf), t)) >= BadgeThreshold
      && CountBy(relevant, Below(ByDate(timeOf), t)) < BadgeThreshold
  {
    var s := SortBy(relevant, ByDate(timeOf));
    var t := ByDate(timeOf)(s[2]);
    RankInSorted(s, ByDate(timeOf), 2);
    CountByPermutation(relevant, s, AtMost(ByDate(timeOf), t));
    CountByPermutation(relevant, s, Below(ByDate(timeOf), t));
  }

  /**
   * The order applause arrive in changes no count, no earned flag and no badge's
   * date (as a point in time; two spellings of one instant may swap).
   */
  lemma BadgesIgnoreOrder(a: seq<Applause>, b: seq<Applause>, timeOf: string -> int)
    requires multiset(a) == multiset(b)
    ensures forall i :: 0 <= i < |BadgeDefinitions| ==>
      var x := EarnedBadges(a, timeOf)[i];
      var y := EarnedBadges(b, timeOf)[i];
      x.count == y.count && x.earned == y.earned
      && x.earnedDate.Some? == y.earnedDate.Some?
      && (x.earnedDate.Some? ==> timeOf(x.earnedDate.value) == timeOf(y.earnedDate.value))
  {
    forall i | 0 <= i < |BadgeDefinitions|
      ensures var x := EarnedBadges(a, timeOf)[i];
        var y := EarnedBadges(b, timeOf)[i];
        x.count == y.count && x.earned == y.earned
        && x.earnedDate.Some? == y.earnedDate.Some?
        && (x.earnedDate.Some? ==> timeOf(x.earnedDate.value) == timeOf(y.earnedDate.value))
    {
      var p := BadgeDefinitions[i].principle;
      var ra := WithPrinciple(a, p);
      var rb := WithPrinciple(b, p);
      WithPrinciplePermutation(a, b, p);
      assert |ra| == |multiset(ra)| == |multiset(rb)| == |rb|;
      if |ra| >= BadgeThreshold {
        var sa := SortBy(ra, ByDate(timeOf));
        var sb := SortBy(rb, ByDate(timeOf));
        SortedKeysAgree(sa, sb, ByDate(timeOf));
        assert ByDate(timeOf)(sa[2]) == ByDate(timeOf)(sb[2]);
      }
    }
  }

  /** One more applause adds one to its own principle's badge and leaves the others alone; an earned badge stays earned. */
  lemma BadgesAfterApplause(received: seq<Applause>, a: Applause, timeOf: string -> int)
    ensures forall i :: 0 <= i < |BadgeDefinitions| ==>
      EarnedBadges(received + [a], timeOf)[i].count
        == EarnedBadges(received, timeOf)[i].count + (if a.principio == BadgeDefinitions[i].principle then 1 else 0)
    ensures forall i :: 0 <= i < |BadgeDefinitions| && EarnedBadges(received, timeOf)[i].earned ==>
      EarnedBadges(received + [a], timeOf)[i].earned
  {
    assert (received + [a])[..|received|] == received;
  }
}
