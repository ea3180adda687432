/**
 * The administrator's dashboard: the number of active users and the five
 * colleagues who received the most applause.
 */
module AdminDashboard {
  import opened Js
  import opened Seqs
  import opened JsObject
  import opened Types

  predicate IsActive(u: User)
  {
    u.estado == Activo
  }

  /** `users.filter(u => u.estado === 'activo').length` */
  function ActiveUserCount(users: seq<User>): (n: nat)
    ensures n <= |users|
    ensures n == 0 <==> forall i :: 0 <= i < |users| ==> !IsActive(users[i])
    ensures n == |users| <==> forall i :: 0 <= i < |users| ==> IsActive(users[i])
  {
    CountNoneOrAll(users, IsActive);
    CountBy(users, IsActive)
  }

  lemma {:induction false} CountNoneOrAll<T>(s: seq<T>, p: T -> bool)
    ensures CountBy(s, p) == 0 <==> forall i :: 0 <= i < |s| ==> !p(s[i])
    ensures CountBy(s, p) == |s| <==> forall i :: 0 <= i < |s| ==> p(s[i])
  {
    if s != [] {
      CountNoneOrAll(s[1..], p);
      assert forall i :: 1 <= i < |s| ==> s[i] == s[1..][i - 1];
    }
  }

  function ReceptorOf(a: Applause): string
  {
    a.receptorId
  }

  /** The `receptor_id` of every applause, in order. */
  function ReceptorIds(applause: seq<Applause>): seq<string>
  {
    MapSeq(applause, ReceptorOf)
  }

  /** The `forEach` that fills `counts[a.receptor_id]`. */
  method CountReceptors(applause: seq<Applause>) returns (counts: Record<nat>)
    ensures counts == Tally(ReceptorIds(applause))
  {
    counts := [];
    for i := 0 to |applause|
      invariant counts == Tally(ReceptorIds(applause[..i]))
    {
      var ids := ReceptorIds(applause[..i + 1]);
      assert ids[..|ids| - 1] == ReceptorIds(applause[..i]);
      counts := Increment(counts, applause[i].receptorId);
    }
    assert applause[..|applause|] == applause;
  }

  /** The sort key of `([, a], [, b]) => b - a`: ascending by minus the count. */
  function NegCount(e: (string, nat)): int
  {
    -(e.1 as int)
  }

  /** `Object.entries(counts).sort(...).slice(0, 5)` */
  function RankedReceptors(counts: Record<nat>): Record<nat>
  {
    Take(SortBy(Entries(counts), NegCount), 5)
  }

  /** `users.find(u => u.usuario_id === id)` */
  function FindUser(users: seq<User>, id: string): (found: Option<User>)
    ensures found.Some? ==> found.value in users && found.value.usuarioId == id
    ensures found.None? <==> forall i :: 0 <= i < |users| ==> users[i].usuarioId != id
    ensures forall i :: FirstUserWithId(users, id, i) ==> found == Some(users[i])
  {
    if users == [] then None
    else if users[0].usuarioId == id then Some(users[0])
    else
      var found := FindUser(users[1..], id);
      assert forall i :: 1 <= i < |users| ==> users[i] == users[1..][i - 1];
      found
  }

  /** A listed colleague: the user record, when some user has the id, and the count. */
  datatype Recognized = Recognized(user: Option<User>, count: nat)

  function TopRecognizedOf(users: seq<User>, counts: Record<nat>): seq<Recognized>
  {
    MapSeq(RankedReceptors(counts), (e: (string, nat)) => Recognized(FindUser(users, e.0), e.1))
  }

  /** `topRecognized` */
  method TopRecognized(users: seq<User>, applause: seq<Applause>) returns (top: seq<Recognized>)
    ensures top == TopRecognizedOf(users, Tally(ReceptorIds(applause)))
  {
    var counts := CountReceptors(applause);
    top := TopRecognizedOf(users, counts);
  }

  /** `user?.nombre || 'Desconocido'`: an unknown id, or a user without a name. */
  function DisplayName(r: Recognized): (name: string)
    ensures r.user.None? ==> name == "Desconocido"
    ensures r.user.Some? ==> name == if r.user.value.nombre == "" then "Desconocido" else r.user.value.nombre
  {
    match r.user
    case Some(u) => if u.nombre != "" then u.nombre else "Desconocido"
    case None => "Desconocido"
  }

  /**
   * Five receptors are listed, or all when fewer received applause, each once and
   * most applause first; each listed count is the number of applause addressed to
   * that id, so an id that never received any is never listed.
   */
  lemma TopRecognizedMeaning(applause: seq<Applause>)
    ensures var ranked := RankedReceptors(Tally(ReceptorIds(applause)));
      |ranked| <= 5
      && (forall i :: 0 <= i < |ranked| ==>
            ranked[i].1 == CountBy(applause, KeyIs(ReceptorOf, ranked[i].0)) && ranked[i].1 >= 1)
      && (forall i, j :: 0 <= i < j < |ranked| ==> ranked[i].1 >= ranked[j].1)
    ensures var ranked := RankedReceptors(Tally(ReceptorIds(applause)));
      multiset(ranked) <= multiset(Tally(ReceptorIds(applause)))
      && |ranked| == (if |Distinct(ReceptorIds(applause))| < 5 then |Distinct(ReceptorIds(applause))| else 5)
      && forall i, j :: 0 <= i < j < |ranked| ==> ranked[i].0 != ranked[j].0
  {
    var ids := ReceptorIds(applause);
    var t := Tally(ids);
    var ranked := RankedReceptors(t);
    TopRecognizedEachOnce(applause);
    forall i | 0 <= i < |ranked|
      ensures ranked[i].1 == CountBy(applause, KeyIs(ReceptorOf, ranked[i].0)) && ranked[i].1 >= 1
    {
      RankedMember(t, i);
      ReceptorCount(applause, ranked[i]);
    }
    RankedNonIncreasing(t);
  }

  /** The tally behind the list has one property per distinct receptor, so the list holds five of them, or all, each once. */
  lemma TopRecognizedEachOnce(applause: seq<Applause>)
    ensures var ranked := RankedReceptors(Tally(ReceptorIds(applause)));
      multiset(ranked) <= multiset(Tally(ReceptorIds(applause)))
      && |ranked| == (if |Distinct(ReceptorIds(applause))| < 5 then |Distinct(ReceptorIds(applause))| else 5)
      && forall i, j :: 0 <= i < j < |ranked| ==> ranked[i].0 != ranked[j].0
  {
    var ids := ReceptorIds(applause);
    var t := Tally(ids);
    TallyKeys(ids);
    assert |t| == |Keys(t)| == |Distinct(ids)|;
    RankedIsPrefix(t);
  }

  /**
   * The list is the first five of the sorted entries: some of the properties, five
   * or all when there are fewer, and, since property names are unique, no id twice.
   */
  lemma RankedIsPrefix(counts: Record<nat>)
    ensures multiset(RankedReceptors(counts)) <= multiset(counts)
    ensures |RankedReceptors(counts)| == if |counts| < 5 then |counts| else 5
    ensures NoDuplicates(Keys(counts)) ==>
      forall i, j :: 0 <= i < j < |RankedReceptors(counts)| ==> RankedReceptors(counts)[i].0 != RankedReceptors(counts)[j].0
  {
    var sorted := SortBy(Entries(counts), NegCount);
    assert multiset(sorted) == multiset(counts);
    TakeOfPermutation(sorted, counts, 5);
    if NoDuplicates(Keys(counts)) {
      RankedDistinct(counts, sorted);
    }
  }

  /** A prefix of a reordering of properties with unique names repeats no name. */
  lemma RankedDistinct(counts: Record<nat>, sorted: Record<nat>)
    requires NoDuplicates(Keys(counts)) && multiset(sorted) == multiset(counts)
    ensures forall i, j :: 0 <= i < j < |Take(sorted, 5)| ==> Take(sorted, 5)[i].0 != Take(sorted, 5)[j].0
  {
    KeysPermutation(counts, sorted);
    NoDuplicatesAfterPermutation(Keys(counts), Keys(sorted));
    var ranked := Take(sorted, 5);
    forall i, j | 0 <= i < j < |ranked|
      ensures ranked[i].0 != ranked[j].0
    {
      assert ranked[i] == sorted[i] && ranked[j] == sorted[j];
      assert Keys(sorted)[i] != Keys(sorted)[j];
    }
  }

  lemma RankedMember(counts: Record<nat>, i: nat)
    requires i < |RankedReceptors(counts)|
    ensures RankedReceptors(counts)[i] in counts
  {
    var sorted := SortBy(Entries(counts), NegCount);
    assert RankedReceptors(counts)[i] == sorted[i];
    assert sorted[i] in multiset(Entries(counts));
  }

  lemma RankedNonIncreasing(counts: Record<nat>)
    ensures var ranked := RankedReceptors(counts);
      forall i, j :: 0 <= i < j < |ranked| ==> ranked[i].1 >= ranked[j].1
  {
    var sorted := SortBy(Entries(counts), NegCount);
    var ranked := RankedReceptors(counts);
    forall i, j | 0 <= i < j < |ranked|
      ensures ranked[i].1 >= ranked[j].1
    {
      assert NegCount(sorted[i]) <= NegCount(sorted[j]);
    }
  }

  /** Every property of the counts object is a receptor with the number of applause addressed to it. */
  lemma ReceptorCount(applause: seq<Applause>, e: (string, nat))
    requires e in Tally(ReceptorIds(applause))
    ensures e.1 == CountBy(applause, KeyIs(ReceptorOf, e.0)) && e.1 >= 1
  {
    TallyMember(ReceptorIds(applause), e.0, e.1);
    MultiplicityOfMap(applause, ReceptorOf, e.0);
  }

  /** Anyone who received applause and is not listed received no more than each listed colleague. */
  lemma LeftOutReceivedNoMore(applause: seq<Applause>, id: string)
    requires id in ReceptorIds(applause)
    ensures var ranked := RankedReceptors(Tally(ReceptorIds(applause)));
      var received := CountBy(applause, KeyIs(ReceptorOf, id));
      (id, received) in ranked
      || forall i :: 0 <= i < |ranked| ==> received <= ranked[i].1
  {
    var sorted := SortBy(Entries(Tally(ReceptorIds(applause))), NegCount);
    var received := CountBy(applause, KeyIs(ReceptorOf, id));
    ReceptorEntry(applause, id);
    assert (id, received) in multiset(sorted);
    LeftOutOfPrefix(sorted, NegCount, 5, (id, received));
  }

  lemma ReceptorEntry(applause: seq<Applause>, id: string)
    requires id in ReceptorIds(applause)
    ensures (id, CountBy(applause, KeyIs(ReceptorOf, id))) in multiset(Entries(Tally(ReceptorIds(applause))))
  {
    var ids := ReceptorIds(applause);
    var t := Tally(ids);
    TallyCounts(ids, id);
    MultiplicityOfMap(applause, ReceptorOf, id);
    MemberOfGet(t, id);
  }
}
