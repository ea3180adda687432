/**
 * "Mis Resultados": the signed-in user's points, level and badge count, the
 * applause received per month, the status colour of each redemption and the
 * two histories, newest first.
 */
module MyResults {
  import opened Js
  import opened Seqs
  import opened JsObject
  import opened Types
  import opened Constants
  import opened LevelUtils
  import opened BadgeUtils
  import Marketplace
  import opened AdminDashboard

  // ---------------------------------------------------------------------------
  // Points, level and badges

  function ReceivedApplause(applause: seq<Applause>, user: User): seq<Applause>
  {
    Filter(applause, ReceivedBy(user.usuarioId))
  }

  function UserRedemptions(redemptions: seq<Redemption>, user: User): seq<Redemption>
  {
    Filter(redemptions, OwnedBy(user.usuarioId))
  }

  /** "Nivel Actual": the level is looked up with the number of applause received. */
  function ResultsLevel(applause: seq<Applause>, user: User): LevelEntry
  {
    LevelOf(|ReceivedApplause(applause, user)|)
  }

  /** "Puntos Disponibles" */
  function ResultsNetPoints(user: User, applause: seq<Applause>, redemptions: seq<Redemption>, rewards: seq<Reward>): int
  {
    CalculateNetPoints(CalculateGrossPoints(|ReceivedApplause(applause, user)|), UserRedemptions(redemptions, user), rewards)
  }

  /** This page and the marketplace show the same available points. */
  lemma NetPointsAgreeWithMarketplace(user: User, applause: seq<Applause>, redemptions: seq<Redemption>, rewards: seq<Reward>)
    ensures ResultsNetPoints(user, applause, redemptions, rewards) == Marketplace.NetPointsOf(user, applause, redemptions, rewards)
  {
    CountIsFilterLength(applause, ReceivedBy(user.usuarioId));
  }

  /**
   * The two pages disagree on the level: with one applause received this page
   * shows level 0 while the marketplace, which passes points, uses level 6.
   */
  lemma LevelCallSitesDisagree(user: User, applause: seq<Applause>)
    requires CountBy(applause, ReceivedBy(user.usuarioId)) == 1
    ensures ResultsLevel(applause, user).level == 0
    ensures Marketplace.PageLevel(user, applause).level == 6
  {
    CountIsFilterLength(applause, ReceivedBy(user.usuarioId));
    Marketplace.PageLevelFromPoints(user, applause);
  }

  predicate IsEarned(b: EarnedBadge)
  {
    b.earned
  }

  /** "Insignias Ganadas": `earnedBadges.filter(b => b.earned).length` */
  function EarnedBadgeCount(badges: seq<EarnedBadge>): nat
  {
    |Filter(badges, IsEarned)|
  }

  function ReachesThreshold(received: seq<Applause>): BadgeDefinition -> bool
  {
    (def: BadgeDefinition) => |WithPrinciple(received, def.principle)| >= BadgeThreshold
  }

  /** The badge count is the number of principles with at least three applause, at most five. */
  lemma EarnedBadgeCountMeaning(received: seq<Applause>, timeOf: string -> int)
    ensures EarnedBadgeCount(EarnedBadges(received, timeOf)) == CountBy(BadgeDefinitions, ReachesThreshold(received))
    ensures EarnedBadgeCount(EarnedBadges(received, timeOf)) <= 5
  {
    var badges := EarnedBadges(received, timeOf);
    CountIsFilterLength(badges, IsEarned);
    CountByPointwise(badges, IsEarned, BadgeDefinitions, ReachesThreshold(received));
  }

  // ---------------------------------------------------------------------------
  // Applause per month

  /** `getFullYear()` and the 0-based `getMonth()` of a parsed date; None for an invalid date. */
  datatype YearMonth = YearMonth(year: int, month: int)

  datatype MonthBucket = MonthBucket(count: nat, monthLabel: string)

  /** A point of the monthly chart: `{ name: label, aplausos: count, key }`. */
  datatype MonthPoint = MonthPoint(name: string, aplausos: nat, key: string)

  const MonthNames: seq<string> := ["Ene", "Feb", "Mar", "Abr", "May", "Jun", "Jul", "Ago", "Sep", "Oct", "Nov", "Dic"]

  /** What an invalid date turns into: `NaN` for the year and month, `undefined` for the month's name. */
  const InvalidMonthKey := "NaN-NaN"
  const InvalidMonthLabel := "undefined 'N"

  /** `s.padStart(2, '0')` */
  function PadStart2(s: string): (r: string)
    ensures |r| == if |s| < 2 then 2 else |s|
    ensures r[|r| - |s|..] == s
    ensures forall i :: 0 <= i < |r| - |s| ==> r[i] == '0'
  {
    if |s| == 0 then "00" else if |s| == 1 then "0" + s else s
  }

  /** `${year}-${String(month).padStart(2, '0')}`; an invalid date gives "NaN-NaN". */
  function MonthKey(d: Option<YearMonth>): string
  {
    match d
    case None => InvalidMonthKey
    case Some(ym) => DecimalString(ym.year) + "-" + PadStart2(DecimalString(ym.month))
  }

  /** `${monthNames[month]} '${String(year).slice(2)}`; an invalid date gives "undefined 'N". */
  function MonthLabel(d: Option<YearMonth>): string
  {
    match d
    case None => InvalidMonthLabel
    case Some(ym) =>
      var y := DecimalString(ym.year);
      (if 0 <= ym.month < 12 then MonthNames[ym.month] else "undefined") + " '" + JsSlice(y, 2, |y|)
  }

  function MonthKeyOf(dateOf: string -> Option<YearMonth>): Applause -> string
  {
    (a: Applause) => MonthKey(dateOf(a.fecha))
  }

  function MonthKeys(received: seq<Applause>, dateOf: string -> Option<YearMonth>): seq<string>
  {
    MapSeq(received, MonthKeyOf(dateOf))
  }

  /** One step of the `forEach`: count the applause in its month, creating the bucket on first use. */
  function AddToMonth(months: Record<MonthBucket>, key: string, newLabel: string): Record<MonthBucket>
  {
    Put(months, key, NextBucket(Get(months, key), newLabel))
  }

  /** The month's bucket after one more applause: the count goes up by one, the first label stays. */
  function NextBucket(current: Option<MonthBucket>, newLabel: string): MonthBucket
  {
    match current
    case Some(b) => MonthBucket(b.count + 1, b.monthLabel)
    case None => MonthBucket(1, newLabel)
  }

  /** The `months` object after the `forEach` over the applause received. */
  function Buckets(received: seq<Applause>, dateOf: string -> Option<YearMonth>): Record<MonthBucket>
  {
    if received == [] then []
    else
      var a := received[|received| - 1];
      AddToMonth(Buckets(received[..|received| - 1], dateOf), MonthKey(dateOf(a.fecha)), MonthLabel(dateOf(a.fecha)))
  }

  function ToPoint(e: (string, MonthBucket)): MonthPoint
  {
    MonthPoint(e.1.monthLabel, e.1.count, e.0)
  }

  /**
   * The rank `localeCompare` gives a key: for keys "YYYY-MM" with a four-digit year
   * it is chronological order, year * 100 + month. `localeCompare` puts digits before
   * letters, so the key of an invalid date, "NaN-NaN", comes after all of those;
   * every key that is not of that form is ranked there too.
   */
  function KeyRank(key: string): int
  {
    if |key| == 7 && AllDigits(key[..4], 10) && key[4] == '-' && AllDigits(key[5..], 10)
    then DigitsValue(key[..4], 10) * 100 + DigitsValue(key[5..], 10)
    else 1_000_000
  }

  function PointRank(p: MonthPoint): int
  {
    KeyRank(p.key)
  }

  function MonthPoints(received: seq<Applause>, dateOf: string -> Option<YearMonth>): seq<MonthPoint>
  {
    SortBy(MapSeq(Entries(Buckets(received, dateOf)), ToPoint), PointRank)
  }

  /** The bucket keys are the distinct month keys, in order of first occurrence. */
  lemma {:induction false} BucketKeys(received: seq<Applause>, dateOf: string -> Option<YearMonth>)
    ensures Keys(Buckets(received, dateOf)) == Distinct(MonthKeys(received, dateOf))
  {
    if received != [] {
      var init := received[..|received| - 1];
      BucketKeys(init, dateOf);
      var ks := MonthKeys(received, dateOf);
      assert ks[..|ks| - 1] == MonthKeys(init, dateOf);
    }
  }

  /** Each month's bucket counts the applause whose date falls in it. */
  lemma {:induction false} BucketCounts(received: seq<Applause>, dateOf: string -> Option<YearMonth>, key: string)
    ensures Get(Buckets(received, dateOf), key).Some? <==> key in MonthKeys(received, dateOf)
    ensures Get(Buckets(received, dateOf), key).Some? ==>
      Get(Buckets(received, dateOf), key).value.count == multiset(MonthKeys(received, dateOf))[key]
  {
    if received != [] {
      var init := received[..|received| - 1];
      var a := received[|received| - 1];
      var k := MonthKey(dateOf(a.fecha));
      var newLabel := MonthLabel(dateOf(a.fecha));
      var m := Buckets(init, dateOf);
      var ks0 := MonthKeys(init, dateOf);
      BucketCounts(init, dateOf, key);
      BucketCountStep(m, ks0, k, newLabel, key);
      MapSeqLast(received, MonthKeyOf(dateOf));
    }
  }

  lemma BucketCountStep(m: Record<MonthBucket>, ks0: seq<string>, k: string, newLabel: string, key: string)
    requires Get(m, key).Some? <==> key in ks0
    requires Get(m, key).Some? ==> Get(m, key).value.count == multiset(ks0)[key]
    ensures Get(AddToMonth(m, k, newLabel), key).Some? <==> key in ks0 + [k]
    ensures Get(AddToMonth(m, k, newLabel), key).Some? ==>
      Get(AddToMonth(m, k, newLabel), key).value.count == multiset(ks0 + [k])[key]
  {
    AddToMonthGet(m, k, newLabel, key);
    Occurrences(ks0, k, key);
  }

  /** Reading a month after counting an applause in month `k`. */
  lemma AddToMonthGet(m: Record<MonthBucket>, k: string, newLabel: string, key: string)
    ensures Get(AddToMonth(m, k, newLabel), key) ==
      if key != k then Get(m, key) else Some(NextBucket(Get(m, k), newLabel))
  {
    GetPut(m, k, NextBucket(Get(m, k), newLabel), key);
  }

  function BucketCount(b: MonthBucket): int
  {
    b.count
  }

  /** The bucket counts add up to the number of applause received. */
  lemma {:induction false} BucketSum(received: seq<Applause>, dateOf: string -> Option<YearMonth>)
    ensures SumBy(Buckets(received, dateOf), ValueBy(BucketCount)) == |received|
  {
    if received != [] {
      var init := received[..|received| - 1];
      var a := received[|received| - 1];
      BucketSum(init, dateOf);
      BucketKeys(init, dateOf);
      AddToMonthSum(Buckets(init, dateOf), MonthKey(dateOf(a.fecha)), MonthLabel(dateOf(a.fecha)));
    }
  }

  /** Counting one applause adds one to the total. */
  lemma AddToMonthSum(m: Record<MonthBucket>, k: string, newLabel: string)
    requires NoDuplicates(Keys(m))
    ensures SumBy(AddToMonth(m, k, newLabel), ValueBy(BucketCount)) == SumBy(m, ValueBy(BucketCount)) + 1
  {
    SumOfPut(m, k, NextBucket(Get(m, k), newLabel), BucketCount);
  }

  function PointKey(p: MonthPoint): string
  {
    p.key
  }

  function PointCount(p: MonthPoint): int
  {
    p.aplausos
  }

  /** Each chart point counts the applause of its month, at least one. */
  lemma MonthPointCounts(received: seq<Applause>, dateOf: string -> Option<YearMonth>)
    ensures var points := MonthPoints(received, dateOf);
      forall i :: 0 <= i < |points| ==>
        points[i].aplausos == CountBy(received, KeyIs(MonthKeyOf(dateOf), points[i].key)) && points[i].aplausos >= 1
  {
    var m := Buckets(received, dateOf);
    var mapped := MapSeq(Entries(m), ToPoint);
    var points := MonthPoints(received, dateOf);
    forall i | 0 <= i < |points|
      ensures points[i].aplausos == CountBy(received, KeyIs(MonthKeyOf(dateOf), points[i].key)) && points[i].aplausos >= 1
    {
      assert points[i] in multiset(mapped);
      var j :| 0 <= j < |mapped| && mapped[j] == points[i];
      var e := Entries(m)[j];
      assert e in multiset(m);
      BucketEntryCount(received, dateOf, e);
    }
  }

  lemma BucketEntryCount(received: seq<Applause>, dateOf: string -> Option<YearMonth>, e: (string, MonthBucket))
    requires e in Buckets(received, dateOf)
    ensures e.1.count == CountBy(received, KeyIs(MonthKeyOf(dateOf), e.0)) && e.1.count >= 1
  {
    var m := Buckets(received, dateOf);
    BucketKeys(received, dateOf);
    GetOfMember(m, e.0, e.1);
    BucketCounts(received, dateOf, e.0);
    MultiplicityOfMap(received, MonthKeyOf(dateOf), e.0);
  }

  /** One chart point per distinct month key. */
  lemma MonthPointKeys(received: seq<Applause>, dateOf: string -> Option<YearMonth>)
    ensures var keys := MapSeq(MonthPoints(received, dateOf), PointKey);
      NoDuplicates(keys) && forall k :: k in keys <==> k in MonthKeys(received, dateOf)
  {
    var m := Buckets(received, dateOf);
    var mapped := MapSeq(Entries(m), ToPoint);
    var points := MonthPoints(received, dateOf);
    BucketKeys(received, dateOf);
    KeysPermutation(m, Entries(m));
    PointKeysAreKeys(Entries(m));
    MapSeqPermutation(mapped, points, PointKey);
    var keys := MapSeq(points, PointKey);
    NoDuplicatesAfterPermutation(Keys(m), keys);
    SameMembers(keys, Keys(m));
  }

  lemma PointKeysAreKeys(es: Record<MonthBucket>)
    ensures MapSeq(MapSeq(es, ToPoint), PointKey) == Keys(es)
  {
  }

  /** The monthly counts add up to the number of applause received. */
  lemma MonthPointsSum(received: seq<Applause>, dateOf: string -> Option<YearMonth>)
    ensures SumBy(MonthPoints(received, dateOf), PointCount) == |received|
  {
    var m := Buckets(received, dateOf);
    var mapped := MapSeq(Entries(m), ToPoint);
    SumByPermutation(mapped, MonthPoints(received, dateOf), PointCount);
    SumByMap(Entries(m), ToPoint, PointCount, ValueBy(BucketCount));
    SumByPermutation(m, Entries(m), ValueBy(BucketCount));
    BucketSum(received, dateOf);
  }

  /** For a valid date in a four-digit year the key ranks as year * 100 + month. */
  lemma MonthKeyRank(ym: YearMonth)
    requires 1000 <= ym.year <= 9999 && 0 <= ym.month < 12
    ensures KeyRank(MonthKey(Some(ym))) == ym.year * 100 + ym.month
  {
    var y := NatString(ym.year);
    NatStringLength(ym.year);
    NatStringValue(ym.year);
    var mm := PadStart2(NatString(ym.month));
    NatStringLength(ym.month);
    NatStringValue(ym.month);
    var key := MonthKey(Some(ym));
    assert key == y + "-" + mm;
    assert key[..4] == y;
    assert key[5..] == mm;
    if ym.month < 10 {
      assert mm == "0" + NatString(ym.month);
      assert mm[..1] == "0";
      assert DigitsValue(mm, 10) == DigitsValue(mm[..1], 10) * 10 + ym.month;
    }
  }

  /** The chart runs in chronological order over months of four-digit years. */
  lemma MonthsInOrder(a: YearMonth, b: YearMonth)
    requires 1000 <= a.year <= 9999 && 0 <= a.month < 12
    requires 1000 <= b.year <= 9999 && 0 <= b.month < 12
    requires a.year < b.year || (a.year == b.year && a.month < b.month)
    ensures KeyRank(MonthKey(Some(a))) < KeyRank(MonthKey(Some(b)))
  {
    MonthKeyRank(a);
    MonthKeyRank(b);
  }

  /**
   * The label of a valid date in a four-digit year is the month's short Spanish name,
   * a space, an apostrophe and the year's last two digits; an invalid date's label
   * differs from every such label.
   */
  lemma MonthLabelOf(ym: YearMonth)
    requires 1000 <= ym.year <= 9999 && 0 <= ym.month < 12
    ensures var y := DecimalString(ym.year);
      MonthLabel(Some(ym)) == MonthNames[ym.month] + " '" + y[2..] && |y[2..]| == 2
    ensures MonthLabel(Some(ym)) != MonthLabel(None)
  {
    NatStringLength(ym.year);
    var y := DecimalString(ym.year);
    assert |y| == 4;
    assert JsSlice(y, 2, |y|) == y[2..];
    var shown := MonthLabel(Some(ym));
    assert shown == MonthNames[ym.month] + " '" + y[2..];
    assert shown[0] != 'u';
  }

  /** The bucket of applause with an invalid date is drawn after every month of a four-digit year. */
  lemma InvalidMonthLast(ym: YearMonth)
    requires 1000 <= ym.year <= 9999 && 0 <= ym.month < 12
    ensures KeyRank(MonthKey(Some(ym))) < KeyRank(MonthKey(None))
  {
    MonthKeyRank(ym);
    assert MonthKey(None)[0] == 'N';
  }

  /** The body of the `forEach`: create the month's bucket if missing, then count the applause in it. */
  method CountInMonth(months: Record<MonthBucket>, monthKey: string, monthLabel: string) returns (updated: Record<MonthBucket>)
    ensures updated == AddToMonth(months, monthKey, monthLabel)
  {
    if Get(months, monthKey).None? {
      var created := Put(months, monthKey, MonthBucket(0, monthLabel));
      GetPut(months, monthKey, MonthBucket(0, monthLabel), monthKey);
      var b := Get(created, monthKey).value;
      assert b == MonthBucket(0, monthLabel);
      updated := Put(created, monthKey, MonthBucket(b.count + 1, b.monthLabel));
      PutPut(months, monthKey, MonthBucket(0, monthLabel), MonthBucket(1, monthLabel));
    } else {
      var b := Get(months, monthKey).value;
      updated := Put(months, monthKey, MonthBucket(b.count + 1, b.monthLabel));
    }
  }

  /** `applauseByMonth` */
  method ApplauseByMonth(received: seq<Applause>, dateOf: string -> Option<YearMonth>) returns (points: seq<MonthPoint>)
    ensures points == MonthPoints(received, dateOf)
  {
    var months: Record<MonthBucket> := [];
    for i := 0 to |received|
      invariant months == Buckets(received[..i], dateOf)
    {
      var d := dateOf(received[i].fecha);
      assert received[..i + 1][..i] == received[..i];
      months := CountInMonth(months, MonthKey(d), MonthLabel(d));
    }
    assert received[..|received|] == received;
    points := SortBy(MapSeq(Entries(months), ToPoint), PointRank);
  }

  // ---------------------------------------------------------------------------
  // Redemption status colours

  const GreenBadge := "bg-green-100 text-green-800 dark:bg-green-900/50 dark:text-green-300"
  const YellowBadge := "bg-yellow-100 text-yellow-800 dark:bg-yellow-900/50 dark:text-yellow-300"
  const RedBadge := "bg-red-100 text-red-800 dark:bg-red-900/50 dark:text-red-300"
  const GrayBadge := "bg-gray-100 text-gray-800 dark:bg-gray-700 dark:text-gray-300"

  /** `status?.toLowerCase().trim()`: lower-cased first, then trimmed; undefined stays undefined. */
  function NormalizedStatus(status: Option<string>): Option<string>
  {
    match status
    case Some(st) => Some(Trim(ToLower(st)))
    case None => None
  }

  /** `getStatusBadge` */
  function GetStatusBadge(status: Option<string>): (classes: string)
    ensures classes == GreenBadge <==> NormalizedStatus(status) == Some("aprobado")
    ensures classes == YellowBadge <==> NormalizedStatus(status) == Some("pendiente")
    ensures classes == RedBadge <==> NormalizedStatus(status) == Some("rechazado")
    ensures classes == GrayBadge <==>
      NormalizedStatus(status) !in {Some("aprobado"), Some("pendiente"), Some("rechazado")}
  {
    match NormalizedStatus(status)
    case Some(n) =>
      if n == "aprobado" then GreenBadge
      else if n == "pendiente" then YellowBadge
      else if n == "rechazado" then RedBadge
      else GrayBadge
    case None => GrayBadge
  }

  /** A new redemption, and every status the loader leaves untouched apart from case and spaces, shows yellow. */
  lemma PendingShowsYellow(status: string)
    requires Trim(ToLower(status)) == "pendiente"
    ensures GetStatusBadge(Some(status)) == YellowBadge
  {
  }

  // ---------------------------------------------------------------------------
  // Histories and names

  function Latest<T>(timeOf: T -> int): T -> int
  {
    (x: T) => -timeOf(x)
  }

  /**
   * `s.sort((a, b) => time(b) - time(a))`: newest first, ties in their previous
   * order; nothing is added or lost.
   */
  function NewestFirst<T(!new)>(s: seq<T>, timeOf: T -> int): (sorted: seq<T>)
    ensures multiset(sorted) == multiset(s)
    ensures forall i, j :: 0 <= i < j < |sorted| ==> timeOf(sorted[i]) >= timeOf(sorted[j])
  {
    var r := SortBy(s, Latest(timeOf));
    assert forall i, j :: 0 <= i < j < |r| ==> Latest(timeOf)(r[i]) <= Latest(timeOf)(r[j]);
    r
  }

  function RedemptionTime(timeOf: string -> int): Redemption -> int
  {
    (r: Redemption) => timeOf(r.fecha)
  }

  function ApplauseTime(timeOf: string -> int): Applause -> int
  {
    (a: Applause) => timeOf(a.fecha)
  }

  /** `sortedUserRedemptions`: the user's redemptions, newest first. */
  function RedemptionHistory(redemptions: seq<Redemption>, user: User, timeOf: string -> int): seq<Redemption>
  {
    NewestFirst(UserRedemptions(redemptions, user), RedemptionTime(timeOf))
  }

  /** The applause list under "Millas Extra Recibidas", newest first. */
  function ApplauseHistory(applause: seq<Applause>, user: User, timeOf: string -> int): seq<Applause>
  {
    NewestFirst(ReceivedApplause(applause, user), ApplauseTime(timeOf))
  }

  /** The history lists exactly the user's own redemptions. */
  lemma HistoryIsTheUsers(redemptions: seq<Redemption>, user: User, timeOf: string -> int)
    ensures forall r :: r in RedemptionHistory(redemptions, user, timeOf) <==> r in redemptions && r.usuarioId == user.usuarioId
  {
    var h := RedemptionHistory(redemptions, user, timeOf);
    FilterByMembership(redemptions, OwnedBy(user.usuarioId), true);
    forall r
      ensures r in h <==> r in UserRedemptions(redemptions, user)
    {
      assert r in h <==> r in multiset(h);
    }
  }

  /** `getUsername`: the giver's name, or 'Desconocido' for an unknown id or an empty name. */
  function UserName(users: seq<User>, id: string): (name: string)
    ensures (forall i :: 0 <= i < |users| ==> users[i].usuarioId != id) ==> name == "Desconocido"
    ensures forall i :: FirstUserWithId(users, id, i) ==>
      name == if users[i].nombre == "" then "Desconocido" else users[i].nombre
  {
    match FindUser(users, id)
    case Some(u) => if u.nombre != "" then u.nombre else "Desconocido"
    case None => "Desconocido"
  }

  /** `getRewardName`: the reward's name, or 'Recompensa Desconocida' for an unknown id or an empty name. */
  function RewardName(rewards: seq<Reward>, id: string): (name: string)
    ensures (forall i :: 0 <= i < |rewards| ==> rewards[i].recompensaId != id) ==> name == "Recompensa Desconocida"
    ensures forall i :: FirstRewardWithId(rewards, id, i) ==>
      name == if rewards[i].nombre == "" then "Recompensa Desconocida" else rewards[i].nombre
  {
    match FindReward(rewards, id)
    case Some(r) => if r.nombre != "" then r.nombre else "Recompensa Desconocida"
    case None => "Recompensa Desconocida"
  }
}
