/**
 * Points and levels: gross points from the number of applause received, net
 * points after the redemptions that were not rejected, the level reached, the
 * next level and the progress towards it.
 */
module LevelUtils {
  import opened Js
  import opened Seqs
  import opened Types
  import opened Constants

  // ---------------------------------------------------------------------------
  // Points

  /** Gross points: every applause received is worth `PointsPerApplause`. */
  function CalculateGrossPoints(applauseCount: int): (points: int)
    ensures points % PointsPerApplause == 0 && points / PointsPerApplause == applauseCount
  {
    applauseCount * PointsPerApplause
  }

  /** `estado?.toLowerCase().trim() === 'rechazado'`; a redemption without a status is not rejected. */
  predicate IsRejected(r: Redemption)
  {
    r.estado.Some? && Trim(ToLower(r.estado.value)) == "rechazado"
  }

  /** `rewards[i]` is the first reward with the id. */
  predicate FirstRewardWithId(rewards: seq<Reward>, id: string, i: int)
  {
    0 <= i < |rewards| && rewards[i].recompensaId == id
    && forall j :: 0 <= j < i ==> rewards[j].recompensaId != id
  }

  /** `rewards.find(r => r.recompensa_id === id)` */
  function FindReward(rewards: seq<Reward>, id: string): (r: Option<Reward>)
    ensures r.Some? ==> r.value in rewards && r.value.recompensaId == id
    ensures r.None? <==> forall i :: 0 <= i < |rewards| ==> rewards[i].recompensaId != id
    ensures forall i :: FirstRewardWithId(rewards, id, i) ==> r == Some(rewards[i])
  {
    if rewards == [] then None
    else if rewards[0].recompensaId == id then Some(rewards[0])
    else
      var r := FindReward(rewards[1..], id);
      assert forall i :: 1 <= i < |rewards| ==> rewards[i] == rewards[1..][i - 1];
      r
  }

  /** The points a redemption costs: its reward's `puntos_costo` in base 10; 0 when the reward is unknown or the cost is not a number. */
  function CostOf(rewards: seq<Reward>, r: Redemption): int
  {
    match FindReward(rewards, r.recompensaId)
    case None => 0
    case Some(w) => OrElse(ParseInt10(w.puntosCosto), 0)
  }

  function Cost(rewards: seq<Reward>): Redemption -> int
  {
    r => CostOf(rewards, r)
  }

  /** The redemptions that still hold points: every one not rejected. */
  function ActiveRedemptions(redemptions: seq<Redemption>): seq<Redemption>
  {
    FilterBy(redemptions, IsRejected, false)
  }

  function SpentPoints(redemptions: seq<Redemption>, rewards: seq<Reward>): int
  {
    SumBy(ActiveRedemptions(redemptions), Cost(rewards))
  }

  /** Net points: gross points minus the cost of every redemption that was not rejected. */
  function CalculateNetPoints(grossPoints: int, redemptions: seq<Redemption>, rewards: seq<Reward>): (net: int)
    ensures redemptions == [] ==> net == grossPoints
  {
    grossPoints - SpentPoints(redemptions, rewards)
  }

  /** A cost that parses is never negative in the rewards sheet. */
  ghost predicate NonNegativeCosts(rewards: seq<Reward>)
  {
    forall i :: 0 <= i < |rewards| ==> OrElse(ParseInt10(rewards[i].puntosCosto), 0) >= 0
  }

  lemma {:induction false} SpentNonNegative(redemptions: seq<Redemption>, rewards: seq<Reward>)
    requires NonNegativeCosts(rewards)
    requires forall i :: 0 <= i < |redemptions| ==> !IsRejected(redemptions[i])
    ensures SumBy(redemptions, Cost(rewards)) >= 0
  {
    if redemptions != [] {
      SpentNonNegative(redemptions[1..], rewards);
      var w := FindReward(rewards, redemptions[0].recompensaId);
      if w.Some? {
        var i :| 0 <= i < |rewards| && rewards[i] == w.value;
      }
    }
  }

  /** With costs that are not negative, redeeming never raises a balance above the gross points. */
  lemma NetAtMostGross(grossPoints: int, redemptions: seq<Redemption>, rewards: seq<Reward>)
    requires NonNegativeCosts(rewards)
    ensures CalculateNetPoints(grossPoints, redemptions, rewards) <= grossPoints
  {
    SpentNonNegative(ActiveRedemptions(redemptions), rewards);
  }

  /** A new redemption lowers the balance by its cost, unless it is already rejected. */
  lemma NetAfterRedemption(grossPoints: int, redemptions: seq<Redemption>, rewards: seq<Reward>, r: Redemption)
    ensures CalculateNetPoints(grossPoints, redemptions + [r], rewards)
      == CalculateNetPoints(grossPoints, redemptions, rewards) - (if IsRejected(r) then 0 else CostOf(rewards, r))
  {
    FilterByAppend(redemptions, r, IsRejected, false);
    SumByConcat(ActiveRedemptions(redemptions), if IsRejected(r) then [] else [r], Cost(rewards));
  }

  /** Rejecting a redemption gives its points back; the order of the redemptions does not matter. */
  lemma NetAfterRejection(grossPoints: int, redemptions: seq<Redemption>, rewards: seq<Reward>, i: nat, rejected: Redemption)
    requires i < |redemptions| && IsRejected(rejected)
    ensures CalculateNetPoints(grossPoints, redemptions[i := rejected], rewards)
      == CalculateNetPoints(grossPoints, redemptions, rewards) + (if IsRejected(redemptions[i]) then 0 else CostOf(rewards, redemptions[i]))
  {
    var before := redemptions[..i];
    var after := redemptions[i + 1..];
    assert redemptions == before + [redemptions[i]] + after;
    assert redemptions[i := rejected] == before + [rejected] + after;
    ActiveSplit(before, redemptions[i], after, rewards);
    ActiveSplit(before, rejected, after, rewards);
  }

  lemma ActiveSplit(before: seq<Redemption>, r: Redemption, after: seq<Redemption>, rewards: seq<Reward>)
    ensures SpentPoints(before + [r] + after, rewards)
      == SpentPoints(before, rewards) + (if IsRejected(r) then 0 else CostOf(rewards, r)) + SpentPoints(after, rewards)
  {
    FilterByConcat(before + [r], after, IsRejected, false);
    FilterByAppend(before, r, IsRejected, false);
    var mid := if IsRejected(r) then [] else [r];
    SumByConcat(ActiveRedemptions(before) + mid, ActiveRedemptions(after), Cost(rewards));
    SumByConcat(ActiveRedemptions(before), mid, Cost(rewards));
  }

  /** Net points do not depend on the order of the redemptions. */
  lemma NetPermutation(grossPoints: int, a: seq<Redemption>, b: seq<Redemption>, rewards: seq<Reward>)
    requires multiset(a) == multiset(b)
    ensures CalculateNetPoints(grossPoints, a, rewards) == CalculateNetPoints(grossPoints, b, rewards)
  {
    FilterByPermutation(a, b, IsRejected, false);
    SumByPermutation(ActiveRedemptions(a), ActiveRedemptions(b), Cost(rewards));
  }

  // ---------------------------------------------------------------------------
  // Levels

  /**
   * The index of the highest level in `Levels[..n]` whose threshold `count` reaches,
   * searching from the top; level 0 when none is reached.
   */
  function HighestReached(count: int, n: nat): (i: nat)
    requires n <= |Levels|
    ensures i < |Levels| && (n == 0 || i < n)
    ensures Levels[i].requiredApplause <= count || i == 0
    ensures forall j :: i < j < n ==> Levels[j].requiredApplause > count
  {
    if n == 0 then 0
    else if Levels[n - 1].requiredApplause <= count then n - 1
    else HighestReached(count, n - 1)
  }

  /** The level a number of applause corresponds to. */
  function LevelOf(count: int): LevelEntry
  {
    Levels[HighestReached(count, |Levels|)]
  }

  /**
   * `getUserLevel`: walks the ladder from the bottom and stops at the first level
   * not reached. It agrees with the search from the top.
   */
  method GetUserLevel(applauseCount: int) returns (current: LevelEntry)
    ensures current == LevelOf(applauseCount)
    ensures current in Levels
    ensures current.requiredApplause <= applauseCount || current == Levels[0]
  {
    LevelsWellFormed();
    current := Levels[0];
    var i := 0;
    while i < |Levels|
      invariant 0 <= i <= |Levels|
      invariant forall j :: 0 <= j < i ==> Levels[j].requiredApplause <= applauseCount
      invariant current == Levels[if i == 0 then 0 else i - 1]
    {
      if applauseCount >= Levels[i].requiredApplause {
        current := Levels[i];
      } else {
        break;
      }
      i := i + 1;
    }
    assert i == |Levels| || Levels[i].requiredApplause > applauseCount;
  }

  /** The ladder in closed form: two applause per level, up to level 6. */
  lemma LevelClosedForm(count: int)
    ensures LevelOf(count).level == if count < 0 then 0 else if count / 2 < 6 then count / 2 else 6
  {
    LevelsWellFormed();
    var i := HighestReached(count, |Levels|);
    assert Levels[i].level == i;
    if count < 0 {
      assert i == 0;
    } else if count < 12 {
      var k := count / 2;
      assert Levels[k].requiredApplause == 2 * k <= count;
      assert Levels[k + 1].requiredApplause == 2 * k + 2 > count;
      assert i == k;
    } else {
      assert i == 6;
    }
  }

  /** More applause never means a lower level. */
  lemma LevelMonotone(a: int, b: int)
    requires a <= b
    ensures LevelOf(a).level <= LevelOf(b).level
  {
    LevelClosedForm(a);
    LevelClosedForm(b);
  }

  /** `LEVELS.find(l => l.level === currentLevel + 1) || null` */
  function GetNextLevelInfo(currentLevel: int): (next: Option<LevelEntry>)
    ensures next.Some? <==> -1 <= currentLevel < |Levels| - 1
    ensures next.Some? ==> next.value == Levels[currentLevel + 1]
  {
    LevelsWellFormed();
    FindLevel(Levels, currentLevel + 1)
  }

  function FindLevel(table: seq<LevelEntry>, level: int): (r: Option<LevelEntry>)
    ensures r.Some? ==> r.value in table && r.value.level == level
    ensures r.None? ==> forall i :: 0 <= i < |table| ==> table[i].level != level
  {
    if table == [] then None
    else if table[0].level == level then Some(table[0])
    else FindLevel(table[1..], level)
  }

  /** The progress bar: exact percentage (the source uses floating point), applause still needed, next level's name. */
  datatype Progress = Progress(progressPercentage: real, needed: int, nextLevelName: string)

  /**
   * `getProgressToNextLevel`: at the top level the bar is full with nothing needed;
   * otherwise the share of the way from the current threshold to the next one.
   */
  method GetProgressToNextLevel(applauseCount: int) returns (p: Progress)
    ensures applauseCount >= 12 <==> p == Progress(100.0, 0, "Máximo")
    ensures 0 <= applauseCount < 12 ==>
      0.0 <= p.progressPercentage < 100.0 && 1 <= p.needed <= 2
      && p.nextLevelName == Levels[LevelOf(applauseCount).level + 1].name
      && applauseCount + p.needed == Levels[LevelOf(applauseCount).level + 1].requiredApplause
    // every rung is two applause wide: half way up on an odd count, at the start on an even one
    ensures 0 <= applauseCount < 12 ==>
      p.progressPercentage == (if applauseCount % 2 == 0 then 0.0 else 50.0)
      && p.needed == 2 - applauseCount % 2
    // a negative count stays on the first rung and the share goes below zero
    ensures applauseCount < 0 ==>
      p == Progress(50.0 * applauseCount as real, 2 - applauseCount, Levels[1].name)
  {
    var currentInfo := GetUserLevel(applauseCount);
    LevelClosedForm(applauseCount);
    LevelsWellFormed();
    var nextInfo := GetNextLevelInfo(currentInfo.level);
    if nextInfo.None? {
      return Progress(100.0, 0, "Máximo");
    }
    var next := nextInfo.value;
    var inCurrentLevel := applauseCount - currentInfo.requiredApplause;
    var forNextLevel := next.requiredApplause - currentInfo.requiredApplause;
    var percentage := (inCurrentLevel as real / forNextLevel as real) * 100.0;
    if applauseCount < 12 {
      RungBelowTop(applauseCount);
      assert forNextLevel == 2;
      assert percentage == 50.0 * inCurrentLevel as real;
    }
    p := Progress(percentage, next.requiredApplause - applauseCount, next.name);
  }

  /** Below the top, the current rung starts at twice its level and the next one is two applause higher. */
  lemma RungBelowTop(count: int)
    requires count < 12
    ensures LevelOf(count).level < 6
    ensures LevelOf(count).requiredApplause == 2 * LevelOf(count).level
    ensures Levels[LevelOf(count).level + 1].requiredApplause == 2 * LevelOf(count).level + 2
    ensures count < 0 ==> LevelOf(count).level == 0
    ensures 0 <= count ==> count - LevelOf(count).requiredApplause == count % 2
  {
    LevelClosedForm(count);
    LevelsWellFormed();
    var k := LevelOf(count).level;
    assert LevelOf(count) == Levels[k];
  }
}
