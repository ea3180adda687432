/**
 * The rewards marketplace: the user's level and available points, the stock
 * left of each reward, the level filter, and the two-step redemption (click,
 * then confirm) that records a pending redemption.
 */
module Marketplace {
  import opened Js
  import opened Seqs
  import opened JsObject
  import opened Types
  import opened Constants
  import opened LevelUtils
  import opened RewardCard
  import opened DataContext
  import opened ToastContext

  // ---------------------------------------------------------------------------
  // The user's points and level

  function UserRedemptions(redemptions: seq<Redemption>, userId: string): seq<Redemption>
  {
    FilterBy(redemptions, OwnedBy(userId), true)
  }

  /** Gross points on this page: `calculateGrossPoints` of the applause received (the carried-over points are passed but not used). */
  function GrossPointsOf(user: User, applause: seq<Applause>): int
  {
    CalculateGrossPoints(CountBy(applause, ReceivedBy(user.usuarioId)))
  }

  function NetPointsOf(user: User, applause: seq<Applause>, redemptions: seq<Redemption>, rewards: seq<Reward>): int
  {
    CalculateNetPoints(GrossPointsOf(user, applause), UserRedemptions(redemptions, user.usuarioId), rewards)
  }

  /**
   * The balance shown is 100 points per applause received, less what the user's own
   * redemptions cost: another user's redemption never changes it, and with costs that
   * are not negative it never exceeds the gross points.
   */
  lemma NetPointsMeaning(user: User, applause: seq<Applause>, redemptions: seq<Redemption>, rewards: seq<Reward>, r: Redemption)
    ensures UserRedemptions(redemptions, user.usuarioId) == [] ==>
      NetPointsOf(user, applause, redemptions, rewards) == PointsPerApplause * CountBy(applause, ReceivedBy(user.usuarioId))
    ensures r.usuarioId != user.usuarioId ==>
      NetPointsOf(user, applause, redemptions + [r], rewards) == NetPointsOf(user, applause, redemptions, rewards)
    ensures NonNegativeCosts(rewards) ==>
      NetPointsOf(user, applause, redemptions, rewards) <= PointsPerApplause * CountBy(applause, ReceivedBy(user.usuarioId))
  {
    if r.usuarioId != user.usuarioId {
      FilterByAppend(redemptions, r, OwnedBy(user.usuarioId), true);
      assert UserRedemptions(redemptions + [r], user.usuarioId) == UserRedemptions(redemptions, user.usuarioId);
    }
    if NonNegativeCosts(rewards) {
      NetAtMostGross(GrossPointsOf(user, applause), UserRedemptions(redemptions, user.usuarioId), rewards);
    }
  }

  /** The level shown on this page is looked up with the gross points, not with the number of applause. */
  function PageLevel(user: User, applause: seq<Applause>): LevelEntry
  {
    LevelOf(GrossPointsOf(user, applause))
  }

  /**
   * Because the level thresholds count applause while this page passes points,
   * a single applause already puts a user at the top level here.
   */
  lemma PageLevelFromPoints(user: User, applause: seq<Applause>)
    ensures var received := CountBy(applause, ReceivedBy(user.usuarioId));
      PageLevel(user, applause).level == (if received == 0 then 0 else 6)
      && LevelOf(received).level == (if received / 2 < 6 then received / 2 else 6)
  {
    var received := CountBy(applause, ReceivedBy(user.usuarioId));
    LevelClosedForm(received);
    LevelClosedForm(GrossPointsOf(user, applause));
  }

  // ---------------------------------------------------------------------------
  // Stock

  /** A redemption takes a unit of stock when it is not rejected and names a reward. */
  predicate ConsumesStock(r: Redemption)
  {
    !IsRejected(r) && r.recompensaId != ""
  }

  /** The reward ids the `reduce` counts, in order. */
  function RedeemedKeys(redemptions: seq<Redemption>): seq<string>
  {
    if redemptions == [] then []
    else (if ConsumesStock(redemptions[0]) then [redemptions[0].recompensaId] else []) + RedeemedKeys(redemptions[1..])
  }

  /** `redemptionCounts`: units taken per reward id. */
  function RedemptionCounts(redemptions: seq<Redemption>): Record<nat>
  {
    Tally(RedeemedKeys(redemptions))
  }

  /** `parseInt(reward.stock) || 0` (no radix) */
  function InitialStock(reward: Reward): int
  {
    OrElse(ParseIntNoRadix(reward.stock), 0)
  }

  /**
   * A stock written as an integer is that many units, and a blank stock is none.
   */
  lemma InitialStockMeaning(reward: Reward, n: int)
    ensures reward.stock == DecimalString(n) ==> InitialStock(reward) == n
    ensures reward.stock == "" ==> InitialStock(reward) == 0
  {
    DecimalStringRoundTrip(n);
  }

  function TakesUnitOf(id: string): Redemption -> bool
  {
    (r: Redemption) => ConsumesStock(r) && r.recompensaId == id
  }

  /**
   * The units of reward `id` taken, counted directly on the redemptions: none for a
   * blank id, and otherwise none exactly when no redemption that is not rejected names it.
   */
  function UnitsTaken(redemptions: seq<Redemption>, id: string): (n: nat)
    ensures n <= |redemptions|
    ensures id == "" ==> n == 0
    ensures id != "" ==> (n == 0 <==>
      forall i :: 0 <= i < |redemptions| ==> IsRejected(redemptions[i]) || redemptions[i].recompensaId != id)
  {
    if id == "" then 0
    else
      CountByZero(redemptions, TakesUnitOf(id));
      CountBy(redemptions, TakesUnitOf(id))
  }

  datatype RewardWithStock = RewardWithStock(reward: Reward, availableStock: int)

  /** `rewardsWithStock`: each reward with its initial stock minus the units counted for it, never below 0. */
  function RewardsWithStock(rewards: seq<Reward>, redemptions: seq<Redemption>): (ws: seq<RewardWithStock>)
    ensures |ws| == |rewards|
    ensures forall i :: 0 <= i < |ws| ==> ws[i].reward == rewards[i] && ws[i].availableStock >= 0
  {
    var counts := RedemptionCounts(redemptions);
    seq(|rewards|, i requires 0 <= i < |rewards| => StockEntry(rewards[i], counts))
  }

  /** The callback of `rewards.map`: the reward with its initial stock less the units counted for its id. */
  function StockEntry(reward: Reward, counts: Record<nat>): RewardWithStock
  {
    var key := reward.recompensaId;
    var redeemedCount := if key != "" then CountOf(counts, key) else 0;
    RewardWithStock(reward, Max0(InitialStock(reward) - redeemedCount))
  }

  /**
   * The counts object agrees with counting the redemptions directly: each reward's
   * stock is its initial stock less the units taken of it, floored at 0.
   */
  lemma RewardsWithStockMeaning(rewards: seq<Reward>, redemptions: seq<Redemption>)
    ensures var ws := RewardsWithStock(rewards, redemptions);
      forall i :: 0 <= i < |ws| ==>
        ws[i].availableStock == Max0(InitialStock(rewards[i]) - UnitsTaken(redemptions, rewards[i].recompensaId))
  {
    forall i | 0 <= i < |rewards| {
      RewardStockAt(rewards, redemptions, i);
    }
  }

  /** One reward's entry: the counts object's figure for it is the number of units taken of it. */
  lemma RewardStockAt(rewards: seq<Reward>, redemptions: seq<Redemption>, i: int)
    requires 0 <= i < |rewards|
    ensures RewardsWithStock(rewards, redemptions)[i].availableStock
      == Max0(InitialStock(rewards[i]) - UnitsTaken(redemptions, rewards[i].recompensaId))
  {
    var key := rewards[i].recompensaId;
    assert RewardsWithStock(rewards, redemptions)[i] == StockEntry(rewards[i], RedemptionCounts(redemptions));
    if key != "" {
      RedemptionCountOf(redemptions, key);
    }
  }

  /** The counts object holds, for a non-empty id, the units taken of that reward. */
  lemma RedemptionCountOf(redemptions: seq<Redemption>, id: string)
    requires id != ""
    ensures CountOf(RedemptionCounts(redemptions), id) == UnitsTaken(redemptions, id)
  {
    TallyCounts(RedeemedKeys(redemptions), id);
    RedeemedKeysCount(redemptions, id);
  }

  /** `Math.max(0, x)` */
  function Max0(x: int): int
  {
    if x < 0 then 0 else x
  }

  lemma {:induction false} RedeemedKeysCount(redemptions: seq<Redemption>, id: string)
    requires id != ""
    ensures multiset(RedeemedKeys(redemptions))[id] == CountBy(redemptions, TakesUnitOf(id))
    ensures id !in RedeemedKeys(redemptions) ==> CountBy(redemptions, TakesUnitOf(id)) == 0
  {
    if redemptions != [] {
      RedeemedKeysCount(redemptions[1..], id);
    }
  }

  /** A new redemption that takes a unit of reward `id` lowers its count of units by one and leaves other rewards alone. */
  lemma UnitsTakenAfterRedemption(redemptions: seq<Redemption>, r: Redemption, id: string)
    ensures UnitsTaken(redemptions + [r], id)
      == UnitsTaken(redemptions, id) + (if id != "" && TakesUnitOf(id)(r) then 1 else 0)
  {
    if id != "" {
      CountByConcat(redemptions, [r], TakesUnitOf(id));
    }
  }

  /** A rejected redemption, or one without a reward id, takes no stock. */
  lemma RejectedTakesNoStock(redemptions: seq<Redemption>, r: Redemption, id: string)
    requires IsRejected(r) || r.recompensaId == ""
    ensures UnitsTaken(redemptions + [r], id) == UnitsTaken(redemptions, id)
  {
    UnitsTakenAfterRedemption(redemptions, r, id);
  }

  /** `rewardsWithStock.find(r => r.recompensa_id === id)` */
  function FindWithStock(ws: seq<RewardWithStock>, id: string): (r: Option<RewardWithStock>)
    ensures r.Some? ==> r.value in ws && r.value.reward.recompensaId == id
    ensures r.None? ==> forall i :: 0 <= i < |ws| ==> ws[i].reward.recompensaId != id
  {
    if ws == [] then None
    else if ws[0].reward.recompensaId == id then Some(ws[0])
    else FindWithStock(ws[1..], id)
  }

  /** The reward is listed and has at least one unit left. */
  predicate InStock(ws: seq<RewardWithStock>, id: string)
  {
    match FindWithStock(ws, id)
    case Some(w) => w.availableStock > 0
    case None => false
  }

  // ---------------------------------------------------------------------------
  // Redemption decisions

  datatype ClickOutcome = NotEnoughPoints | SoldOut | AskConfirmation

  /** `handleRedeemClick`: points are checked first, then stock; the level is not checked. */
  function RedeemClickOutcome(netPoints: int, reward: Reward, ws: seq<RewardWithStock>): (o: ClickOutcome)
    ensures o == AskConfirmation <==> netPoints >= RewardCost(reward) && InStock(ws, reward.recompensaId)
    ensures o == NotEnoughPoints <==> netPoints < RewardCost(reward)
  {
    if netPoints < RewardCost(reward) then NotEnoughPoints
    else if !InStock(ws, reward.recompensaId) then SoldOut
    else AskConfirmation
  }

  /** An enabled card always leads to the confirmation dialog. */
  lemma EnabledCardAsksConfirmation(reward: Reward, userLevel: int, netPoints: int, ws: seq<RewardWithStock>, i: nat)
    requires i < |ws| && ws[i].reward == reward
    requires forall j :: 0 <= j < i ==> ws[j].reward.recompensaId != reward.recompensaId
    requires CanRedeem(reward, userLevel, netPoints, ws[i].availableStock)
    ensures RedeemClickOutcome(netPoints, reward, ws) == AskConfirmation
  {
    FindFirst(ws, reward.recompensaId, i);
  }

  lemma {:induction false} FindFirst(ws: seq<RewardWithStock>, id: string, i: nat)
    requires i < |ws| && ws[i].reward.recompensaId == id
    requires forall j :: 0 <= j < i ==> ws[j].reward.recompensaId != id
    ensures FindWithStock(ws, id) == Some(ws[i])
  {
    if i > 0 {
      FindFirst(ws[1..], id, i - 1);
    }
  }

  /**
   * The click handler does not look at the level: a user below the reward's level
   * who has the points gets the confirmation dialog. Only the card's disabled
   * button keeps such a user out.
   */
  lemma ClickIgnoresLevel(reward: Reward, userLevel: int, netPoints: int, ws: seq<RewardWithStock>)
    requires !HasRequiredLevel(userLevel, reward)
    requires netPoints >= RewardCost(reward) && InStock(ws, reward.recompensaId)
    ensures RedeemClickOutcome(netPoints, reward, ws) == AskConfirmation
    ensures forall stock :: ButtonDisabled(reward, userLevel, netPoints, stock)
  {
  }

  datatype ConfirmOutcome = NothingSelected | SoldOutMeanwhile | PointsChanged | Redeemed

  /** `confirmRedemption`: stock is checked again first, then points. */
  function ConfirmRedemptionOutcome(selected: Option<Reward>, netPoints: int, ws: seq<RewardWithStock>): (o: ConfirmOutcome)
    ensures o == Redeemed <==>
      selected.Some? && InStock(ws, selected.value.recompensaId) && netPoints >= RewardCost(selected.value)
    ensures o == NothingSelected <==> selected.None?
  {
    match selected
    case None => NothingSelected
    case Some(reward) =>
      if !InStock(ws, reward.recompensaId) then SoldOutMeanwhile
      else if netPoints < RewardCost(reward) then PointsChanged
      else Redeemed
  }

  // The error toasts of the two handlers.
  const NotEnoughPointsMessage := "No tienes suficientes puntos para esta recompensa."
  const SoldOutMessage := "Esta recompensa está agotada."
  const SoldOutMeanwhileMessage := "Lo sentimos, esta recompensa se agotó mientras confirmabas."
  const PointsChangedMessage := "Tus puntos han cambiado y ya no son suficientes para esta recompensa."

  /** What `addRedemption` receives on a confirmed redemption. */
  function DraftFor(user: User, reward: Reward): RedemptionDraft
  {
    RedemptionDraft(user.usuarioId, reward.recompensaId, None, Some(reward.puntosCosto), None, None, None, None)
  }

  function SuccessMessage(reward: Reward): string
  {
    "¡\"" + reward.nombre + "\" canjeado con éxito!"
  }

  /** A fresh redemption is pending, so it takes a unit of its reward and its points count against the balance. */
  lemma NewRedemptionIsActive(draft: RedemptionDraft, nowMs: int, nowIso: string)
    ensures !IsRejected(NewRedemption(draft, nowMs, nowIso))
    ensures draft.recompensaId != "" ==> ConsumesStock(NewRedemption(draft, nowMs, nowIso))
  {
    var r := NewRedemption(draft, nowMs, nowIso);
    assert TrimStart(ToLower("Pendiente")) == ToLower("Pendiente");
    assert ToLower("Pendiente")[0] == 'p';
    assert Trim(ToLower("Pendiente")) != "rechazado" by {
      var t := Trim(ToLower("Pendiente"));
      assert t == ToLower("Pendiente")[..|t|];
      if |t| > 0 {
        assert t[0] == 'p';
      }
    }
  }

  /**
   * After a confirmed redemption the chosen reward has one unit less (it had at
   * least one) and the user's balance has dropped by the reward's cost.
   */
  lemma RedemptionEffect(user: User, applause: seq<Applause>, redemptions: seq<Redemption>, rewards: seq<Reward>,
                         i: nat, nowMs: int, nowIso: string)
    requires i < |rewards| && rewards[i].recompensaId != ""
    requires RewardsWithStock(rewards, redemptions)[i].availableStock > 0
    ensures var r := NewRedemption(DraftFor(user, rewards[i]), nowMs, nowIso);
      RewardsWithStock(rewards, redemptions + [r])[i].availableStock
        == RewardsWithStock(rewards, redemptions)[i].availableStock - 1
      && NetPointsOf(user, applause, redemptions + [r], rewards)
        == NetPointsOf(user, applause, redemptions, rewards) - CostOf(rewards, r)
  {
    var r := NewRedemption(DraftFor(user, rewards[i]), nowMs, nowIso);
    NewRedemptionIsActive(DraftFor(user, rewards[i]), nowMs, nowIso);
    UnitsTakenAfterRedemption(redemptions, r, rewards[i].recompensaId);
    RewardsWithStockMeaning(rewards, redemptions);
    RewardsWithStockMeaning(rewards, redemptions + [r]);
    FilterByAppend(redemptions, r, OwnedBy(user.usuarioId), true);
    NetAfterRedemption(GrossPointsOf(user, applause), UserRedemptions(redemptions, user.usuarioId), rewards, r);
  }

  // ---------------------------------------------------------------------------
  // Level filter

  function LevelIs(level: string): RewardWithStock -> bool
  {
    (w: RewardWithStock) => w.reward.nivelRequerido == level
  }

  /** `filteredRewards`: everything for 'all', otherwise the rewards whose level text is exactly the filter. */
  function FilteredRewards(ws: seq<RewardWithStock>, levelFilter: string): (shown: seq<RewardWithStock>)
    ensures levelFilter == "all" ==> shown == ws
    ensures levelFilter != "all" ==>
      (forall w :: w in shown <==> w in ws && w.reward.nivelRequerido == levelFilter)
      && IsSubsequence(shown, ws)
  {
    if levelFilter == "all" then ws
    else
      FilterIsSubsequence(ws, LevelIs(levelFilter), true);
      FilterByMembership(ws, LevelIs(levelFilter), true);
      FilterBy(ws, LevelIs(levelFilter), true)
  }

  function LevelNumber(level: string): int
  {
    OrElse(ParseInt10(level), 0)
  }

  function RequiredLevel(r: Reward): string
  {
    r.nivelRequerido
  }

  /** `availableLevels`: each distinct level text once, ordered by its numeric value (stable for ties). */
  function AvailableLevels(rewards: seq<Reward>): (levels: seq<string>)
    ensures NoDuplicates(levels)
    ensures forall l :: l in levels <==> exists i :: 0 <= i < |rewards| && rewards[i].nivelRequerido == l
    ensures forall i, j :: 0 <= i < j < |levels| ==> LevelNumber(levels[i]) <= LevelNumber(levels[j])
  {
    var distinct := Distinct(MapSeq(rewards, RequiredLevel));
    var sorted := SortBy(distinct, LevelNumber);
    SameMembers(distinct, sorted);
    RequiredLevelsPresent(rewards);
    NoDuplicatesAfterPermutation(distinct, sorted);
    sorted
  }

  /**
   * Level texts of the same numeric value keep the order of the `Set`, which is
   * the order in which rewards first show them: the stable sort does not reorder
   * them, and the texts first seen among the first `k` rewards lead the set.
   */
  lemma AvailableLevelsTies(rewards: seq<Reward>, v: int)
    ensures var texts := MapSeq(rewards, RequiredLevel);
      WithKey(AvailableLevels(rewards), LevelNumber, v) == WithKey(Distinct(texts), LevelNumber, v)
    ensures var texts := MapSeq(rewards, RequiredLevel);
      forall k :: 0 <= k <= |texts| ==> Distinct(texts[..k]) <= Distinct(texts)
  {
    var texts := MapSeq(rewards, RequiredLevel);
    SortByStable(Distinct(texts), LevelNumber, v);
    forall k | 0 <= k <= |texts|
      ensures Distinct(texts[..k]) <= Distinct(texts)
    {
      DistinctOfPrefix(texts, k);
    }
  }

  lemma RequiredLevelsPresent(rewards: seq<Reward>)
    ensures forall l :: l in MapSeq(rewards, RequiredLevel) <==>
      exists i :: 0 <= i < |rewards| && rewards[i].nivelRequerido == l
  {
    var levels := MapSeq(rewards, RequiredLevel);
    forall l | l in levels
      ensures exists i :: 0 <= i < |rewards| && rewards[i].nivelRequerido == l
    {
      var i :| 0 <= i < |rewards| && levels[i] == l;
    }
    forall i | 0 <= i < |rewards|
      ensures rewards[i].nivelRequerido in levels
    {
      assert levels[i] == rewards[i].nivelRequerido;
    }
  }

  // ---------------------------------------------------------------------------
  // The page

  class MarketplacePage {
    const user: User
    const data: DataStore
    const toasts: ToastList
    var levelFilter: string
    var isConfirmModalOpen: bool
    var selectedReward: Option<Reward>

    constructor(user: User, data: DataStore, toasts: ToastList)
      ensures this.user == user && this.data == data && this.toasts == toasts
      ensures levelFilter == "all" && !isConfirmModalOpen && selectedReward == None
    {
      this.user := user;
      this.data := data;
      this.toasts := toasts;
      levelFilter := "all";
      isConfirmModalOpen := false;
      selectedReward := None;
    }

    function NetPoints(): int
      reads data
    {
      NetPointsOf(user, data.applause, data.redemptions, data.rewards)
    }

    function Stock(): seq<RewardWithStock>
      reads data
    {
      RewardsWithStock(data.rewards, data.redemptions)
    }

    /** The cards on screen. */
    function Shown(): seq<RewardWithStock>
      reads this, data
    {
      FilteredRewards(Stock(), levelFilter)
    }

    method SetLevelFilter(level: string)
      modifies this
      ensures levelFilter == level
      ensures isConfirmModalOpen == old(isConfirmModalOpen) && selectedReward == old(selectedReward)
    {
      levelFilter := level;
    }

    /**
     * `handleRedeemClick`: a refusal raises an error toast; otherwise the reward is
     * selected and the dialog opens. `netPoints` and `ws` are the values the
     * render the click happened in computed (`NetPoints()` and `Stock()`), which
     * the handler closes over.
     */
    method HandleRedeemClick(reward: Reward, netPoints: int, ws: seq<RewardWithStock>, nowMs: int)
      modifies this, toasts
      ensures levelFilter == old(levelFilter)
      ensures var o := RedeemClickOutcome(netPoints, reward, ws);
        (o == AskConfirmation ==>
          selectedReward == Some(reward) && isConfirmModalOpen && toasts.toasts == old(toasts.toasts))
        && (o == NotEnoughPoints ==>
          selectedReward == old(selectedReward) && isConfirmModalOpen == old(isConfirmModalOpen)
          && toasts.toasts == old(toasts.toasts) + [ToastMessage(nowMs, NotEnoughPointsMessage, ErrorToast)])
        && (o == SoldOut ==>
          selectedReward == old(selectedReward) && isConfirmModalOpen == old(isConfirmModalOpen)
          && toasts.toasts == old(toasts.toasts) + [ToastMessage(nowMs, SoldOutMessage, ErrorToast)])
    {
      var cost := RewardCost(reward);
      if netPoints < cost {
        toasts.AddToast(NotEnoughPointsMessage, ErrorToast, nowMs);
        return;
      }
      var rewardInfo := FindWithStock(ws, reward.recompensaId);
      if rewardInfo.None? || rewardInfo.value.availableStock <= 0 {
        toasts.AddToast(SoldOutMessage, ErrorToast, nowMs);
        return;
      }
      selectedReward := Some(reward);
      isConfirmModalOpen := true;
    }

    /**
     * `confirmRedemption`: without a selection nothing happens; a failed re-check
     * raises an error toast; success records a pending redemption and a success
     * toast. In every case but the first the dialog closes and the selection clears.
     * The checks use the points and stock the enclosing render computed
     * (`NetPoints()` and `Stock()`), which the handler closes over.
     */
    method ConfirmRedemption(netPoints: int, ws: seq<RewardWithStock>, nowMs: int, nowIso: string)
      modifies this, data, toasts
      ensures levelFilter == old(levelFilter)
      ensures data.users == old(data.users) && data.applause == old(data.applause) && data.rewards == old(data.rewards)
      ensures data.loading == old(data.loading) && data.error == old(data.error)
      ensures var o := ConfirmRedemptionOutcome(old(selectedReward), netPoints, ws);
        (o == NothingSelected ==>
          isConfirmModalOpen == old(isConfirmModalOpen) && selectedReward == None
          && data.redemptions == old(data.redemptions) && toasts.toasts == old(toasts.toasts))
        && (o != NothingSelected ==> !isConfirmModalOpen && selectedReward == None)
        && (o == SoldOutMeanwhile ==>
          data.redemptions == old(data.redemptions)
          && toasts.toasts == old(toasts.toasts) + [ToastMessage(nowMs, SoldOutMeanwhileMessage, ErrorToast)])
        && (o == PointsChanged ==>
          data.redemptions == old(data.redemptions)
          && toasts.toasts == old(toasts.toasts) + [ToastMessage(nowMs, PointsChangedMessage, ErrorToast)])
        && (o == Redeemed ==>
          data.redemptions == old(data.redemptions) + [NewRedemption(DraftFor(user, old(selectedReward).value), nowMs, nowIso)]
          && toasts.toasts == old(toasts.toasts) + [ToastMessage(nowMs, SuccessMessage(old(selectedReward).value), SuccessToast)])
    {
      var o := ConfirmRedemptionOutcome(selectedReward, netPoints, ws);
      if o == NothingSelected {
        return;
      }
      var reward := selectedReward.value;
      if o == SoldOutMeanwhile {
        CloseWithError(SoldOutMeanwhileMessage, nowMs);
      } else if o == PointsChanged {
        CloseWithError(PointsChangedMessage, nowMs);
      } else {
        Complete(reward, nowMs, nowIso);
      }
    }

    /** A failed re-check: an error toast, and the dialog closes. */
    method CloseWithError(message: string, nowMs: int)
      modifies this, toasts
      ensures levelFilter == old(levelFilter) && !isConfirmModalOpen && selectedReward == None
      ensures toasts.toasts == old(toasts.toasts) + [ToastMessage(nowMs, message, ErrorToast)]
    {
      toasts.AddToast(message, ErrorToast, nowMs);
      isConfirmModalOpen := false;
      selectedReward := None;
    }

    /** A confirmed redemption: the pending record, the success toast, and the dialog closes. */
    method Complete(reward: Reward, nowMs: int, nowIso: string)
      modifies this, data, toasts
      ensures levelFilter == old(levelFilter) && !isConfirmModalOpen && selectedReward == None
      ensures data.users == old(data.users) && data.applause == old(data.applause) && data.rewards == old(data.rewards)
      ensures data.loading == old(data.loading) && data.error == old(data.error)
      ensures data.redemptions == old(data.redemptions) + [NewRedemption(DraftFor(user, reward), nowMs, nowIso)]
      ensures toasts.toasts == old(toasts.toasts) + [ToastMessage(nowMs, SuccessMessage(reward), SuccessToast)]
    {
      data.AddRedemption(DraftFor(user, reward), nowMs, nowIso);
      toasts.AddToast(SuccessMessage(reward), SuccessToast, nowMs);
      isConfirmModalOpen := false;
      selectedReward := None;
    }
  }
}
