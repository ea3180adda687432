/**
 * The application-wide data store: the four sheets in memory, the loading flag,
 * the load error, and the two operations that append a record locally.
 */
module DataContext {
  import opened Js
  import opened Types

  datatype DataState = DataState(
    users: seq<User>,
    applause: seq<Applause>,
    rewards: seq<Reward>,
    redemptions: seq<Redemption>)

  /** What `addApplause` is given: an applause without id and date. */
  datatype ApplauseDraft = ApplauseDraft(otorganteId: string, receptorId: string, principio: string, motivo: string)

  /** What `addRedemption` is given: a redemption without id and date (its status is overwritten). */
  datatype RedemptionDraft = RedemptionDraft(
    usuarioId: string,
    recompensaId: string,
    nivelRequerido: Option<string>,
    puntosRequeridos: Option<string>,
    puntosPrevios: Option<string>,
    puntosRestantes: Option<string>,
    comprobantePdfUrl: Option<string>,
    observaciones: Option<string>)

  /** The result of loading the sheets: the data, or the error message. */
  datatype LoadResult = Loaded(data: DataState) | LoadFailed(message: string)

  /** `app-${Date.now()}` */
  function ApplauseId(nowMs: int): string
  {
    "app-" + DecimalString(nowMs)
  }

  /** `red-${Date.now()}` */
  function RedemptionId(nowMs: int): string
  {
    "red-" + DecimalString(nowMs)
  }

  function NewApplause(draft: ApplauseDraft, nowMs: int, nowIso: string): Applause
  {
    Applause(ApplauseId(nowMs), draft.otorganteId, draft.receptorId, draft.principio, draft.motivo, nowIso)
  }

  function NewRedemption(draft: RedemptionDraft, nowMs: int, nowIso: string): Redemption
  {
    Redemption(RedemptionId(nowMs), draft.usuarioId, draft.recompensaId, nowIso,
      draft.nivelRequerido, draft.puntosRequeridos, draft.puntosPrevios, draft.puntosRestantes,
      Some("Pendiente"), draft.comprobantePdfUrl, draft.observaciones)
  }

  /** Ids minted in different milliseconds differ; ids minted in the same millisecond collide. */
  lemma IdsByMillisecond(a: int, b: int)
    ensures RedemptionId(a) == RedemptionId(b) <==> a == b
    ensures ApplauseId(a) == ApplauseId(b) <==> a == b
    ensures RedemptionId(a) != ApplauseId(b)
  {
    if RedemptionId(a) == RedemptionId(b) {
      assert DecimalString(a) == RedemptionId(a)[4..] == RedemptionId(b)[4..] == DecimalString(b);
      DecimalStringInjective(a, b);
    }
    if ApplauseId(a) == ApplauseId(b) {
      assert DecimalString(a) == ApplauseId(a)[4..] == ApplauseId(b)[4..] == DecimalString(b);
      DecimalStringInjective(a, b);
    }
    assert RedemptionId(a)[0] == 'r' && ApplauseId(b)[0] == 'a';
  }

  class DataStore {
    var users: seq<User>
    var applause: seq<Applause>
    var rewards: seq<Reward>
    var redemptions: seq<Redemption>
    var loading: bool
    var error: Option<string>

    /** The provider starts empty and loading. */
    constructor()
      ensures users == [] && applause == [] && rewards == [] && redemptions == []
      ensures loading && error == None
    {
      users, applause, rewards, redemptions := [], [], [], [];
      loading, error := true, None;
    }

    /**
     * The end of the initial load (`fetchData().finally(...)`): the data are
     * replaced on success, kept on failure with the error recorded; loading ends.
     */
    method FinishLoad(result: LoadResult)
      modifies this
      ensures !loading
      ensures result.Loaded? ==> DataState(users, applause, rewards, redemptions) == result.data && error == old(error)
      ensures result.LoadFailed? ==> (error == Some(result.message)
        && users == old(users) && applause == old(applause) && rewards == old(rewards) && redemptions == old(redemptions))
    {
      match result {
        case Loaded(d) =>
          users, applause, rewards, redemptions := d.users, d.applause, d.rewards, d.redemptions;
        case LoadFailed(m) =>
          error := Some(m);
      }
      loading := false;
    }

    /** `addApplause`: the applause is appended with a fresh id and the current date. */
    method AddApplause(draft: ApplauseDraft, nowMs: int, nowIso: string)
      modifies this
      ensures applause == old(applause) + [NewApplause(draft, nowMs, nowIso)]
      ensures users == old(users) && rewards == old(rewards) && redemptions == old(redemptions)
      ensures loading == old(loading) && error == old(error)
    {
      applause := applause + [NewApplause(draft, nowMs, nowIso)];
    }

    /** `addRedemption`: the redemption is appended, pending, with a fresh id and the current date. */
    method AddRedemption(draft: RedemptionDraft, nowMs: int, nowIso: string)
      modifies this
      ensures redemptions == old(redemptions) + [NewRedemption(draft, nowMs, nowIso)]
      ensures users == old(users) && applause == old(applause) && rewards == old(rewards)
      ensures loading == old(loading) && error == old(error)
    {
      redemptions := redemptions + [NewRedemption(draft, nowMs, nowIso)];
    }
  }
}
