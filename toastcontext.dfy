/**
 * The list of toast messages shown in the corner of the screen. A toast is
 * identified by the millisecond it was created in.
 */
module ToastContext {
  import opened Seqs

  datatype ToastType = SuccessToast | ErrorToast | InfoToast

  datatype ToastMessage = ToastMessage(id: int, message: string, kind: ToastType)

  predicate HasId(id: int, t: ToastMessage)
  {
    t.id == id
  }

  function IdIs(id: int): ToastMessage -> bool
  {
    t => HasId(id, t)
  }

  /** `toasts.filter(toast => toast.id !== id)` */
  function WithoutId(toasts: seq<ToastMessage>, id: int): seq<ToastMessage>
  {
    FilterBy(toasts, IdIs(id), false)
  }

  /** Removing by id leaves no toast with that id, keeps every other toast, and keeps their order. */
  lemma WithoutIdMeaning(toasts: seq<ToastMessage>, id: int)
    ensures forall t :: t in WithoutId(toasts, id) <==> t in toasts && t.id != id
    ensures IsSubsequence(WithoutId(toasts, id), toasts)
  {
    FilterIsSubsequence(toasts, IdIs(id), false);
    FilterByMembership(toasts, IdIs(id), false);
  }

  /** Dismissing a toast just added, whose id no other toast shares, restores the list. */
  lemma RemoveAfterAdd(toasts: seq<ToastMessage>, t: ToastMessage)
    requires forall i :: 0 <= i < |toasts| ==> toasts[i].id != t.id
    ensures WithoutId(toasts + [t], t.id) == toasts
  {
    FilterByAppend(toasts, t, IdIs(t.id), false);
    FilterByAll(toasts, IdIs(t.id), false);
  }

  /** Dismissing an id no toast has leaves the list as it is. */
  lemma RemoveAbsentId(toasts: seq<ToastMessage>, id: int)
    requires forall i :: 0 <= i < |toasts| ==> toasts[i].id != id
    ensures WithoutId(toasts, id) == toasts
  {
    FilterByAll(toasts, IdIs(id), false);
  }

  /** Two toasts raised in the same millisecond share an id, so dismissing one dismisses both. */
  lemma SameMillisecondCollision(toasts: seq<ToastMessage>, now: int, m1: string, k1: ToastType, m2: string, k2: ToastType)
    ensures WithoutId(toasts + [ToastMessage(now, m1, k1)] + [ToastMessage(now, m2, k2)], now) == WithoutId(toasts, now)
  {
    FilterByAppend(toasts, ToastMessage(now, m1, k1), IdIs(now), false);
    FilterByAppend(toasts + [ToastMessage(now, m1, k1)], ToastMessage(now, m2, k2), IdIs(now), false);
  }

  class ToastList {
    var toasts: seq<ToastMessage>

    constructor()
      ensures toasts == []
    {
      toasts := [];
    }

    /** `addToast`: `now` is `Date.now()`. */
    method AddToast(message: string, kind: ToastType, now: int)
      modifies this
      ensures toasts == old(toasts) + [ToastMessage(now, message, kind)]
    {
      toasts := toasts + [ToastMessage(now, message, kind)];
    }

    /** `removeToast` */
    method RemoveToast(id: int)
      modifies this
      ensures toasts == WithoutId(old(toasts), id)
      ensures forall t :: t in toasts <==> t in old(toasts) && t.id != id
    {
      WithoutIdMeaning(toasts, id);
      toasts := WithoutId(toasts, id);
    }
  }
}
