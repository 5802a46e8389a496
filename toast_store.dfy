/**
 * The toast queue: `addToast` appends a toast under a fresh id taken from a
 * module-level counter that only ever increases; `removeToast` drops the
 * toasts with a given id.
 */
module ToastQueue {
  datatype ToastKind = Success | Error | Info | Warning

  datatype Toast = Toast(id: nat, kind: ToastKind, message: string)

  /** `toasts.filter(t => t.id !== id)`. */
  function WithoutId(toasts: seq<Toast>, id: nat): (r: seq<Toast>)
    ensures |r| <= |toasts|
    ensures forall t :: t in r <==> t in toasts && t.id != id
  {
    if toasts == [] then []
    else
      var last := toasts[|toasts| - 1];
      WithoutId(toasts[..|toasts| - 1], id) + (if last.id != id then [last] else [])
  }

  /** Ids strictly increase along the list. */
  predicate IdsIncreasing(toasts: seq<Toast>) {
    forall i, j :: 0 <= i < j < |toasts| ==> toasts[i].id < toasts[j].id
  }

  /** Removing an id that no toast has leaves the list as it was. */
  lemma {:induction false} WithoutAbsentId(toasts: seq<Toast>, id: nat)
    requires forall i :: 0 <= i < |toasts| ==> toasts[i].id != id
    ensures WithoutId(toasts, id) == toasts
  {
    if toasts != [] {
      WithoutAbsentId(toasts[..|toasts| - 1], id);
      assert toasts[..|toasts| - 1] + [toasts[|toasts| - 1]] == toasts;
    }
  }

  /** Removing keeps the remaining toasts in their order: increasing ids stay increasing. */
  lemma {:induction false} WithoutIdKeepsOrder(toasts: seq<Toast>, id: nat)
    requires IdsIncreasing(toasts)
    ensures IdsIncreasing(WithoutId(toasts, id))
  {
    if toasts != [] {
      var init := toasts[..|toasts| - 1];
      var last := toasts[|toasts| - 1];
      WithoutIdKeepsOrder(init, id);
      var r0 := WithoutId(init, id);
      forall t | t in r0 ensures t.id < last.id {
        var k :| 0 <= k < |init| && init[k] == t;
        assert toasts[k] == t;
      }
    }
  }

  /** Removing twice is removing once. */
  lemma WithoutIdIdempotent(toasts: seq<Toast>, id: nat)
    ensures WithoutId(WithoutId(toasts, id), id) == WithoutId(toasts, id)
  {
    var r := WithoutId(toasts, id);
    forall i | 0 <= i < |r| ensures r[i].id != id {
      assert r[i] in r;
    }
    WithoutAbsentId(r, id);
  }

  class ToastStore {
    var toasts: seq<Toast>
    /** The module counter `toastId`: the last id handed out. */
    var toastId: nat
    /** Every id handed out so far. */
    ghost var issued: set<nat>

    ghost predicate Valid()
      reads this
    {
      && IdsIncreasing(toasts)
      && (forall i :: 0 <= i < |toasts| ==> toasts[i].id in issued)
      && (forall n :: n in issued ==> 1 <= n <= toastId)
    }

    constructor ()
      ensures Valid() && toasts == [] && toastId == 0 && issued == {}
    {
      toasts := [];
      toastId := 0;
      issued := {};
    }

    /** `addToast`: one new toast at the end, under an id never handed out before. */
    method AddToast(kind: ToastKind, message: string)
      requires Valid()
      modifies this
      ensures Valid()
      ensures toasts == old(toasts) + [Toast(toastId, kind, message)]
      ensures toastId == old(toastId) + 1 && toastId !in old(issued)
      ensures issued == old(issued) + {toastId}
    {
      toastId := toastId + 1;
      toasts := toasts + [Toast(toastId, kind, message)];
      issued := issued + {toastId};
    }

    /** `removeToast`: drop every toast with `id`; the counter is untouched. */
    method RemoveToast(id: nat)
      requires Valid()
      modifies this
      ensures Valid()
      ensures toasts == WithoutId(old(toasts), id)
      ensures toastId == old(toastId) && issued == old(issued)
    {
      WithoutIdKeepsOrder(toasts, id);
      toasts := WithoutId(toasts, id);
    }
  }
}
