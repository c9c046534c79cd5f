/**
 * The toast notification queue: a shared list of toasts and a counter that
 * numbers them. `Add` appends, `Remove` splices out the first toast with a
 * given id.
 */
module Toastify {

  /** One toast; `kind` is the JavaScript object's `type` field. */
  datatype Toast = Toast(id: nat, kind: string, message: string)

  /** Ids strictly increase along the list, so no two toasts share one. */
  predicate IdsIncreasing(ts: seq<Toast>)
  {
    forall i, j :: 0 <= i < j < |ts| ==> ts[i].id < ts[j].id
  }

  /** `findIndex(t => t.id === id)`: the first position holding `id`, or -1. */
  function FirstIndex(ts: seq<Toast>, id: nat): (r: int)
    ensures -1 <= r < |ts|
    ensures r == -1 <==> forall t :: t in ts ==> t.id != id
    ensures 0 <= r ==> ts[r].id == id && forall k :: 0 <= k < r ==> ts[k].id != id
  {
    if ts == [] then -1
    else if ts[0].id == id then 0
    else
      var r := FirstIndex(ts[1..], id);
      if r == -1 then -1 else r + 1
  }

  /** The list after `splice(index, 1)` at the first toast with `id`, if there is one. */
  function Spliced(ts: seq<Toast>, id: nat): seq<Toast>
  {
    var i := FirstIndex(ts, id);
    if i == -1 then ts else ts[..i] + ts[i + 1..]
  }

  /** The first position holding `id` is determined by the two facts that define it. */
  lemma {:induction false} FirstIndexIs(ts: seq<Toast>, id: nat, k: int)
    requires -1 <= k < |ts|
    requires k == -1 ==> forall t :: t in ts ==> t.id != id
    requires 0 <= k ==> ts[k].id == id && forall j :: 0 <= j < k ==> ts[j].id != id
    ensures FirstIndex(ts, id) == k
  {
    if ts != [] && ts[0].id != id {
      assert forall t :: t in ts[1..] ==> t in ts;
      if k == -1 {
        FirstIndexIs(ts[1..], id, -1);
      } else {
        forall j | 0 <= j < k - 1 ensures ts[1..][j].id != id {
          assert ts[1..][j] == ts[j + 1];
        }
        FirstIndexIs(ts[1..], id, k - 1);
      }
    }
  }

  /** Splicing out position `i` keeps exactly the toasts at the other positions. */
  lemma SpliceMembers(ts: seq<Toast>, i: nat, t: Toast)
    requires IdsIncreasing(ts) && i < |ts|
    ensures t in ts[..i] + ts[i + 1..] <==> t in ts && t.id != ts[i].id
  {
    var r := ts[..i] + ts[i + 1..];
    if t in ts && t.id != ts[i].id {
      var k :| 0 <= k < |ts| && ts[k] == t;
      if k < i {
        assert r[k] == t;
      } else {
        assert k > i && r[k - 1] == t;
      }
    }
    if t in r {
      var k :| 0 <= k < |r| && r[k] == t;
      if k < i {
        assert ts[k] == t;
      } else {
        assert ts[k + 1] == t;
      }
    }
  }

  /** Splicing out one position keeps the ids increasing. */
  lemma SpliceIncreasing(ts: seq<Toast>, i: nat)
    requires IdsIncreasing(ts) && i < |ts|
    ensures IdsIncreasing(ts[..i] + ts[i + 1..])
  {
    var r := ts[..i] + ts[i + 1..];
    forall p, q | 0 <= p < q < |r| ensures r[p].id < r[q].id {
      var p' := if p < i then p else p + 1;
      var q' := if q < i then q else q + 1;
      assert r[p] == ts[p'] && r[q] == ts[q'];
    }
  }

  /**
   * On a list with unique ids, removing `id` keeps exactly the other toasts,
   * in their order; when no toast has that id nothing changes.
   */
  lemma SplicedRemovesOnly(ts: seq<Toast>, id: nat)
    requires IdsIncreasing(ts)
    ensures forall t :: t in Spliced(ts, id) <==> t in ts && t.id != id
    ensures IdsIncreasing(Spliced(ts, id))
    ensures (forall t :: t in ts ==> t.id != id) ==> Spliced(ts, id) == ts
    ensures (exists t :: t in ts && t.id == id) ==> |Spliced(ts, id)| == |ts| - 1
  {
    var i := FirstIndex(ts, id);
    if i != -1 {
      forall t ensures t in Spliced(ts, id) <==> t in ts && t.id != id {
        SpliceMembers(ts, i, t);
      }
      SpliceIncreasing(ts, i);
    }
  }

  /** The module-level queue and id counter. */
  class ToastQueue {
    var toasts: seq<Toast>
    var nextId: nat

    ghost predicate Valid()
      reads this
    {
      IdsIncreasing(toasts) && forall t | t in toasts :: t.id < nextId
    }

    constructor ()
      ensures Valid() && toasts == [] && nextId == 0
    {
      toasts, nextId := [], 0;
    }

    /** `add`: takes the next id, appends the toast, returns the id. The auto-removal timer is not modelled. */
    method Add(kind: string, message: string) returns (id: nat)
      requires Valid()
      modifies this
      ensures Valid()
      ensures id == old(nextId) && nextId == old(nextId) + 1
      ensures toasts == old(toasts) + [Toast(id, kind, message)]
      ensures forall t | t in old(toasts) :: t.id < id
    {
      id := nextId;
      nextId := nextId + 1;
      toasts := toasts + [Toast(id, kind, message)];
    }

    /** `findIndex` over the list. */
    method FindIndex(id: nat) returns (index: int)
      ensures -1 <= index < |toasts|
      ensures index == -1 <==> forall t :: t in toasts ==> t.id != id
      ensures 0 <= index ==> toasts[index].id == id && forall k :: 0 <= k < index ==> toasts[k].id != id
      ensures index == FirstIndex(toasts, id)
    {
      var k := 0;
      while k < |toasts|
        invariant 0 <= k <= |toasts|
        invariant forall j :: 0 <= j < k ==> toasts[j].id != id
      {
        if toasts[k].id == id {
          FirstIndexIs(toasts, id, k);
          return k;
        }
        k := k + 1;
      }
      FirstIndexIs(toasts, id, -1);
      return -1;
    }

    /** `remove`: splices out the first toast with `id`; a missing id is ignored. */
    method Remove(id: nat)
      requires Valid()
      modifies this
      ensures Valid() && nextId == old(nextId)
      ensures toasts == Spliced(old(toasts), id)
    {
      var index := FindIndex(id);
      if index != -1 {
        SpliceIncreasing(toasts, index);
        ghost var before := toasts;
        toasts := toasts[..index] + toasts[index + 1..];
        forall t | t in toasts ensures t.id < nextId {
          SpliceMembers(before, index, t);
        }
      }
    }

    method Success(message: string) returns (id: nat)
      requires Valid()
      modifies this
      ensures Valid() && id == old(nextId) && nextId == old(nextId) + 1
      ensures toasts == old(toasts) + [Toast(id, "success", message)]
    {
      id := Add("success", message);
    }

    method Error(message: string) returns (id: nat)
      requires Valid()
      modifies this
      ensures Valid() && id == old(nextId) && nextId == old(nextId) + 1
      ensures toasts == old(toasts) + [Toast(id, "danger", message)]
    {
      id := Add("danger", message);
    }

    method Warning(message: string) returns (id: nat)
      requires Valid()
      modifies this
      ensures Valid() && id == old(nextId) && nextId == old(nextId) + 1
      ensures toasts == old(toasts) + [Toast(id, "warning", message)]
    {
      id := Add("warning", message);
    }

    method Info(message: string) returns (id: nat)
      requires Valid()
      modifies this
      ensures Valid() && id == old(nextId) && nextId == old(nextId) + 1
      ensures toasts == old(toasts) + [Toast(id, "info", message)]
    {
      id := Add("info", message);
    }
  }

  /** A fresh queue numbers its toasts 0, 1, 2 in the order they are added. */
  method FirstIdsCount() returns (a: nat, b: nat, c: nat)
    ensures a == 0 && b == 1 && c == 2
  {
    var q := new ToastQueue();
    a := q.Info("first");
    b := q.Warning("second");
    c := q.Error("third");
  }

  /** One success toast on an empty queue: the queue then holds exactly that toast. */
  method SuccessOnEmpty(message: string) returns (shown: seq<Toast>)
    ensures |shown| == 1 && shown[0].message == message && shown[0].kind == "success"
  {
    var q := new ToastQueue();
    var _ := q.Success(message);
    shown := q.toasts;
  }

  /** Adding then removing a toast gives back the list as it was. */
  method AddThenRemove(q: ToastQueue, kind: string, message: string)
    requires q.Valid()
    modifies q
    ensures q.Valid() && q.toasts == old(q.toasts) && q.nextId == old(q.nextId) + 1
  {
    var before := q.toasts;
    var id := q.Add(kind, message);
    assert forall t :: t in before ==> t.id != id;
    assert FirstIndex(q.toasts, id) == |before|;
    q.Remove(id);
    assert q.toasts == before;
  }
}
