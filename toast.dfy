/**
 * The toast store of `frontend/src/ui/toast.ts`: a queue of at most five toasts, newest first,
 * and a set of listeners that are called with the queue after every change. A listener is
 * identified by a number; every call made to a listener is recorded, in order, in `notices`.
 * Toast ids (`Math.random`) are parameters; the auto-dismiss timer is returned as its delay.
 */
module Toasts {
  import opened Wrappers
  import Feed

  datatype ToastKind = Info | Success | Error

  datatype Toast = Toast(id: string, kind: ToastKind, title: Option<string>, msg: Option<string>, ms: Option<int>)

  /** One call of a listener, with the queue it was given. */
  datatype Notice = Notice(listener: nat, queue: seq<Toast>)

  const MaxToasts: nat := 5

  /** The calls `emit` makes: each listener, in insertion order, with the same queue. */
  function Notices(ls: seq<nat>, q: seq<Toast>): (r: seq<Notice>)
    ensures |r| == |ls| && forall i :: 0 <= i < |ls| ==> r[i] == Notice(ls[i], q)
  {
    seq(|ls|, i requires 0 <= i < |ls| => Notice(ls[i], q))
  }

  /** `t.ms ?? (t.kind === "error" ? 6000 : 3000)`: an explicit delay, even 0, wins. */
  function TimeToLive(t: Toast): (ms: int)
    ensures t.ms.Some? ==> ms == t.ms.value
    ensures t.ms.None? ==> ms == (if t.kind == Error then 6000 else 3000)
  {
    if t.ms.Some? then t.ms.value else if t.kind == Error then 6000 else 3000
  }

  /** `queue.filter(x => x.id !== tid)`. */
  function WithoutId(q: seq<Toast>, tid: string): (r: seq<Toast>)
    ensures forall t :: t in r <==> t in q && t.id != tid
    ensures |r| <= |q|
  {
    if q == [] then []
    else (if q[0].id == tid then [] else [q[0]]) + WithoutId(q[1..], tid)
  }

  /** Dismissing works piece by piece, so the toasts that stay keep their order. */
  lemma {:induction false} WithoutIdConcat(a: seq<Toast>, b: seq<Toast>, tid: string)
    ensures WithoutId(a + b, tid) == WithoutId(a, tid) + WithoutId(b, tid)
  {
    if a == [] {
      assert a + b == b;
    } else {
      assert (a + b)[1..] == a[1..] + b;
      WithoutIdConcat(a[1..], b, tid);
    }
  }

  /** Dismissing an id no toast has changes nothing. */
  lemma {:induction false} WithoutAbsentId(q: seq<Toast>, tid: string)
    requires forall i :: 0 <= i < |q| ==> q[i].id != tid
    ensures WithoutId(q, tid) == q
  {
    if q != [] {
      WithoutAbsentId(q[1..], tid);
    }
  }

  /** `listeners.delete(cb)`: the others stay, in their order. */
  function Without(ls: seq<nat>, cb: nat): (r: seq<nat>)
    ensures forall x :: x in r <==> x in ls && x != cb
  {
    if ls == [] then []
    else (if ls[0] == cb then [] else [ls[0]]) + Without(ls[1..], cb)
  }

  predicate Distinct(ls: seq<nat>) {
    forall i, j :: 0 <= i < j < |ls| ==> ls[i] != ls[j]
  }

  /** Removing a listener from a list without repeats leaves a list without repeats. */
  lemma {:induction false} WithoutDistinct(ls: seq<nat>, cb: nat)
    requires Distinct(ls)
    ensures Distinct(Without(ls, cb))
  {
    if ls != [] {
      var tail := ls[1..];
      assert Distinct(tail) by {
        forall i, j | 0 <= i < j < |tail| ensures tail[i] != tail[j] {
          assert tail[i] == ls[i + 1] && tail[j] == ls[j + 1];
        }
      }
      WithoutDistinct(tail, cb);
      var rest := Without(tail, cb);
      if ls[0] != cb {
        assert ls[0] !in tail;
        assert ls[0] !in rest;
        var r := [ls[0]] + rest;
        forall i, j | 0 <= i < j < |r| ensures r[i] != r[j] {
          if i == 0 {
            assert r[j] == rest[j - 1];
          } else {
            assert r[i] == rest[i - 1] && r[j] == rest[j - 1];
          }
        }
      }
    }
  }

  /** The module's queue and listeners. */
  class ToastCenter {
    var queue: seq<Toast>
    var listeners: seq<nat>
    var notices: seq<Notice>

    /** The queue is bounded and each listener is registered once. */
    ghost predicate Valid()
      reads this
    {
      |queue| <= MaxToasts && Distinct(listeners)
    }

    constructor()
      ensures Valid() && queue == [] && listeners == [] && notices == []
    {
      queue := [];
      listeners := [];
      notices := [];
    }

    /** `emit`: every listener is called with the current queue. */
    method Emit()
      modifies this
      ensures queue == old(queue) && listeners == old(listeners)
      ensures notices == old(notices) + Notices(listeners, queue)
    {
      for i := 0 to |listeners|
        invariant queue == old(queue) && listeners == old(listeners)
        invariant notices == old(notices) + Notices(listeners[..i], queue)
      {
        assert Notices(listeners[..i + 1], queue) == Notices(listeners[..i], queue) + [Notice(listeners[i], queue)];
        notices := notices + [Notice(listeners[i], queue)];
      }
      assert listeners[..|listeners|] == listeners;
    }

    /** `push`: the toast goes first, the queue keeps the five newest, the listeners hear of it; the result is the auto-dismiss delay. */
    method Push(t: Toast) returns (ttl: int)
      requires Valid()
      modifies this
      ensures Valid()
      ensures queue == Feed.Prepend(t, old(queue), MaxToasts) && listeners == old(listeners)
      ensures notices == old(notices) + Notices(listeners, queue)
      ensures ttl == TimeToLive(t)
    {
      queue := Feed.Prepend(t, queue, MaxToasts);
      Emit();
      ttl := if t.ms.Some? then t.ms.value else if t.kind == Error then 6000 else 3000;
    }

    /** `dismiss`: the toasts with that id go, the others stay in order, the listeners hear of it. */
    method Dismiss(tid: string)
      requires Valid()
      modifies this
      ensures Valid()
      ensures queue == WithoutId(old(queue), tid) && listeners == old(listeners)
      ensures notices == old(notices) + Notices(listeners, queue)
    {
      queue := WithoutId(queue, tid);
      Emit();
    }

    /** `onToast`: the listener is registered (once) and called straight away with the current queue. */
    method OnToast(cb: nat)
      requires Valid()
      modifies this
      ensures Valid()
      ensures listeners == (if cb in old(listeners) then old(listeners) else old(listeners) + [cb])
      ensures queue == old(queue) && notices == old(notices) + [Notice(cb, queue)]
    {
      if cb !in listeners {
        listeners := listeners + [cb];
      }
      notices := notices + [Notice(cb, queue)];
    }

    /** The function `onToast` returns: removes this listener only. */
    method Unsubscribe(cb: nat)
      requires Valid()
      modifies this
      ensures Valid()
      ensures listeners == Without(old(listeners), cb)
      ensures queue == old(queue) && notices == old(notices)
    {
      WithoutDistinct(listeners, cb);
      listeners := Without(listeners, cb);
    }

    /** `toast.info`, `toast.success` and `toast.error`: a toast of that kind under a fresh id. */
    method Show(kind: ToastKind, msg: string, title: Option<string>, ms: Option<int>, freshId: string) returns (ttl: int)
      requires Valid()
      modifies this
      ensures Valid()
      ensures queue == Feed.Prepend(Toast(freshId, kind, title, Some(msg), ms), old(queue), MaxToasts)
      ensures listeners == old(listeners) && notices == old(notices) + Notices(listeners, queue)
      ensures ttl == TimeToLive(Toast(freshId, kind, title, Some(msg), ms))
    {
      ttl := Push(Toast(freshId, kind, title, Some(msg), ms));
    }
  }

  /** A pushed toast is first in the queue until a newer one arrives, and the queue never exceeds five. */
  lemma PushedFirst(q: seq<Toast>, t: Toast)
    ensures Feed.Prepend(t, q, MaxToasts)[0] == t && |Feed.Prepend(t, q, MaxToasts)| <= MaxToasts
  {
    Feed.PrependShape(t, q, MaxToasts);
  }

  /** Dismissing a toast just pushed under a fresh id gives back the old queue, as far as it was kept. */
  lemma DismissUndoesPush(q: seq<Toast>, t: Toast)
    requires forall i :: 0 <= i < |q| ==> q[i].id != t.id
    ensures WithoutId(Feed.Prepend(t, q, MaxToasts), t.id) == q[..|Feed.Prepend(t, q, MaxToasts)| - 1]
  {
    var r := Feed.Prepend(t, q, MaxToasts);
    Feed.PrependShape(t, q, MaxToasts);
    assert r == [t] + r[1..];
    WithoutIdConcat([t], r[1..], t.id);
    assert WithoutId([t], t.id) == [];
    WithoutAbsentId(r[1..], t.id);
  }
}
