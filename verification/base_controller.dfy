/** The listener list every controller keeps: listeners are appended, never
    removed, and each notification calls every registered listener with the
    same state, in registration order. A listener is identified by a value
    of type `L`; the calls a notification makes are returned as a sequence. */
module BaseController {

  /** One invocation `listener(state)`. */
  datatype Call<L, S> = Call(listener: L, state: S)

  /** `addListener`: the new listener goes after every earlier one. */
  function AddListener<L>(listeners: seq<L>, l: L): (r: seq<L>)
    ensures |r| == |listeners| + 1
    ensures r[..|listeners|] == listeners && r[|listeners|] == l
  {
    listeners + [l]
  }

  /** A series of `addListener` calls, in order. */
  function AddAll<L>(listeners: seq<L>, added: seq<L>): seq<L>
    decreases |added|
  {
    if |added| == 0 then listeners
    else AddAll(AddListener(listeners, added[0]), added[1..])
  }

  /** Registration only ever appends: after any series of `addListener`
      calls the earlier listeners are still there, in place, followed by the
      new ones in the order they were added. */
  lemma {:induction false} AddAllAppends<L>(listeners: seq<L>, added: seq<L>)
    ensures AddAll(listeners, added) == listeners + added
    decreases |added|
  {
    if |added| > 0 {
      AddAllAppends(AddListener(listeners, added[0]), added[1..]);
      assert (listeners + [added[0]]) + added[1..] == listeners + added;
    }
  }

  /** `notify(state)`: `listeners.forEach(l => l(state))`. */
  function Notify<L, S>(listeners: seq<L>, state: S): (calls: seq<Call<L, S>>)
    ensures |calls| == |listeners|
    ensures forall i :: 0 <= i < |calls| ==> calls[i] == Call(listeners[i], state)
    decreases |listeners|
  {
    if |listeners| == 0 then []
    else
      var rest := Notify(listeners[1..], state);
      assert forall i :: 1 <= i < |listeners| ==> listeners[i] == listeners[1..][i - 1];
      [Call(listeners[0], state)] + rest
  }

  /** With no listener registered a notification calls nothing. */
  lemma NotifyNobody<L, S>(state: S)
    ensures Notify<L, S>([], state) == []
  {
  }

  /** A listener registered twice is called twice by one notification, at
      the two positions it was registered in. */
  lemma AddedTwiceCalledTwice<L, S>(listeners: seq<L>, l: L, state: S)
    ensures var calls := Notify(AddListener(AddListener(listeners, l), l), state);
      && |calls| == |listeners| + 2
      && calls[|listeners|] == Call(l, state)
      && calls[|listeners| + 1] == Call(l, state)
  {
  }

  /** The calls of several notifications in a row. */
  function Broadcast<L, S>(listeners: seq<L>, states: seq<S>): seq<Call<L, S>>
    decreases |states|
  {
    if |states| == 0 then []
    else Notify(listeners, states[0]) + Broadcast(listeners, states[1..])
  }

  /** Notification `k` reaches listener `i` at position `k * n + i`, with
      `n` listeners: every notification completes before the next begins,
      and no listener is skipped or called out of order. */
  lemma BroadcastOrder<L, S>(listeners: seq<L>, states: seq<S>, k: nat, i: nat)
    requires k < |states| && i < |listeners|
    ensures k * |listeners| + i < |Broadcast(listeners, states)|
    ensures Broadcast(listeners, states)[k * |listeners| + i] == Call(listeners[i], states[k])
  {
    BroadcastSplit(listeners, states, k);
    BroadcastLength(listeners, states[..k]);
    BroadcastLength(listeners, states);
    RowBound(k, |states|, |listeners|, i);
    assert |states[..k]| == k;
    IndexInMiddle(Broadcast(listeners, states[..k]), Notify(listeners, states[k]),
                  Broadcast(listeners, states[k + 1..]), i);
  }

  lemma IndexInMiddle<T>(a: seq<T>, b: seq<T>, c: seq<T>, i: nat)
    requires i < |b|
    ensures |a| + i < |a + b + c| && (a + b + c)[|a| + i] == b[i]
  {
  }

  /** The calls of notification `k` sit between those of the earlier and
      those of the later notifications. */
  lemma BroadcastSplit<L, S>(listeners: seq<L>, states: seq<S>, k: nat)
    requires k < |states|
    ensures Broadcast(listeners, states)
         == Broadcast(listeners, states[..k]) + Notify(listeners, states[k]) + Broadcast(listeners, states[k + 1..])
  {
    var before := states[..k];
    var after := states[k + 1..];
    assert states == before + [states[k]] + after;
    BroadcastAppend(listeners, before + [states[k]], after);
    BroadcastAppend(listeners, before, [states[k]]);
    assert [states[k]][1..] == [];
    assert Broadcast(listeners, [states[k]]) == Notify(listeners, states[k]) + [];
  }

  /** Notifying `xs` then `ys` is notifying `xs + ys`. */
  lemma {:induction false} BroadcastAppend<L, S>(listeners: seq<L>, xs: seq<S>, ys: seq<S>)
    ensures Broadcast(listeners, xs + ys) == Broadcast(listeners, xs) + Broadcast(listeners, ys)
    decreases |xs|
  {
    if |xs| == 0 {
      assert xs + ys == ys;
    } else {
      var row := Notify(listeners, xs[0]);
      assert (xs + ys)[0] == xs[0] && (xs + ys)[1..] == xs[1..] + ys;
      calc {
        Broadcast(listeners, xs + ys);
        row + Broadcast(listeners, xs[1..] + ys);
        { BroadcastAppend(listeners, xs[1..], ys); }
        row + (Broadcast(listeners, xs[1..]) + Broadcast(listeners, ys));
        (row + Broadcast(listeners, xs[1..])) + Broadcast(listeners, ys);
      }
    }
  }

  /** Position `k * n + i` lies inside `m` rows of `n` when `k < m` and `i < n`. */
  lemma {:induction false} RowBound(k: nat, m: nat, n: nat, i: nat)
    requires k < m && i < n
    ensures k * n + i < m * n
    decreases m
  {
    assert m * n == (m - 1) * n + n;
    if k + 1 < m {
      RowBound(k, m - 1, n, i);
    }
  }

  lemma {:induction false} BroadcastLength<L, S>(listeners: seq<L>, states: seq<S>)
    ensures |Broadcast(listeners, states)| == |states| * |listeners|
    decreases |states|
  {
    if |states| > 0 {
      BroadcastLength(listeners, states[1..]);
      assert |states| * |listeners| == |listeners| + (|states| - 1) * |listeners|;
    }
  }
}
