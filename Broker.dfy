// The transaction broker of the `native` object, stated on values: the
// `callbacks` table from transaction id to the settle function of one
// promise, and the outcome of every promise `sendMessage` has made.
// The class Polyfill.Native holds this state in fields and its methods
// are proved to perform exactly these steps.

module Broker {

  import opened Types

  /** The state of one promise returned by `sendMessage`. */
  datatype Outcome = Pending | Resolved(value: string) | Rejected(reason: string)

  /** The reason `cancelTransaction` rejects with. */
  const CancellationReason := "Premature cancellation."

  /**
   * `callbacks[id]` is the index in `promises` of the promise that the
   * settle function registered under `id` settles.
   */
  datatype Ledger = Ledger(callbacks: map<int, nat>, promises: seq<Outcome>)

  /**
   * Every registered callback belongs to a promise that is still pending,
   * and no two ids share a promise.
   */
  ghost predicate Valid(l: Ledger)
  {
    && (forall id :: id in l.callbacks ==> l.callbacks[id] < |l.promises| && l.promises[l.callbacks[id]] == Pending)
    && (forall id, id' :: id in l.callbacks && id' in l.callbacks && id != id' ==> l.callbacks[id] != l.callbacks[id'])
  }

  /** `l'` is a later state of `l`: no promise disappears and a settled promise keeps its outcome. */
  ghost predicate SettledStaySettled(l: Ledger, l': Ledger)
  {
    && |l.promises| <= |l'.promises|
    && forall p :: 0 <= p < |l.promises| && l.promises[p] != Pending ==> l'.promises[p] == l.promises[p]
  }

  /** `id` is what the upward scan of `getTransactionID` returns from counter `mc`. */
  ghost predicate FreshAbove(pending: set<int>, mc: int, id: int)
  {
    mc < id && id !in pending && forall k :: mc < k < id ==> k in pending
  }

  /** The scan result is unique: two ids that both qualify are equal. */
  lemma FreshAboveUnique(pending: set<int>, mc: int, id: int, id': int)
    requires FreshAbove(pending, mc, id) && FreshAbove(pending, mc, id')
    ensures id == id'
  {
  }

  /** What a settle function does to a promise: a settled promise stays as it is. */
  function SettleOutcome(o: Outcome, success: bool, result: string): (o': Outcome)
    ensures o.Pending? ==> o' == if success then Resolved(result) else Rejected(result)
    ensures !o.Pending? ==> o' == o
  {
    if !o.Pending? then o
    else if success then Resolved(result)
    else Rejected(result)
  }

  /**
   * Calling the settle function registered under `id`: it settles its
   * promise and deletes its own entry.
   */
  function Settle(l: Ledger, id: int, success: bool, result: string): (r: Ledger)
    requires Valid(l) && id in l.callbacks
    ensures Valid(r) && SettledStaySettled(l, r)
    ensures r.callbacks == l.callbacks - {id}
    ensures |r.promises| == |l.promises|
    ensures r.promises[l.callbacks[id]] == if success then Resolved(result) else Rejected(result)
    ensures forall p :: 0 <= p < |l.promises| && p != l.callbacks[id] ==> r.promises[p] == l.promises[p]
  {
    var p := l.callbacks[id];
    Ledger(l.callbacks - {id}, l.promises[p := SettleOutcome(l.promises[p], success, result)])
  }

  /**
   * `sendMessage` after posting: a new pending promise whose settle
   * function is stored under `id`, replacing any entry already there.
   */
  function Register(l: Ledger, id: int): (r: Ledger)
    ensures SettledStaySettled(l, r)
    ensures r.callbacks.Keys == l.callbacks.Keys + {id}
    ensures |r.promises| == |l.promises| + 1 && r.promises[..|l.promises|] == l.promises
    ensures r.callbacks[id] == |l.promises| && r.promises[|l.promises|] == Pending
    ensures forall id' :: id' in l.callbacks && id' != id ==> r.callbacks[id'] == l.callbacks[id']
  {
    Ledger(l.callbacks[id := |l.promises|], l.promises + [Pending])
  }

  lemma RegisterKeepsValid(l: Ledger, id: int)
    requires Valid(l)
    ensures Valid(Register(l, id))
  {
    var r := Register(l, id);
    forall i | i in r.callbacks
      ensures r.callbacks[i] < |r.promises| && r.promises[r.callbacks[i]] == Pending
    {
      if i != id {
        assert r.promises[l.callbacks[i]] == l.promises[l.callbacks[i]];
      }
    }
  }

  /** `receiveMessageResponse`: settle the pending entry for `callbackID`, if any. */
  function Respond(l: Ledger, callbackID: Option<int>, success: bool, result: string): (r: Ledger)
    requires Valid(l)
    ensures Valid(r) && SettledStaySettled(l, r)
  {
    if callbackID.Some? && callbackID.value in l.callbacks then
      Settle(l, callbackID.value, success, result)
    else
      l
  }

  /** `cancelTransaction`: remove the entry for `tid` and reject its promise. */
  function Cancel(l: Ledger, tid: int): (r: Ledger)
    requires Valid(l)
    ensures Valid(r) && SettledStaySettled(l, r)
  {
    if tid in l.callbacks then Settle(l, tid, false, CancellationReason) else l
  }

  /** A response for an id with a pending entry settles that promise and removes that entry. */
  lemma RespondKnown(l: Ledger, id: int, success: bool, result: string)
    requires Valid(l) && id in l.callbacks
    ensures var r := Respond(l, Some(id), success, result);
      && r.callbacks == l.callbacks - {id}
      && r.promises[l.callbacks[id]] == (if success then Resolved(result) else Rejected(result))
      && forall p :: 0 <= p < |l.promises| && p != l.callbacks[id] ==> r.promises[p] == l.promises[p]
  {
  }

  /** A response for no id or an id without a pending entry changes nothing. */
  lemma RespondUnknownIsNoOp(l: Ledger, callbackID: Option<int>, success: bool, result: string)
    requires Valid(l) && (callbackID.None? || callbackID.value !in l.callbacks)
    ensures Respond(l, callbackID, success, result) == l
  {
  }

  /** Settling one transaction leaves every other pending transaction pending, under the same id. */
  lemma {:induction false} RespondKeepsOthers(l: Ledger, id: int, other: int, success: bool, result: string)
    requires Valid(l) && other in l.callbacks && other != id
    ensures var r := Respond(l, Some(id), success, result);
      other in r.callbacks && r.callbacks[other] == l.callbacks[other] && r.promises[r.callbacks[other]] == Pending
  {
    var r := Respond(l, Some(id), success, result);
    if id in l.callbacks {
      assert l.callbacks[other] != l.callbacks[id];
      assert r.promises[l.callbacks[other]] == l.promises[l.callbacks[other]];
    }
  }

  /** A second response for the same id is a no-op: each transaction is settled at most once. */
  lemma RespondTwice(l: Ledger, id: int, s1: bool, x1: string, s2: bool, x2: string)
    requires Valid(l)
    ensures Respond(Respond(l, Some(id), s1, x1), Some(id), s2, x2) == Respond(l, Some(id), s1, x1)
  {
  }

  /** A cancelled transaction ignores a late response, and a second cancel. */
  lemma CancelThenRespond(l: Ledger, tid: int, success: bool, result: string)
    requires Valid(l)
    ensures Respond(Cancel(l, tid), Some(tid), success, result) == Cancel(l, tid)
    ensures Cancel(Cancel(l, tid), tid) == Cancel(l, tid)
  {
  }

  /** Cancelling a pending transaction rejects its promise with the cancellation reason. */
  lemma CancelRejects(l: Ledger, tid: int)
    requires Valid(l) && tid in l.callbacks
    ensures var r := Cancel(l, tid);
      tid !in r.callbacks && r.promises[l.callbacks[tid]] == Rejected(CancellationReason)
  {
  }

  /** The promises settled by cancelling every id of `tids`. */
  ghost function CancelledPromises(l: Ledger, tids: seq<int>): set<nat>
  {
    set t | t in tids && t in l.callbacks :: l.callbacks[t]
  }

  /** `ids.forEach(cancelTransaction)`, in order. */
  function CancelAll(l: Ledger, tids: seq<int>): (r: Ledger)
    requires Valid(l)
    ensures Valid(r) && |r.promises| == |l.promises|
  {
    if tids == [] then l
    else Cancel(CancelAll(l, tids[..|tids| - 1]), tids[|tids| - 1])
  }

  /** Cancelling a list of ids removes exactly those ids. */
  lemma {:induction false} CancelAllRemoves(l: Ledger, tids: seq<int>)
    requires Valid(l)
    ensures CancelAll(l, tids).callbacks == l.callbacks - set t | t in tids
  {
    if tids != [] {
      var front, last := tids[..|tids| - 1], tids[|tids| - 1];
      assert tids == front + [last];
      CancelAllRemoves(l, front);
      assert (set t | t in tids) == (set t | t in front) + {last};
    }
  }

  /** A promise settled before the cancellations keeps its outcome. */
  lemma {:induction false} CancelAllStaysSettled(l: Ledger, tids: seq<int>)
    requires Valid(l)
    ensures SettledStaySettled(l, CancelAll(l, tids))
  {
    if tids != [] {
      var front := tids[..|tids| - 1];
      CancelAllStaysSettled(l, front);
    }
  }

  /** Every listed id that was pending has its promise rejected with the cancellation reason. */
  lemma {:induction false} CancelAllRejects(l: Ledger, tids: seq<int>, t: int)
    requires Valid(l) && t in tids && t in l.callbacks
    ensures CancelAll(l, tids).promises[l.callbacks[t]] == Rejected(CancellationReason)
  {
    var front, last := tids[..|tids| - 1], tids[|tids| - 1];
    assert tids == front + [last];
    CancelAllRemoves(l, front);
    var m := CancelAll(l, front);
    if t in front {
      CancelAllRejects(l, front, t);
      assert SettledStaySettled(m, Cancel(m, last));
    } else {
      assert t == last && m.callbacks[t] == l.callbacks[t];
    }
  }

  /** A promise none of the listed ids was pending on is left as it was. */
  lemma {:induction false} CancelAllKeeps(l: Ledger, tids: seq<int>, p: nat)
    requires Valid(l) && p < |l.promises| && p !in CancelledPromises(l, tids)
    ensures CancelAll(l, tids).promises[p] == l.promises[p]
  {
    CancelAllRemoves(l, tids);
    if tids != [] {
      var front, last := tids[..|tids| - 1], tids[|tids| - 1];
      assert tids == front + [last];
      assert CancelledPromises(l, front) <= CancelledPromises(l, tids);
      CancelAllKeeps(l, front, p);
      CancelAllRemoves(l, front);
      var m := CancelAll(l, front);
      if last in m.callbacks {
        assert m.callbacks[last] == l.callbacks[last] && l.callbacks[last] in CancelledPromises(l, tids);
      }
    }
  }
}
