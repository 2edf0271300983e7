/**
 The driver's offline action queue (driverActionQueue.ts): a list in local storage that is
 cut to its newest 50 entries on every write, and a flush that sends entries in order.
 Local storage writes may fail silently.
 */
module DriverQueue {
  import opened Prelude

  const MAX_QUEUE := 50

  /** The stored action; its id is also the idempotency key it is sent with. */
  datatype Action = Action(id: string, attempts: nat)

  function Newest(actions: seq<Action>): seq<Action> {
    if |actions| <= MAX_QUEUE then actions else actions[|actions| - MAX_QUEUE..]
  }

  predicate HasId(actions: seq<Action>, id: string) {
    exists i :: 0 <= i < |actions| && actions[i].id == id
  }

  /** The entries of `actions` whose id is not among `sent`. */
  function Without(actions: seq<Action>, sent: seq<Action>): seq<Action> {
    if actions == [] then []
    else (if HasId(sent, actions[0].id) then [] else [actions[0]]) + Without(actions[1..], sent)
  }

  /** Count a failed attempt on the first entry with this id. */
  function Failed(actions: seq<Action>, id: string): seq<Action> {
    if actions == [] then []
    else if actions[0].id == id then [actions[0].(attempts := actions[0].attempts + 1)] + actions[1..]
    else [actions[0]] + Failed(actions[1..], id)
  }

  lemma {:induction false} WithoutKeepsOthers(actions: seq<Action>, sent: seq<Action>, id: string)
    ensures HasId(Without(actions, sent), id) <==> HasId(actions, id) && !HasId(sent, id)
    ensures |Without(actions, sent)| <= |actions|
  {
    if actions != [] {
      WithoutKeepsOthers(actions[1..], sent, id);
      assert HasId(actions, id) <==> actions[0].id == id || HasId(actions[1..], id) by {
        assert forall i :: 0 <= i < |actions| ==> actions[i] == if i == 0 then actions[0] else actions[1..][i - 1];
      }
      var head := if HasId(sent, actions[0].id) then [] else [actions[0]];
      HasIdConcat(head, Without(actions[1..], sent), id);
    }
  }

  lemma HasIdConcat(a: seq<Action>, b: seq<Action>, id: string)
    ensures HasId(a + b, id) <==> HasId(a, id) || HasId(b, id)
  {
    if HasId(a, id) {
      var i :| 0 <= i < |a| && a[i].id == id;
      assert (a + b)[i].id == id;
    }
    if HasId(b, id) {
      var i :| 0 <= i < |b| && b[i].id == id;
      assert (a + b)[|a| + i].id == id;
    }
  }

  predicate SameIds(a: seq<Action>, b: seq<Action>) {
    |a| == |b| && forall i :: 0 <= i < |a| ==> a[i].id == b[i].id
  }

  lemma {:induction false} FailedKeepsIds(actions: seq<Action>, id: string)
    ensures SameIds(Failed(actions, id), actions)
  {
    if actions != [] && actions[0].id != id {
      FailedKeepsIds(actions[1..], id);
    }
  }

  predicate DistinctIds(actions: seq<Action>) {
    forall i, j :: 0 <= i < j < |actions| ==> actions[i].id != actions[j].id
  }

  predicate NoneIn(actions: seq<Action>, sent: seq<Action>) {
    forall i :: 0 <= i < |actions| ==> !HasId(sent, actions[i].id)
  }

  /** Taking the entries of a front part out by their ids leaves the rest, as it was. */
  lemma {:induction false} WithoutFront(front: seq<Action>, rest: seq<Action>, sent: seq<Action>)
    requires (forall i :: 0 <= i < |front| ==> HasId(sent, front[i].id)) && NoneIn(rest, sent)
    ensures Without(front + rest, sent) == rest
    decreases |front|, |rest|
  {
    if front != [] {
      assert (front + rest)[1..] == front[1..] + rest;
      WithoutFront(front[1..], rest, sent);
    } else if rest != [] {
      assert front + rest == rest && [] + rest[1..] == rest[1..];
      assert !HasId(sent, rest[0].id);
      WithoutFront([], rest[1..], sent);
    }
  }

  function Bumped(action: Action): Action { action.(attempts := action.attempts + 1) }

  /** A failure is counted on entry `n`, the first with the id, and nowhere else. */
  lemma {:induction false} FailedAt(actions: seq<Action>, id: string, n: nat)
    requires n < |actions| && actions[n].id == id && forall i :: 0 <= i < n ==> actions[i].id != id
    ensures |Failed(actions, id)| == |actions|
    ensures forall i :: 0 <= i < |actions| ==>
              Failed(actions, id)[i] == if i == n then Bumped(actions[i]) else actions[i]
  {
    if n > 0 {
      FailedAt(actions[1..], id, n - 1);
    }
  }

  /** The entry the flush stopped at and those after it. */
  function Rest(actions: seq<Action>, sent: nat, counted: bool): seq<Action> {
    if sent >= |actions| then []
    else [if counted then Bumped(actions[sent]) else actions[sent]] + actions[sent + 1..]
  }

  /** What a flush leaves of a queue whose first `sent` entries were accepted: the others in
      order, with one more attempt on the one that was refused, if any. `counted` and `removed`
      say which of the two writes reached the storage. */
  function AfterFlush(actions: seq<Action>, sent: nat, counted: bool, removed: bool): seq<Action>
    requires sent <= |actions|
  {
    (if removed then [] else actions[..sent]) + Rest(actions, sent, counted)
  }

  /** The queue once entry `sent`, if there is one, was refused. */
  function Counted(actions: seq<Action>, sent: nat, counted: bool): seq<Action> {
    if sent < |actions| && counted then Failed(actions, actions[sent].id) else actions
  }

  lemma CountedIs(actions: seq<Action>, sent: nat, counted: bool)
    requires DistinctIds(actions) && sent <= |actions|
    ensures Counted(actions, sent, counted) == actions[..sent] + Rest(actions, sent, counted)
  {
    var whole := actions[..sent] + Rest(actions, sent, counted);
    assert |whole| == |actions|;
    forall i | 0 <= i < |actions| ensures whole[i] == if i == sent && counted then Bumped(actions[i]) else actions[i] {
      assert i > sent ==> whole[i] == actions[sent + 1..][i - sent - 1];
    }
    if sent < |actions| && counted {
      FailedAt(actions, actions[sent].id, sent);
    }
  }

  lemma RestIsOther(actions: seq<Action>, sent: nat, counted: bool)
    requires DistinctIds(actions) && sent <= |actions|
    ensures NoneIn(Rest(actions, sent, counted), actions[..sent])
  {
    var rest := Rest(actions, sent, counted);
    forall i | 0 <= i < |rest| ensures !HasId(actions[..sent], rest[i].id) {
      assert rest[i].id == actions[sent + i].id;
    }
  }

  /** Counting by id and removing by id come to cutting the accepted prefix and counting one
      attempt on the entry after it. */
  lemma WithoutIsAfterFlush(actions: seq<Action>, sent: nat, counted: bool)
    requires DistinctIds(actions) && sent <= |actions|
    ensures Counted(actions, sent, counted) == AfterFlush(actions, sent, counted, false)
    ensures Without(Counted(actions, sent, counted), actions[..sent]) == AfterFlush(actions, sent, counted, true)
    ensures |Counted(actions, sent, counted)| == |actions|
  {
    var front, rest := actions[..sent], Rest(actions, sent, counted);
    CountedIs(actions, sent, counted);
    RestIsOther(actions, sent, counted);
    WithoutFront(front, rest, front);
    assert [] + rest == rest;
  }

  /** In plain terms, when both writes arrive: the accepted entries are gone, the refused one is at
      the head with one attempt more, and the others are as they were. */
  lemma AfterFlushIs(actions: seq<Action>, sent: nat)
    requires sent <= |actions|
    ensures |AfterFlush(actions, sent, true, true)| == |actions| - sent
    ensures forall i :: 0 <= i < |actions| - sent ==>
              && AfterFlush(actions, sent, true, true)[i].id == actions[sent + i].id
              && AfterFlush(actions, sent, true, true)[i].attempts
                 == actions[sent + i].attempts + if i == 0 then 1 else 0
  {
  }

  class DriverActionQueue {
    var stored: seq<Action>

    constructor ()
      ensures stored == []
    {
      stored := [];
    }

    method Write(actions: seq<Action>, writable: bool)
      modifies this
      ensures stored == if writable then Newest(actions) else old(stored)
    {
      if writable {
        stored := if |actions| <= MAX_QUEUE then actions else actions[|actions| - MAX_QUEUE..];
      }
    }

    method Enqueue(id: string, writable: bool) returns (count: nat)
      modifies this
      ensures count == |old(stored)| + 1
      ensures stored == if writable then Newest(old(stored) + [Action(id, 0)]) else old(stored)
    {
      var actions := stored + [Action(id, 0)];
      Write(actions, writable);
      count := |actions|;
    }

    /** The catch branch of a flush whose `send` of `id` failed. */
    method RecordFailure(id: string, writable: bool)
      modifies this
      ensures stored == if writable && HasId(old(stored), id) then Newest(Failed(old(stored), id)) else old(stored)
      ensures |old(stored)| <= MAX_QUEUE ==> SameIds(stored, old(stored))
    {
      var current := stored;
      FailedKeepsIds(current, id);
      if HasId(current, id) {
        Write(Failed(current, id), writable);
      }
    }

    /** The end of a flush that got `sent` entries of its snapshot answered. */
    method RemoveSent(pending: seq<Action>, sent: nat, writable: bool) returns (remaining: nat)
      requires sent <= |pending|
      modifies this
      ensures stored == if sent > 0 && writable then Newest(Without(old(stored), pending[..sent])) else old(stored)
      ensures |old(stored)| <= MAX_QUEUE ==>
                forall id :: HasId(old(stored), id) && !HasId(pending[..sent], id) ==> HasId(stored, id)
      ensures remaining == |stored|
    {
      if sent > 0 {
        forall id ensures |Without(stored, pending[..sent])| <= |stored|
                  && (HasId(Without(stored, pending[..sent]), id)
                      <==> HasId(stored, id) && !HasId(pending[..sent], id)) {
          WithoutKeepsOthers(stored, pending[..sent], id);
        }
        Write(Without(stored, pending[..sent]), writable);
      }
      remaining := |stored|;
    }

    /** The end of a flush that met nobody else's writes. */
    method FinishFlush(pending: seq<Action>, sent: nat, ghost counted: bool, writable: bool) returns (remaining: nat)
      requires DistinctIds(pending) && |pending| <= MAX_QUEUE && sent <= |pending|
      requires stored == Counted(pending, sent, counted)
      modifies this
      ensures stored == AfterFlush(pending, sent, counted, writable) && remaining == |stored|
    {
      WithoutIsAfterFlush(pending, sent, counted);
      remaining := RemoveSent(pending, sent, writable);
    }

    /** One flush from start to end with nothing else touching the queue meanwhile; `accepted`
        is the answer of the server to each action, and the two flags say whether the write of the
        attempt count and the final write reach the storage. */
    method Flush(accepted: Action -> bool, countWritable: bool, writable: bool) returns (sent: nat, remaining: nat)
      requires DistinctIds(stored) && |stored| <= MAX_QUEUE
      modifies this
      ensures sent <= |old(stored)| && (forall i :: 0 <= i < sent ==> accepted(old(stored)[i]))
      ensures sent < |old(stored)| ==> !accepted(old(stored)[sent])
      ensures stored == AfterFlush(old(stored), sent, countWritable, writable) && remaining == |stored|
    {
      var pending := stored;
      sent := 0;
      while sent < |pending|
        invariant sent <= |pending| && forall i :: 0 <= i < sent ==> accepted(pending[i])
        invariant stored == pending
      {
        if !accepted(pending[sent]) {
          FailedKeepsIds(pending, pending[sent].id);
          assert HasId(pending, pending[sent].id);
          RecordFailure(pending[sent].id, countWritable);
          break;
        }
        sent := sent + 1;
      }
      remaining := FinishFlush(pending, sent, countWritable, writable);
    }
  }
}
