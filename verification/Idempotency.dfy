/**
 The request-replay protection of the API: the table of remembered answers, the
 promise-chain lock (services/idempotency.ts, memory mode), and the middleware
 that puts both in front of every mutating handler (app.ts).

 The JavaScript runtime interleaves requests only where the code awaits, so the
 protocol is a state machine whose events are the stretches between two awaits.
 An event that cannot happen in a state leaves the state alone.
 */
module Idempotency {
  import opened Prelude

  type Key = string
  datatype Reply = Reply(status: int, body: string)
  datatype Entry = Entry(result: Reply, expiresAt: int)

  const TTL_MS := 24 * 60 * 60 * 1000

  // ---------------------------------------------------------------------------
  // Remembered answers
  // ---------------------------------------------------------------------------

  type Memory = map<Key, Entry>

  function Lookup(memory: Memory, key: Key, now: int): Option<Reply> {
    if key in memory && memory[key].expiresAt > now then Some(memory[key].result) else None
  }

  /** A lookup that meets an expired entry deletes it. */
  function Purge(memory: Memory, key: Key, now: int): Memory {
    if key in memory && memory[key].expiresAt <= now then memory - {key} else memory
  }

  // ---------------------------------------------------------------------------
  // The lock chain. A ticket is one call of the acquiring function: `previous` is
  // the chain promise it awaits (absent when it awaited a resolved promise), and
  // `released` says whether its own promise was resolved. `locks` maps a key to
  // the ticket whose chain promise is stored there.
  // ---------------------------------------------------------------------------

  datatype Ticket = Ticket(key: Key, previous: Option<nat>, released: bool)
  datatype Locks = Locks(locks: map<Key, nat>, tickets: seq<Ticket>)

  function Join(l: Locks, key: Key): Locks {
    var previous := if key in l.locks then Some(l.locks[key]) else None;
    Locks(l.locks[key := |l.tickets|], l.tickets + [Ticket(key, previous, false)])
  }

  function Release(l: Locks, t: nat): Locks
    requires t < |l.tickets|
  {
    if l.tickets[t].released then l
    else
      var key := l.tickets[t].key;
      Locks(if key in l.locks && l.locks[key] == t then l.locks - {key} else l.locks,
            l.tickets[t := l.tickets[t].(released := true)])
  }

  /** A chain promise resolves once its own promise and everything before it has. */
  predicate ChainResolved(tickets: seq<Ticket>, t: nat)
    requires t < |tickets|
    decreases t
  {
    && tickets[t].released
    && match tickets[t].previous
       case None => true
       case Some(p) => p < t && ChainResolved(tickets, p)
  }

  /** The await on the previous chain promise can resume. */
  predicate MayProceed(tickets: seq<Ticket>, t: nat)
    requires t < |tickets|
  {
    match tickets[t].previous
    case None => true
    case Some(p) => p < t && ChainResolved(tickets, p)
  }

  /** Every ticket of the same key taken before `t` was released. */
  ghost predicate Turn(tickets: seq<Ticket>, t: nat)
    requires t < |tickets|
  {
    forall u :: 0 <= u < t && tickets[u].key == tickets[t].key ==> tickets[u].released
  }

  ghost predicate PreviousIsNearest(tickets: seq<Ticket>, t: nat)
    requires t < |tickets|
  {
    match tickets[t].previous
    case None => Turn(tickets, t)
    case Some(p) =>
      && p < t && tickets[p].key == tickets[t].key
      && forall u :: p < u < t ==> tickets[u].key != tickets[t].key
  }

  ghost predicate LockInv(l: Locks) {
    && (forall t :: 0 <= t < |l.tickets| ==> PreviousIsNearest(l.tickets, t))
    && (forall t :: 0 <= t < |l.tickets| && l.tickets[t].released ==> Turn(l.tickets, t))
    && (forall k :: k in l.locks ==>
          && l.locks[k] < |l.tickets| && l.tickets[l.locks[k]].key == k
          && !l.tickets[l.locks[k]].released
          && forall u :: l.locks[k] < u < |l.tickets| ==> l.tickets[u].key != k)
    && (forall t :: 0 <= t < |l.tickets| && !l.tickets[t].released ==> l.tickets[t].key in l.locks)
  }

  /** The promise chain is a first-come-first-served queue: the await resumes exactly when
      every earlier ticket of the key was released. */
  lemma {:induction false} ChainIsQueue(l: Locks, t: nat)
    requires LockInv(l) && t < |l.tickets|
    ensures MayProceed(l.tickets, t) <==> Turn(l.tickets, t)
    ensures ChainResolved(l.tickets, t) <==> l.tickets[t].released
    decreases t
  {
    assert PreviousIsNearest(l.tickets, t);
    match l.tickets[t].previous
    case None =>
    case Some(p) =>
      ChainIsQueue(l, p);
      if l.tickets[p].released {
        assert Turn(l.tickets, p);
      }
  }

  lemma JoinKeepsLockInv(l: Locks, key: Key)
    requires LockInv(l)
    ensures LockInv(Join(l, key))
  {
    var l' := Join(l, key);
    forall t | 0 <= t < |l'.tickets| ensures PreviousIsNearest(l'.tickets, t) {
      if t < |l.tickets| {
        assert PreviousIsNearest(l.tickets, t);
      } else if key !in l.locks {
        assert Turn(l'.tickets, t);
      }
    }
    forall t | 0 <= t < |l'.tickets| && l'.tickets[t].released ensures Turn(l'.tickets, t) {
      assert Turn(l.tickets, t);
    }
  }

  /** Releasing in turn keeps the chain sound, and the map forgets a key only when nobody
      holds it or waits for it. */
  lemma ReleaseKeepsLockInv(l: Locks, t: nat)
    requires LockInv(l) && t < |l.tickets| && Turn(l.tickets, t)
    ensures LockInv(Release(l, t))
    ensures forall k :: k in l.locks && k !in Release(l, t).locks ==>
              forall u :: 0 <= u < |l.tickets| && l.tickets[u].key == k ==> Release(l, t).tickets[u].released
    ensures Release(Release(l, t), t) == Release(l, t)
  {
    ReleaseKeepsChain(l, t);
    ReleaseKeepsMap(l, t);
  }

  lemma ReleaseKeepsChain(l: Locks, t: nat)
    requires LockInv(l) && t < |l.tickets| && Turn(l.tickets, t)
    ensures forall u :: 0 <= u < |l.tickets| ==> PreviousIsNearest(Release(l, t).tickets, u)
    ensures forall u :: 0 <= u < |l.tickets| && Release(l, t).tickets[u].released ==> Turn(Release(l, t).tickets, u)
  {
    var l' := Release(l, t);
    forall u | 0 <= u < |l'.tickets| ensures PreviousIsNearest(l'.tickets, u) {
      assert PreviousIsNearest(l.tickets, u);
      if l.tickets[u].previous.None? {
        assert Turn(l.tickets, u);
      }
    }
    forall u | 0 <= u < |l'.tickets| && l'.tickets[u].released ensures Turn(l'.tickets, u) {
      assert Turn(l.tickets, u);
    }
  }

  /** A ticket that is the last of its key and in turn is the only one left. */
  lemma ReleaseKeepsMap(l: Locks, t: nat)
    requires LockInv(l) && t < |l.tickets| && Turn(l.tickets, t)
    ensures var l' := Release(l, t);
            && |l'.tickets| == |l.tickets|
            && (forall u :: 0 <= u < |l.tickets| && !l'.tickets[u].released ==> l'.tickets[u].key in l'.locks)
            && (forall k :: k in l.locks && k !in l'.locks ==>
                  forall u :: 0 <= u < |l.tickets| && l.tickets[u].key == k ==> l'.tickets[u].released)
  {
    var key := l.tickets[t].key;
    if !l.tickets[t].released && l.locks[key] == t {
      assert forall u :: 0 <= u < |l.tickets| && u != t && l.tickets[u].key == key ==> u < t;
    }
  }

  // ---------------------------------------------------------------------------
  // The module state of services/idempotency.ts and the functions that update it
  // ---------------------------------------------------------------------------

  class IdempotencyTable {
    var memory: Memory
    var locks: map<Key, nat>
    var tickets: seq<Ticket>

    constructor ()
      ensures memory == map[] && Chain() == Locks(map[], [])
    {
      memory := map[];
      locks := map[];
      tickets := [];
    }

    ghost function Chain(): Locks
      reads this
    {
      Locks(locks, tickets)
    }

    method GetIdempotencyResult(key: Key, now: int) returns (found: Option<Reply>)
      modifies this`memory
      ensures found == Lookup(old(memory), key, now)
      ensures memory == Purge(old(memory), key, now)
      ensures found.Some? <==> key in old(memory) && now < old(memory)[key].expiresAt
      ensures found.Some? ==> found.value == old(memory)[key].result && memory == old(memory)
      ensures found.None? ==> memory == old(memory) - {key}
    {
      if key in memory {
        var cached := memory[key];
        if cached.expiresAt > now {
          return Some(cached.result);
        }
        memory := memory - {key};
      }
      return None;
    }

    method RememberIdempotencyResult(key: Key, result: Reply, now: int)
      modifies this`memory
      ensures memory == old(memory)[key := Entry(result, now + TTL_MS)]
      ensures forall t :: now <= t < now + 86_400_000 ==> Lookup(memory, key, t) == Some(result)
      ensures forall t :: now + 86_400_000 <= t ==> Lookup(memory, key, t) == None
    {
      memory := memory[key := Entry(result, now + TTL_MS)];
    }

    /** Up to the await on the previous chain promise; `t` stands for the promise made here. */
    method AcquireIdempotencyLock(key: Key) returns (t: nat)
      requires LockInv(Chain())
      modifies this`locks, this`tickets
      ensures Chain() == Join(old(Chain()), key) && LockInv(Chain())
      ensures t == old(|tickets|) && tickets[t].key == key
    {
      JoinKeepsLockInv(Chain(), key);
      t := |tickets|;
      tickets := tickets + [Ticket(key, if key in locks then Some(locks[key]) else None, false)];
      locks := locks[key := t];
    }

    /** The returned closure; it may be called any number of times after the grant. */
    method ReleaseLock(t: nat)
      requires LockInv(Chain()) && t < |tickets| && MayProceed(tickets, t)
      modifies this`locks, this`tickets
      ensures Chain() == Release(old(Chain()), t) && LockInv(Chain())
      ensures old(tickets[t].released) ==> Chain() == old(Chain())
      ensures forall u :: 0 <= u < |tickets| && old(MayProceed(tickets, u)) ==> MayProceed(tickets, u)
    {
      ghost var before := Chain();
      ChainIsQueue(before, t);
      ReleaseKeepsLockInv(before, t);
      if !tickets[t].released {
        tickets := tickets[t := tickets[t].(released := true)];
        if tickets[t].key in locks && locks[tickets[t].key] == t {
          locks := locks - {tickets[t].key};
        }
      }
      forall u | 0 <= u < |tickets| && MayProceed(before.tickets, u) ensures MayProceed(tickets, u) {
        ChainIsQueue(before, u);
        ChainIsQueue(Chain(), u);
      }
    }
  }
}
