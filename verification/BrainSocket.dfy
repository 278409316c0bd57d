/** The browser's reconnecting socket, feeding the store it was given as handler. */
module BrainSocket {
  import opened Prelude
  import opened BrainStore

  const FIRST_DELAY_MS := 1000
  const MAX_DELAY_MS := 16000

  datatype Status = Syncing | Online | Offline

  /** The delay before the next attempt after n closes in a row with no open between them. */
  function Backoff(n: nat): nat {
    if n == 0 then FIRST_DELAY_MS
    else if 2 * Backoff(n - 1) <= MAX_DELAY_MS then 2 * Backoff(n - 1)
    else MAX_DELAY_MS
  }

  function Pow2(n: nat): nat { if n == 0 then 1 else 2 * Pow2(n - 1) }

  /** Doubling from one second, held at sixteen. */
  lemma {:induction false} BackoffDoublesUpToLimit(n: nat)
    ensures Backoff(n) == if 1000 * Pow2(n) <= 16000 then 1000 * Pow2(n) else 16000
  {
    if n == 0 {
    } else {
      BackoffDoublesUpToLimit(n - 1);
    }
  }

  class Socket {
    const store: EventStore
    var lastSeq: nat
    var retryDelayMs: nat
    var closed: bool
    var since: Option<nat>      // what the open connection asked for; none when there is no connection
    var status: Status          // the last one reported to the status handlers
    ghost var failures: nat     // closes since the last open

    ghost predicate Valid()
      reads this
    {
      retryDelayMs == Backoff(failures)
    }

    constructor (store: EventStore)
      ensures Valid() && this.store == store && lastSeq == 0 && !closed && since.None?
    {
      this.store := store;
      lastSeq := 0;
      retryDelayMs := FIRST_DELAY_MS;
      closed := false;
      since := None;
      status := Syncing;
      failures := 0;
    }

    method SetLastSeq(n: nat)
      modifies this`lastSeq
      ensures lastSeq == if n > old(lastSeq) then n else old(lastSeq)
    {
      if n > lastSeq {
        lastSeq := n;
      }
    }

    /** Connects and asks for everything after the last number seen; a closed socket stays closed. */
    method Start()
      requires Valid()
      modifies this`since
      ensures Valid()
      ensures since == if closed then old(since) else Some(lastSeq)
    {
      if closed {
        return;
      }
      since := Some(lastSeq);
    }

    method OnOpen()
      modifies this`retryDelayMs, this`status, this`failures
      ensures Valid() && failures == 0 && status == Online
    {
      retryDelayMs := FIRST_DELAY_MS;
      failures := 0;
      status := Online;
    }

    /** The number is noted first, then the store gets the event, whether or not it is new. */
    method OnMessage(e: BrainEvent, now: string)
      requires Valid()
      modifies this`lastSeq, this`status, store
      ensures Valid() && status == Online
      ensures lastSeq == if e.seqNo > old(lastSeq) then e.seqNo else old(lastSeq)
      ensures store.View() == Applied(old(store.View()), e, now)
      ensures old(lastSeq) <= old(store.lastSeq) ==> lastSeq <= store.lastSeq
    {
      SetLastSeq(e.seqNo);
      status := Online;
      store.ApplyEvent(e, now);
      hide Effect;
      assert Applied(old(store.View()), e, now).lastSeq == store.lastSeq;
    }

    /** Reports the loss and gives the delay after which Start is called again, if it is. */
    method OnClose() returns (retry: Option<nat>)
      requires Valid()
      modifies this`retryDelayMs, this`since, this`status, this`failures
      ensures Valid() && since.None?
      ensures closed ==> retry.None? && status == old(status) && failures == old(failures)
      ensures !closed ==> retry == Some(Backoff(old(failures))) && status == Offline && failures == old(failures) + 1
    {
      since := None;
      if closed {
        return None;
      }
      status := Offline;
      retry := Some(retryDelayMs);
      retryDelayMs := if retryDelayMs * 2 <= MAX_DELAY_MS then retryDelayMs * 2 else MAX_DELAY_MS;
      failures := failures + 1;
    }

    method Close()
      requires Valid()
      modifies this`closed, this`since
      ensures Valid() && closed && since.None?
    {
      closed := true;
      since := None;
    }
  }
}
