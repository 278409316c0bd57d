/** The in-process broadcaster: numbering, the replay buffer, and the subscribers' queues. */
module Broadcaster {
  import opened BrainStore

  const BUFFER_CAPACITY := 1000
  const QUEUE_CAPACITY := 2000

  /** An envelope before the broadcaster numbers it; any number it carries is overwritten. */
  type Envelope = BrainEvent

  /** A deque of bounded length drops from its front. */
  function LastOf(s: seq<BrainEvent>, n: nat): seq<BrainEvent> {
    if |s| <= n then s else s[|s| - n..]
  }

  function Numbered(e: Envelope, n: nat): BrainEvent { e.(seqNo := n) }

  function After(events: seq<BrainEvent>, since: nat): seq<BrainEvent> {
    if events == [] then []
    else (if events[0].seqNo > since then [events[0]] else []) + After(events[1..], since)
  }

  /** `queues` holds every queue still read by some subscription, `subscribers` those still fed. */
  datatype Hub = Hub(
    seqNo: nat, buffer: seq<BrainEvent>,
    queues: map<nat, seq<BrainEvent>>, subscribers: set<nat>, nextQueue: nat)
  {
    predicate HasRoom(q: nat) { q in queues && |queues[q]| < QUEUE_CAPACITY }

    /** Every fed queue with room gets the event; a full one keeps what it has and is fed no more. */
    function Publish(e: Envelope): Hub {
      var event := Numbered(e, seqNo + 1);
      this.(seqNo := seqNo + 1,
            buffer := LastOf(buffer + [event], BUFFER_CAPACITY),
            queues := map q | q in queues ::
              if q in subscribers && HasRoom(q) then queues[q] + [event] else queues[q],
            subscribers := set q | q in subscribers && HasRoom(q))
    }

    /** What a subscription will replay, fixed when it starts. */
    function Snapshot(since: nat): seq<BrainEvent> { After(buffer, since) }

    function Register(): Hub {
      this.(queues := queues[nextQueue := []], subscribers := subscribers + {nextQueue}, nextQueue := nextQueue + 1)
    }

    /** Takes the oldest event out of a queue. */
    function Dequeue(q: nat): Hub
      requires q in queues && queues[q] != []
    {
      this.(queues := queues[q := queues[q][1..]])
    }

    /** The end of a subscription: its queue is fed no more and read no more. */
    function Unsubscribe(q: nat): Hub {
      this.(queues := queues - {q}, subscribers := subscribers - {q})
    }
  }

  const NEW_HUB := Hub(0, [], map[], {}, 0)

  /** The hub after the events of `log` have been published, whoever subscribed meanwhile. */
  ghost predicate Consistent(h: Hub, log: seq<BrainEvent>) {
    && h.seqNo == |log|
    && (forall i :: 0 <= i < |log| ==> log[i].seqNo == i + 1)
    && h.buffer == LastOf(log, BUFFER_CAPACITY)
    && h.subscribers <= h.queues.Keys
    && (forall q :: q in h.queues ==> q < h.nextQueue && |h.queues[q]| <= QUEUE_CAPACITY)
  }

  lemma PublishKeepsConsistent(h: Hub, log: seq<BrainEvent>, e: Envelope)
    requires Consistent(h, log)
    ensures Consistent(h.Publish(e), log + [Numbered(e, |log| + 1)])
  {
    var x := Numbered(e, |log| + 1);
    assert LastOf(LastOf(log, BUFFER_CAPACITY) + [x], BUFFER_CAPACITY) == LastOf(log + [x], BUFFER_CAPACITY);
  }

  /** What arrives is the envelope with the next number, field by field, in the buffer and in each queue with room. */
  lemma PublishDelivers(h: Hub, e: Envelope)
    ensures var t := h.Publish(e); var event := BrainEvent(h.seqNo + 1, e.kind, e.persistedId, e.payload);
      && t.seqNo == event.seqNo
      && t.buffer == (if |h.buffer| < 1000 then h.buffer else h.buffer[|h.buffer| - 999..]) + [event]
      && t.queues.Keys == h.queues.Keys && t.subscribers <= h.subscribers && t.nextQueue == h.nextQueue
      && forall q :: q in h.queues ==>
           if q in h.subscribers && |h.queues[q]| < 2000 then q in t.subscribers && t.queues[q] == h.queues[q] + [event]
           else q !in t.subscribers && t.queues[q] == h.queues[q]
  {
    var event := BrainEvent(h.seqNo + 1, e.kind, e.persistedId, e.payload);
    assert |h.buffer| >= 1000 ==> (h.buffer + [event])[|h.buffer| - 999..] == h.buffer[|h.buffer| - 999..] + [event];
  }

  /** Numbers run on, so what comes after `since` in a stretch of the log is a stretch of the log. */
  lemma {:induction false} AfterIsSlice(log: seq<BrainEvent>, from: nat, since: nat)
    requires from <= |log|
    requires forall i :: 0 <= i < |log| ==> log[i].seqNo == i + 1
    ensures After(log[from..], since) == log[if from >= since then from else if since <= |log| then since else |log|..]
    decreases |log| - from
  {
    if from < |log| {
      assert log[from..][0] == log[from] && log[from..][1..] == log[from + 1..];
      AfterIsSlice(log, from + 1, since);
      if from >= since {
        assert log[from..] == [log[from]] + log[from + 1..];
      }
    }
  }

  lemma AfterNext(events: seq<BrainEvent>, i: nat, since: nat)
    requires i < |events|
    ensures After(events[i..], since)
         == (if events[i].seqNo > since then [events[i]] else []) + After(events[i + 1..], since)
  {
    assert events[i..][0] == events[i] && events[i..][1..] == events[i + 1..];
  }

  lemma AfterNothing(since: nat)
    ensures After([], since) == []
  {
  }

  /** The broadcaster of the source. */
  class EventBroadcaster {
    var seqNo: nat
    var buffer: seq<BrainEvent>
    var queues: map<nat, seq<BrainEvent>>
    var subscribers: set<nat>
    var nextQueue: nat

    ghost function View(): Hub
      reads this
    {
      Hub(seqNo, buffer, queues, subscribers, nextQueue)
    }

    constructor ()
      ensures View() == NEW_HUB
    {
      seqNo, buffer, queues, subscribers, nextQueue := 0, [], map[], {}, 0;
    }

    method Publish(e: Envelope) returns (n: nat)
      requires subscribers <= queues.Keys
      modifies this
      ensures View() == old(View()).Publish(e) && n == seqNo == old(seqNo) + 1
      ensures var event := BrainEvent(n, e.kind, e.persistedId, e.payload);
        && buffer != [] && buffer[|buffer| - 1] == event
        && forall q :: q in old(subscribers) && |old(queues)[q]| < 2000 ==>
             q in subscribers && queues[q] == old(queues)[q] + [event]
    {
      PublishDelivers(View(), e);
      seqNo := seqNo + 1;
      var event := Numbered(e, seqNo);
      buffer := LastOf(buffer + [event], BUFFER_CAPACITY);
      Feed(event);
      n := seqNo;
      assert queues == old(View()).Publish(e).queues;
    }

    /** Puts the event into every subscriber's queue, one after the other, dropping the full ones. */
    method Feed(event: BrainEvent)
      requires subscribers <= queues.Keys
      modifies this`queues, this`subscribers
      ensures queues.Keys == old(queues).Keys
      ensures forall q :: q in queues ==>
        queues[q] == if q in old(subscribers) && |old(queues)[q]| < QUEUE_CAPACITY
                     then old(queues)[q] + [event] else old(queues)[q]
      ensures subscribers == set q | q in old(subscribers) && |old(queues)[q]| < QUEUE_CAPACITY
    {
      var remaining := subscribers;
      while remaining != {}
        invariant remaining <= subscribers <= old(subscribers)
        invariant queues.Keys == old(queues).Keys
        invariant forall q :: q in queues ==>
          queues[q] == if q in old(subscribers) && q !in remaining && |old(queues)[q]| < QUEUE_CAPACITY
                       then old(queues)[q] + [event] else old(queues)[q]
        invariant forall q :: q in old(subscribers) && q !in remaining ==>
          (q in subscribers <==> |old(queues)[q]| < QUEUE_CAPACITY)
        decreases remaining
      {
        var q :| q in remaining;
        if |queues[q]| < QUEUE_CAPACITY {
          queues := queues[q := queues[q] + [event]];
        } else {
          subscribers := subscribers - {q};
        }
        remaining := remaining - {q};
      }
    }

    /** The first part of a subscription: copy the buffer, then hand out what is newer than `since`. */
    method Replay(since: nat) returns (rest: seq<BrainEvent>)
      ensures rest == View().Snapshot(since)
    {
      hide After;
      var copy := buffer;
      rest := [];
      assert copy[0..] == copy;
      for i := 0 to |copy|
        invariant rest + After(copy[i..], since) == After(copy, since)
      {
        AfterNext(copy, i, since);
        if copy[i].seqNo > since {
          rest := rest + [copy[i]];
        }
      }
      assert copy[|copy|..] == [];
      AfterNothing(since);
    }

    /** The second part: a fresh queue, fed from now on. */
    method Register() returns (q: nat)
      modifies this
      ensures View() == old(View()).Register() && q == old(nextQueue)
      ensures q in subscribers && q in queues && queues[q] == []
      ensures forall p :: p in old(queues) && p != q ==> p in queues && queues[p] == old(queues)[p]
      ensures seqNo == old(seqNo) && buffer == old(buffer) && old(subscribers) <= subscribers
    {
      q := nextQueue;
      nextQueue := nextQueue + 1;
      queues := queues[q := []];
      subscribers := subscribers + {q};
    }

    method Get(q: nat) returns (event: BrainEvent)
      requires q in queues && queues[q] != []
      modifies this
      ensures View() == old(View()).Dequeue(q) && [event] + queues[q] == old(queues)[q]
      ensures forall p :: p in old(queues) && p != q ==> p in queues && queues[p] == old(queues)[p]
      ensures seqNo == old(seqNo) && buffer == old(buffer) && subscribers == old(subscribers)
    {
      event := queues[q][0];
      queues := queues[q := queues[q][1..]];
    }

    method Unsubscribe(q: nat)
      modifies this
      ensures View() == old(View()).Unsubscribe(q)
      ensures q !in subscribers && q !in queues && seqNo == old(seqNo) && buffer == old(buffer)
      ensures forall p :: p != q && p in old(queues) ==>
        p in queues && queues[p] == old(queues)[p] && (p in subscribers <==> p in old(subscribers))
    {
      subscribers := subscribers - {q};
      queues := queues - {q};
    }
  }
}
