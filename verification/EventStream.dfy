/** The event stream end to end: broadcaster, subscriptions, sockets and one store, interleaved. */
module EventStream {
  import opened Prelude
  import opened BrainStore
  import opened BrainSocket
  import opened Broadcaster

  /**
   * A subscription between two of its resumptions. Opened: the snapshot is still to be taken.
   * Replaying: `rest` is still to be handed out, and no queue is registered yet. Live: reading its queue.
   */
  datatype Phase = Opened | Replaying(rest: seq<BrainEvent>) | Live(queue: nat) | Ended

  /**
   * `given` is everything handed out so far. History of the run: `snap` and `reg` are how many events
   * had been published when the snapshot was taken and when the queue was registered.
   */
  datatype Subscription = Subscription(since: nat, snap: nat, reg: nat, given: seq<BrainEvent>, phase: Phase)

  /** A browser socket: the last number seen, the subscription it is connected to, what is in flight. */
  datatype Client = Client(lastSeq: nat, conn: Option<nat>, wire: seq<BrainEvent>)

  /** History of the run: `log` is everything ever published, `applied` everything the store took. */
  datatype State = State(
    log: seq<BrainEvent>, hub: Hub, subs: seq<Subscription>, socks: seq<Client>,
    store: Store, applied: seq<Stamped>)

  const START := State([], NEW_HUB, [], [], INITIAL, [])

  datatype Step =
    | PublishStep(e: Envelope)
    | NewSocket
    | Connect(k: nat)
    | SnapshotStep(g: nat)
    | HandOut(g: nat)
    | RegisterStep(g: nat)
    | TakeStep(g: nat)
    | End(g: nat)
    | Receive(k: nat, now: string)
    | Cut(k: nat)

  // ---------------------------------------------------------------------------
  // Steps
  // ---------------------------------------------------------------------------

  predicate Attached(s: State, g: nat) {
    exists k :: 0 <= k < |s.socks| && s.socks[k].conn == Some(g)
  }

  function QueueOf(h: Hub, sub: Subscription): seq<BrainEvent> {
    if sub.phase.Live? && sub.phase.queue in h.queues then h.queues[sub.phase.queue] else []
  }

  predicate Fed(h: Hub, sub: Subscription) { sub.phase.Live? && sub.phase.queue in h.subscribers }

  predicate Enabled(s: State, step: Step) {
    match step
    case PublishStep(_) => true
    case NewSocket => true
    case Connect(k) => k < |s.socks| && s.socks[k].conn.None?
    case SnapshotStep(g) => g < |s.subs| && s.subs[g].phase.Opened?
    case HandOut(g) => g < |s.subs| && s.subs[g].phase.Replaying? && s.subs[g].phase.rest != []
    case RegisterStep(g) => g < |s.subs| && s.subs[g].phase == Replaying([])
    case TakeStep(g) => g < |s.subs| && QueueOf(s.hub, s.subs[g]) != []
    case End(g) => g < |s.subs| && !Attached(s, g)
    case Receive(k, _) => k < |s.socks| && s.socks[k].wire != []
    case Cut(k) => k < |s.socks|
  }

  /** What a subscription hands out goes to the socket connected to it, if it still is. */
  function Sent(socks: seq<Client>, g: nat, e: BrainEvent): seq<Client> {
    seq(|socks|, i requires 0 <= i < |socks| =>
      if socks[i].conn == Some(g) then socks[i].(wire := socks[i].wire + [e]) else socks[i])
  }

  /** The start of a subscription: the buffer is copied. */
  function Copied(s: State, g: nat): State
    requires g < |s.subs|
  {
    var sub := s.subs[g];
    s.(subs := s.subs[g := sub.(snap := |s.log|, phase := Replaying(s.hub.Snapshot(sub.since)))])
  }

  /** The next event of a replay is handed out. */
  function HandedOut(s: State, g: nat): State
    requires g < |s.subs| && s.subs[g].phase.Replaying? && s.subs[g].phase.rest != []
  {
    var sub := s.subs[g];
    var e := sub.phase.rest[0];
    s.(subs := s.subs[g := sub.(given := sub.given + [e], phase := Replaying(sub.phase.rest[1..]))],
       socks := Sent(s.socks, g, e))
  }

  /** The replay is over: the queue is registered. */
  function Registered(s: State, g: nat): State
    requires g < |s.subs|
  {
    s.(subs := s.subs[g := s.subs[g].(reg := |s.log|, phase := Live(s.hub.nextQueue))],
       hub := s.hub.Register())
  }

  /**
   * A subscription runs without a pause from one event it hands out to the next: the first resumption copies
   * the buffer and hands out the first event of the replay, or registers the queue if there is none.
   */
  function Next(s: State, step: Step): State
    requires Enabled(s, step)
  {
    match step
    case PublishStep(e) =>
      s.(log := s.log + [Numbered(e, |s.log| + 1)], hub := s.hub.Publish(e))
    case NewSocket =>
      s.(socks := s.socks + [Client(0, None, [])])
    case Connect(k) =>
      s.(subs := s.subs + [Subscription(s.socks[k].lastSeq, 0, 0, [], Opened)],
         socks := s.socks[k := s.socks[k].(conn := Some(|s.subs|), wire := [])])
    case SnapshotStep(g) =>
      var t := Copied(s, g);
      if t.subs[g].phase.rest == [] then Registered(t, g) else HandedOut(t, g)
    case HandOut(g) => HandedOut(s, g)
    case RegisterStep(g) => Registered(s, g)
    case TakeStep(g) =>
      var sub := s.subs[g];
      var e := QueueOf(s.hub, sub)[0];
      s.(subs := s.subs[g := sub.(given := sub.given + [e])],
         hub := s.hub.Dequeue(sub.phase.queue),
         socks := Sent(s.socks, g, e))
    case End(g) =>
      var sub := s.subs[g];
      s.(subs := s.subs[g := sub.(phase := Ended)],
         hub := if sub.phase.Live? then s.hub.Unsubscribe(sub.phase.queue) else s.hub)
    case Receive(k, now) =>
      var sock := s.socks[k];
      var e := sock.wire[0];
      s.(socks := s.socks[k := sock.(lastSeq := if e.seqNo > sock.lastSeq then e.seqNo else sock.lastSeq,
                                     wire := sock.wire[1..])],
         store := Applied(s.store, e, now),
         applied := if e.seqNo <= s.store.lastSeq then s.applied else s.applied + [Stamped(e, now)])
    case Cut(k) =>
      s.(socks := s.socks[k := s.socks[k].(conn := None, wire := [])])
  }

  /** A step that is not enabled does nothing, so every list of steps is a run. */
  function Do(s: State, step: Step): State { if Enabled(s, step) then Next(s, step) else s }

  function StateAfter(steps: seq<Step>): State {
    if steps == [] then START else Do(StateAfter(steps[..|steps| - 1]), steps[|steps| - 1])
  }

  // ---------------------------------------------------------------------------
  // The content of a subscription
  // ---------------------------------------------------------------------------

  /** How many events lie before the first one replayed: what `since` covers, or what the buffer dropped. */
  function Lo(since: nat, snap: nat): nat {
    if since >= snap then snap
    else if snap <= BUFFER_CAPACITY + since then since
    else snap - BUFFER_CAPACITY
  }

  function Replayed(log: seq<BrainEvent>, since: nat, snap: nat): seq<BrainEvent>
    requires snap <= |log|
  {
    log[Lo(since, snap)..snap]
  }

  /**
   * Handed out plus queued is the replay and then the run of events published from the registration on:
   * up to now while the queue is fed, up to its overflow at 2000 waiting events afterwards.
   */
  ghost predicate LiveContent(log: seq<BrainEvent>, sub: Subscription, queue: seq<BrainEvent>, fed: bool) {
    && sub.since <= sub.snap <= sub.reg <= |log|
    && var n := |sub.given| + |queue| - |Replayed(log, sub.since, sub.snap)|;
       && |queue| <= n <= |log| - sub.reg
       && sub.given + queue == Replayed(log, sub.since, sub.snap) + log[sub.reg..sub.reg + n]
       && (if fed then sub.reg + n == |log| else QUEUE_CAPACITY <= n < |log| - sub.reg)
  }

  ghost predicate Content(log: seq<BrainEvent>, sub: Subscription, queue: seq<BrainEvent>, fed: bool) {
    match sub.phase
    case Opened => sub.given == [] && sub.since <= |log|
    case Replaying(rest) => sub.since <= sub.snap <= |log| && sub.given + rest == Replayed(log, sub.since, sub.snap)
    case Live(_) => LiveContent(log, sub, queue, fed)
    case Ended => true
  }

  lemma SnapshotContent(h: Hub, log: seq<BrainEvent>, since: nat)
    requires Consistent(h, log)
    ensures h.Snapshot(since) == Replayed(log, since, |log|)
  {
    var from := if |log| <= BUFFER_CAPACITY then 0 else |log| - BUFFER_CAPACITY;
    assert h.buffer == log[from..];
    AfterIsSlice(log, from, since);
    assert log[Lo(since, |log|)..|log|] == log[Lo(since, |log|)..];
  }

  lemma PublishContent(log: seq<BrainEvent>, sub: Subscription, queue: seq<BrainEvent>, fed: bool, e: BrainEvent)
    requires Content(log, sub, queue, fed)
    ensures (sub.phase.Live? && fed ==> |queue| >= QUEUE_CAPACITY) ==> Content(log + [e], sub, queue, false)
    ensures fed ==> Content(log + [e], sub, queue + [e], true)
  {
    var all := log + [e];
    match sub.phase
    case Opened =>
    case Replaying(rest) =>
      assert Replayed(all, sub.since, sub.snap) == Replayed(log, sub.since, sub.snap);
    case Live(_) =>
      var r := Replayed(log, sub.since, sub.snap);
      assert Replayed(all, sub.since, sub.snap) == r;
      var n := |sub.given| + |queue| - |r|;
      assert all[sub.reg..sub.reg + n] == log[sub.reg..sub.reg + n];
      if fed {
        assert all[sub.reg..sub.reg + n + 1] == log[sub.reg..sub.reg + n] + [e];
        assert sub.given + (queue + [e]) == (sub.given + queue) + [e];
        assert (r + log[sub.reg..sub.reg + n]) + [e] == r + (log[sub.reg..sub.reg + n] + [e]);
      }
    case Ended =>
  }

  lemma MoveContent(given: seq<BrainEvent>, rest: seq<BrainEvent>)
    requires rest != []
    ensures given + [rest[0]] + rest[1..] == given + rest
  {
  }

  // ---------------------------------------------------------------------------
  // What every interleaving keeps
  // ---------------------------------------------------------------------------

  ghost predicate Queues(h: Hub, subs: seq<Subscription>) {
    && (forall g :: 0 <= g < |subs| && subs[g].phase.Live? ==> subs[g].phase.queue in h.queues)
    && (forall g, f :: 0 <= g < f < |subs| && subs[g].phase.Live? && subs[f].phase.Live? ==>
          subs[g].phase.queue != subs[f].phase.queue)
  }

  ghost predicate Contents(log: seq<BrainEvent>, h: Hub, subs: seq<Subscription>) {
    forall g :: 0 <= g < |subs| ==> Content(log, subs[g], QueueOf(h, subs[g]), Fed(h, subs[g]))
  }

  /** A connected socket has in flight the last events its own subscription handed out. */
  ghost predicate Wired(subs: seq<Subscription>, sock: Client, last: nat) {
    && sock.lastSeq <= last
    && (sock.conn.None? ==> sock.wire == [])
    && (sock.conn.Some? ==>
          && sock.conn.value < |subs|
          && var sub := subs[sock.conn.value];
             && !sub.phase.Ended? && sub.since <= last
             && |sock.wire| <= |sub.given|
             && sock.wire == sub.given[|sub.given| - |sock.wire|..])
  }

  ghost predicate Wires(s: State) {
    && (forall k :: 0 <= k < |s.socks| ==> Wired(s.subs, s.socks[k], s.store.lastSeq))
    && (forall j, k :: 0 <= j < k < |s.socks| && s.socks[j].conn.Some? ==> s.socks[j].conn != s.socks[k].conn)
  }

  /** The store is the fold of what it took: events of the log, each at most once, in order. */
  ghost predicate TakenInOrder(log: seq<BrainEvent>, store: Store, applied: seq<Stamped>) {
    && store == Fold(applied)
    && store.lastSeq == (if applied == [] then 0 else applied[|applied| - 1].event.seqNo)
    && (forall i :: 0 <= i < |applied| ==>
          0 < applied[i].event.seqNo <= |log| && applied[i].event == log[applied[i].event.seqNo - 1])
    && (forall i, j :: 0 <= i < j < |applied| ==> applied[i].event.seqNo < applied[j].event.seqNo)
  }

  ghost predicate Core(s: State) {
    && Consistent(s.hub, s.log)
    && Queues(s.hub, s.subs)
    && Contents(s.log, s.hub, s.subs)
    && Wires(s)
    && TakenInOrder(s.log, s.store, s.applied)
  }

  /** A replay pauses only after handing out an event; with nothing to replay, registering follows at once. */
  predicate Begun(sub: Subscription) {
    && (sub.phase.Replaying? ==> sub.given != [])
    && (sub.phase.Live? && Lo(sub.since, sub.snap) == sub.snap ==> sub.reg == sub.snap)
  }

  ghost predicate AllBegun(s: State) { forall g :: 0 <= g < |s.subs| ==> Begun(s.subs[g]) }

  ghost predicate Inv(s: State) { Core(s) && AllBegun(s) }

  // --- subscriptions and their queues ---

  lemma PublishKeepsContents(s: State, e: Envelope)
    requires Core(s)
    ensures var t := Next(s, PublishStep(e)); Queues(t.hub, t.subs) && Contents(t.log, t.hub, t.subs)
  {
    hide Content, Consistent, Wires, TakenInOrder;
    var t := Next(s, PublishStep(e));
    var x := Numbered(e, |s.log| + 1);
    assert s.hub.seqNo == |s.log| by { SeqNoIsLength(s.hub, s.log); }
    forall g | 0 <= g < |s.subs| ensures Content(t.log, s.subs[g], QueueOf(t.hub, s.subs[g]), Fed(t.hub, s.subs[g])) {
      var sub := s.subs[g];
      assert Content(s.log, sub, QueueOf(s.hub, sub), Fed(s.hub, sub));
      PublishContent(s.log, sub, QueueOf(s.hub, sub), Fed(s.hub, sub), x);
    }
  }

  lemma SeqNoIsLength(h: Hub, log: seq<BrainEvent>)
    requires Consistent(h, log)
    ensures h.seqNo == |log|
  {
  }

  /** One subscription changes, alone in reading its queue. */
  lemma UpdateKeepsContents(log: seq<BrainEvent>, h: Hub, subs: seq<Subscription>, g: nat, sub: Subscription, h': Hub)
    requires g < |subs| && Queues(h, subs) && Contents(log, h, subs)
    requires Content(log, sub, QueueOf(h', sub), Fed(h', sub))
    requires sub.phase.Live? ==> sub.phase.queue in h'.queues
    requires forall f :: 0 <= f < |subs| && f != g ==> subs[f].phase.Live? ==>
      && subs[f].phase.queue in h'.queues && h'.queues[subs[f].phase.queue] == h.queues[subs[f].phase.queue]
      && (subs[f].phase.queue in h'.subscribers <==> subs[f].phase.queue in h.subscribers)
      && (sub.phase.Live? ==> sub.phase.queue != subs[f].phase.queue)
    ensures Queues(h', subs[g := sub]) && Contents(log, h', subs[g := sub])
  {
    hide Content;
    var subs' := subs[g := sub];
    forall f | 0 <= f < |subs'| ensures Content(log, subs'[f], QueueOf(h', subs'[f]), Fed(h', subs'[f])) {
      if f != g {
        assert Content(log, subs[f], QueueOf(h, subs[f]), Fed(h, subs[f]));
        assert QueueOf(h', subs[f]) == QueueOf(h, subs[f]) && Fed(h', subs[f]) == Fed(h, subs[f]);
      }
    }
  }

  lemma CopiedKeepsContents(s: State, g: nat)
    requires Core(s) && g < |s.subs| && s.subs[g].phase.Opened?
    ensures var t := Copied(s, g); Queues(t.hub, t.subs) && Contents(t.log, t.hub, t.subs)
  {
    var sub := s.subs[g];
    var sub' := sub.(snap := |s.log|, phase := Replaying(s.hub.Snapshot(sub.since)));
    SnapshotContent(s.hub, s.log, sub.since);
    assert Content(s.log, sub, QueueOf(s.hub, sub), Fed(s.hub, sub));
    assert Content(s.log, sub', [], false);
    hide Content, Consistent, Wires, TakenInOrder;
    UpdateKeepsContents(s.log, s.hub, s.subs, g, sub', s.hub);
  }

  lemma HandedOutKeepsContents(s: State, g: nat)
    requires Core(s) && g < |s.subs| && s.subs[g].phase.Replaying? && s.subs[g].phase.rest != []
    ensures var t := HandedOut(s, g); Queues(t.hub, t.subs) && Contents(t.log, t.hub, t.subs)
  {
    var sub := s.subs[g];
    var rest := sub.phase.rest;
    var sub' := sub.(given := sub.given + [rest[0]], phase := Replaying(rest[1..]));
    assert Content(s.log, sub, QueueOf(s.hub, sub), Fed(s.hub, sub));
    MoveContent(sub.given, rest);
    assert Content(s.log, sub', [], false);
    hide Content, Consistent, Wires, TakenInOrder;
    UpdateKeepsContents(s.log, s.hub, s.subs, g, sub', s.hub);
  }

  lemma RegisteredKeepsContents(s: State, g: nat)
    requires Core(s) && g < |s.subs| && s.subs[g].phase == Replaying([])
    ensures var t := Registered(s, g); Queues(t.hub, t.subs) && Contents(t.log, t.hub, t.subs)
  {
    var sub := s.subs[g];
    var q := s.hub.nextQueue;
    var sub' := sub.(reg := |s.log|, phase := Live(q));
    assert Content(s.log, sub, QueueOf(s.hub, sub), Fed(s.hub, sub));
    assert sub.given + [] == sub.given;
    assert Replayed(s.log, sub.since, sub.snap) + s.log[|s.log|..|s.log|] == Replayed(s.log, sub.since, sub.snap);
    assert Content(s.log, sub', [], true);
    forall f | 0 <= f < |s.subs| && s.subs[f].phase.Live? ensures s.subs[f].phase.queue != q {
      assert s.subs[f].phase.queue in s.hub.queues;
    }
    hide Content, Consistent, Wires, TakenInOrder;
    UpdateKeepsContents(s.log, s.hub, s.subs, g, sub', s.hub.Register());
  }

  lemma TakeKeepsContents(s: State, g: nat)
    requires Core(s) && Enabled(s, TakeStep(g))
    ensures var t := Next(s, TakeStep(g)); Queues(t.hub, t.subs) && Contents(t.log, t.hub, t.subs)
  {
    var sub := s.subs[g];
    var queue := QueueOf(s.hub, sub);
    var sub' := sub.(given := sub.given + [queue[0]]);
    assert Content(s.log, sub, queue, Fed(s.hub, sub));
    MoveContent(sub.given, queue);
    assert Content(s.log, sub', queue[1..], Fed(s.hub, sub));
    hide Content, Consistent, Wires, TakenInOrder;
    UpdateKeepsContents(s.log, s.hub, s.subs, g, sub', s.hub.Dequeue(sub.phase.queue));
  }

  lemma EndKeepsContents(s: State, g: nat)
    requires Core(s) && Enabled(s, End(g))
    ensures var t := Next(s, End(g)); Queues(t.hub, t.subs) && Contents(t.log, t.hub, t.subs)
  {
    var sub' := s.subs[g].(phase := Ended);
    assert Content(s.log, sub', [], false);
    hide Content, Consistent, Wires, TakenInOrder;
    UpdateKeepsContents(s.log, s.hub, s.subs, g, sub', Next(s, End(g)).hub);
  }

  lemma SeenIsLogged(s: State, k: nat)
    requires Core(s) && k < |s.socks|
    ensures s.socks[k].lastSeq <= s.store.lastSeq <= |s.log|
  {
    hide Fold, Consistent, Queues, Contents;
    assert Wired(s.subs, s.socks[k], s.store.lastSeq);
  }

  lemma ConnectKeepsContents(s: State, k: nat)
    requires Core(s) && Enabled(s, Connect(k))
    ensures var t := Next(s, Connect(k)); Queues(t.hub, t.subs) && Contents(t.log, t.hub, t.subs)
  {
    var t := Next(s, Connect(k));
    assert s.socks[k].lastSeq <= |s.log| by { SeenIsLogged(s, k); }
    assert Content(s.log, Subscription(s.socks[k].lastSeq, 0, 0, [], Opened), [], false);
    hide Content, Consistent, Wires, TakenInOrder;
    forall f | 0 <= f < |t.subs| ensures Content(s.log, t.subs[f], QueueOf(s.hub, t.subs[f]), Fed(s.hub, t.subs[f])) {
      if f < |s.subs| {
        assert Content(s.log, s.subs[f], QueueOf(s.hub, s.subs[f]), Fed(s.hub, s.subs[f]));
      }
    }
  }

  /** The steps of a subscription up to its registration are treated apart. */
  predicate Early(step: Step) { step.SnapshotStep? || step.HandOut? || step.RegisterStep? }

  lemma StepKeepsContents(s: State, step: Step)
    requires Core(s) && Enabled(s, step) && !Early(step)
    ensures var t := Next(s, step);
      Consistent(t.hub, t.log) && Queues(t.hub, t.subs) && Contents(t.log, t.hub, t.subs)
  {
    assert Consistent(Next(s, step).hub, Next(s, step).log) by {
      hide Contents, Wires, TakenInOrder;
      HubKeepsConsistent(s, step);
    }
    hide Contents, Wires, TakenInOrder, Queues, Consistent, Enabled;
    match step
    case PublishStep(e) => PublishKeepsContents(s, e);
    case NewSocket =>
    case Connect(k) => ConnectKeepsContents(s, k);
    case TakeStep(g) => TakeKeepsContents(s, g);
    case End(g) => EndKeepsContents(s, g);
    case Receive(_, _) =>
    case Cut(_) =>
  }

  lemma HubKeepsConsistent(s: State, step: Step)
    requires Consistent(s.hub, s.log) && Enabled(s, step) && !Early(step)
    ensures Consistent(Next(s, step).hub, Next(s, step).log)
  {
    if step.PublishStep? {
      PublishKeepsConsistent(s.hub, s.log, step.e);
    }
  }

  // --- sockets ---

  /** The same subscriptions as before, but for one that hands out `e` and one more at the end. */
  lemma SentKeepsWires(s: State, g: nat, e: BrainEvent, sub: Subscription)
    requires Wires(s) && g < |s.subs| && !sub.phase.Ended?
    requires sub.given == s.subs[g].given + [e] && sub.since == s.subs[g].since
    ensures Wires(s.(subs := s.subs[g := sub], socks := Sent(s.socks, g, e)))
  {
    hide Wired;
    var subs', socks' := s.subs[g := sub], Sent(s.socks, g, e);
    forall k | 0 <= k < |socks'| ensures Wired(subs', socks'[k], s.store.lastSeq) {
      assert Wired(s.subs, s.socks[k], s.store.lastSeq);
      SentKeepsWired(s.subs, s.socks[k], s.store.lastSeq, g, e, sub);
    }
    assert forall k :: 0 <= k < |socks'| ==> socks'[k].conn == s.socks[k].conn;
  }

  lemma SentKeepsWired(subs: seq<Subscription>, sock: Client, last: nat, g: nat, e: BrainEvent, sub: Subscription)
    requires Wired(subs, sock, last) && g < |subs| && !sub.phase.Ended?
    requires sub.given == subs[g].given + [e] && sub.since == subs[g].since
    ensures Wired(subs[g := sub], if sock.conn == Some(g) then sock.(wire := sock.wire + [e]) else sock, last)
  {
    if sock.conn == Some(g) {
      var before := subs[g].given;
      assert sub.given[|sub.given| - |sock.wire| - 1..] == before[|before| - |sock.wire|..] + [e];
    }
  }

  lemma QuietKeepsWires(s: State, g: nat, sub: Subscription)
    requires Wires(s) && g < |s.subs|
    requires sub.given == s.subs[g].given && sub.since == s.subs[g].since
    requires sub.phase.Ended? ==> !Attached(s, g)
    ensures Wires(s.(subs := s.subs[g := sub]))
  {
    forall k | 0 <= k < |s.socks| ensures Wired(s.subs[g := sub], s.socks[k], s.store.lastSeq) {
      assert Wired(s.subs, s.socks[k], s.store.lastSeq);
    }
  }

  lemma ConnectKeepsWires(s: State, k: nat)
    requires Wires(s) && Enabled(s, Connect(k))
    ensures Wires(Next(s, Connect(k)))
  {
    var t := Next(s, Connect(k));
    forall j | 0 <= j < |t.socks| ensures Wired(t.subs, t.socks[j], t.store.lastSeq) {
      assert Wired(s.subs, s.socks[j], s.store.lastSeq);
    }
  }

  lemma NewSocketKeepsWires(s: State)
    requires Wires(s)
    ensures Wires(Next(s, NewSocket))
  {
    var t := Next(s, NewSocket);
    forall j | 0 <= j < |t.socks| ensures Wired(t.subs, t.socks[j], t.store.lastSeq) {
      if j < |s.socks| { assert Wired(s.subs, s.socks[j], s.store.lastSeq); }
    }
  }

  lemma CutKeepsWires(s: State, k: nat)
    requires Wires(s) && Enabled(s, Cut(k))
    ensures Wires(Next(s, Cut(k)))
  {
    var t := Next(s, Cut(k));
    forall j | 0 <= j < |t.socks| ensures Wired(t.subs, t.socks[j], t.store.lastSeq) {
      assert Wired(s.subs, s.socks[j], s.store.lastSeq);
    }
  }

  lemma AppliedLastSeq(st: Store, e: BrainEvent, now: string)
    ensures Applied(st, e, now).lastSeq == if e.seqNo > st.lastSeq then e.seqNo else st.lastSeq
  {
    hide Effect;
  }

  lemma ReceiveKeepsWires(s: State, k: nat, now: string)
    requires Wires(s) && Enabled(s, Receive(k, now))
    ensures Wires(Next(s, Receive(k, now)))
  {
    hide Applied;
    var t := Next(s, Receive(k, now));
    AppliedLastSeq(s.store, s.socks[k].wire[0], now);
    forall j | 0 <= j < |t.socks| ensures Wired(t.subs, t.socks[j], t.store.lastSeq) {
      assert Wired(s.subs, s.socks[j], s.store.lastSeq);
    }
  }

  lemma StepKeepsWires(s: State, step: Step)
    requires Core(s) && Enabled(s, step) && !Early(step)
    ensures Wires(Next(s, step))
  {
    assert Wires(s);
    hide Wires, Contents, Queues, Consistent, TakenInOrder, Applied, Attached;
    match step
    case PublishStep(e) => SameWires(s, Next(s, step));
    case NewSocket => NewSocketKeepsWires(s);
    case Connect(k) => ConnectKeepsWires(s, k);
    case TakeStep(g) =>
      SentKeepsWires(s, g, QueueOf(s.hub, s.subs[g])[0], Next(s, step).subs[g]);
      SameWires(s.(subs := Next(s, step).subs, socks := Next(s, step).socks), Next(s, step));
    case End(g) =>
      QuietKeepsWires(s, g, Next(s, step).subs[g]);
      SameWires(s.(subs := Next(s, step).subs), Next(s, step));
    case Receive(k, now) => ReceiveKeepsWires(s, k, now);
    case Cut(k) => CutKeepsWires(s, k);
  }

  lemma SameWires(s: State, t: State)
    requires Wires(s) && t.subs == s.subs && t.socks == s.socks && t.store == s.store
    ensures Wires(t)
  {
  }

  // --- the store ---

  /** Everything a subscription hands out is an event of the log. */
  lemma GivenIsLogged(log: seq<BrainEvent>, sub: Subscription, queue: seq<BrainEvent>, fed: bool, i: nat)
    requires Content(log, sub, queue, fed) && !sub.phase.Ended? && i < |sub.given|
    requires forall n :: 0 <= n < |log| ==> log[n].seqNo == n + 1
    ensures 0 < sub.given[i].seqNo <= |log| && sub.given[i] == log[sub.given[i].seqNo - 1]
  {
    var r := Replayed(log, sub.since, sub.snap);
    match sub.phase
    case Opened =>
    case Replaying(rest) =>
      assert sub.given[i] == (sub.given + rest)[i] == log[Lo(sub.since, sub.snap) + i];
    case Live(_) =>
      assert sub.given[i] == (sub.given + queue)[i];
      if i < |r| {
        assert sub.given[i] == log[Lo(sub.since, sub.snap) + i];
      } else {
        assert sub.given[i] == log[sub.reg + (i - |r|)];
      }
    case Ended =>
  }

  lemma WireIsLogged(s: State, k: nat, i: nat)
    requires Core(s) && k < |s.socks| && i < |s.socks[k].wire|
    ensures var e := s.socks[k].wire[i]; 0 < e.seqNo <= |s.log| && e == s.log[e.seqNo - 1]
  {
    assert Wired(s.subs, s.socks[k], s.store.lastSeq);
    var g := s.socks[k].conn.value;
    var sub := s.subs[g];
    assert Content(s.log, sub, QueueOf(s.hub, sub), Fed(s.hub, sub));
    var at := |sub.given| - |s.socks[k].wire| + i;
    assert s.socks[k].wire[i] == sub.given[at];
    hide Content, Wired;
    GivenIsLogged(s.log, sub, QueueOf(s.hub, sub), Fed(s.hub, sub), at);
  }

  lemma TakeEvent(log: seq<BrainEvent>, store: Store, applied: seq<Stamped>, e: BrainEvent, now: string)
    requires TakenInOrder(log, store, applied)
    requires store.lastSeq < e.seqNo <= |log| && e == log[e.seqNo - 1]
    ensures TakenInOrder(log, Applied(store, e, now), applied + [Stamped(e, now)])
  {
    hide Effect;
    FoldSnoc(applied, Stamped(e, now));
    hide Fold;
    forall i | 0 <= i < |applied| ensures applied[i].event.seqNo < e.seqNo {
      assert i == |applied| - 1 || applied[i].event.seqNo < applied[|applied| - 1].event.seqNo;
    }
  }

  lemma MoreLogKeepsTaken(log: seq<BrainEvent>, x: BrainEvent, store: Store, applied: seq<Stamped>)
    requires TakenInOrder(log, store, applied)
    ensures TakenInOrder(log + [x], store, applied)
  {
    hide Fold;
  }

  lemma StepKeepsTaken(s: State, step: Step)
    requires Core(s) && Enabled(s, step) && !Early(step)
    ensures TakenInOrder(Next(s, step).log, Next(s, step).store, Next(s, step).applied)
  {
    hide Contents, Queues, Consistent, TakenInOrder, Effect, Fold, Wires;
    match step
    case PublishStep(e) => MoreLogKeepsTaken(s.log, Numbered(e, |s.log| + 1), s.store, s.applied);
    case Receive(k, now) =>
      var e := s.socks[k].wire[0];
      WireIsLogged(s, k, 0);
      if e.seqNo > s.store.lastSeq {
        TakeEvent(s.log, s.store, s.applied, e, now);
      }
    case NewSocket =>
    case Connect(_) =>
    case TakeStep(_) =>
    case End(_) =>
    case Cut(_) =>
  }

  // --- the three moves up to the registration ---

  lemma CopiedKeepsCore(s: State, g: nat)
    requires Core(s) && g < |s.subs| && s.subs[g].phase.Opened?
    ensures Core(Copied(s, g))
  {
    hide Contents, Queues, Consistent, TakenInOrder, Wires;
    CopiedKeepsContents(s, g);
    QuietKeepsWires(s, g, Copied(s, g).subs[g]);
  }

  lemma HandedOutKeepsCore(s: State, g: nat)
    requires Core(s) && g < |s.subs| && s.subs[g].phase.Replaying? && s.subs[g].phase.rest != []
    ensures Core(HandedOut(s, g))
  {
    hide Contents, Queues, Consistent, TakenInOrder, Wires, Sent;
    HandedOutKeepsContents(s, g);
    SentKeepsWires(s, g, s.subs[g].phase.rest[0], HandedOut(s, g).subs[g]);
  }

  lemma RegisteredKeepsCore(s: State, g: nat)
    requires Core(s) && g < |s.subs| && s.subs[g].phase == Replaying([])
    ensures Core(Registered(s, g))
  {
    hide Contents, Queues, TakenInOrder, Wires;
    assert Consistent(Registered(s, g).hub, s.log);
    hide Consistent;
    RegisteredKeepsContents(s, g);
    QuietKeepsWires(s, g, Registered(s, g).subs[g]);
    SameWires(s.(subs := Registered(s, g).subs), Registered(s, g));
  }

  lemma StepKeepsCore(s: State, step: Step)
    requires Core(s) && Enabled(s, step)
    ensures Core(Next(s, step))
  {
    hide Contents, Queues, Consistent, TakenInOrder, Wires, HandedOut, Registered;
    match step
    case SnapshotStep(g) =>
      var t := Copied(s, g);
      hide Core;
      CopiedKeepsCore(s, g);
      if t.subs[g].phase.rest == [] { RegisteredKeepsCore(t, g); } else { HandedOutKeepsCore(t, g); }
    case HandOut(g) => HandedOutKeepsCore(s, g);
    case RegisterStep(g) => RegisteredKeepsCore(s, g);
    case _ =>
      hide Next, Enabled;
      StepKeepsContents(s, step);
      StepKeepsWires(s, step);
      StepKeepsTaken(s, step);
  }

  lemma StepKeepsBegun(s: State, step: Step)
    requires Inv(s) && Enabled(s, step)
    ensures AllBegun(Next(s, step))
  {
    hide Queues, Consistent, TakenInOrder, Wires, Sent, LiveContent, Applied;
    if step.SnapshotStep? {
      var t := Copied(s, step.g);
      CopiedKeepsCore(s, step.g);
      assert Content(s.log, t.subs[step.g], QueueOf(s.hub, t.subs[step.g]), Fed(s.hub, t.subs[step.g]));
      OpenedGivesNothing(s, step.g);
    } else if step.RegisterStep? {
      var sub := s.subs[step.g];
      assert Begun(sub) && Content(s.log, sub, QueueOf(s.hub, sub), Fed(s.hub, sub));
      assert sub.given + [] == sub.given;
    }
  }

  lemma StepKeepsInv(s: State, step: Step)
    requires Inv(s)
    ensures Inv(Do(s, step))
  {
    if Enabled(s, step) {
      hide Core, AllBegun, Next, Enabled;
      StepKeepsCore(s, step);
      StepKeepsBegun(s, step);
    }
  }

  lemma {:induction false} EveryRunKeepsInv(steps: seq<Step>)
    ensures Inv(StateAfter(steps))
  {
    if steps == [] {
    } else {
      hide Inv, Do;
      EveryRunKeepsInv(steps[..|steps| - 1]);
      StepKeepsInv(StateAfter(steps[..|steps| - 1]), steps[|steps| - 1]);
    }
  }

  // ---------------------------------------------------------------------------
  // What holds of every interleaving
  // ---------------------------------------------------------------------------

  ghost predicate Increasing(events: seq<BrainEvent>) {
    forall i, j :: 0 <= i < j < |events| ==> events[i].seqNo < events[j].seqNo
  }

  /** The buffer is the last 1000 events, or all of them; the log is numbered from one. */
  lemma {:induction false} BufferHoldsLatest(steps: seq<Step>)
    ensures var s := StateAfter(steps);
      && s.hub.buffer == LastOf(s.log, BUFFER_CAPACITY)
      && s.hub.seqNo == |s.log|
      && forall i :: 0 <= i < |s.log| ==> s.log[i].seqNo == i + 1
  {
    EveryRunKeepsInv(steps);
  }

  /** The envelopes handed to the broadcaster in a run, in order. */
  function Published(steps: seq<Step>): seq<Envelope> {
    if steps == [] then []
    else
      var last := steps[|steps| - 1];
      Published(steps[..|steps| - 1]) + (if last.PublishStep? then [last.e] else [])
  }

  /** The i-th publish puts its own kind, persisted id and payload into the log, under number i; nothing else does. */
  lemma {:induction false} LogIsPublished(steps: seq<Step>)
    ensures var log, published := StateAfter(steps).log, Published(steps);
      && |log| == |published|
      && forall i :: 0 <= i < |log| ==>
           log[i] == BrainEvent(i + 1, published[i].kind, published[i].persistedId, published[i].payload)
  {
    if steps != [] {
      LogIsPublished(steps[..|steps| - 1]);
      StepLogs(StateAfter(steps[..|steps| - 1]), steps[|steps| - 1]);
      hide Do;
    }
  }

  lemma StepLogs(s: State, step: Step)
    ensures Do(s, step).log ==
      if step.PublishStep? then s.log + [BrainEvent(|s.log| + 1, step.e.kind, step.e.persistedId, step.e.payload)]
      else s.log
  {
    hide Applied, Attached, Sent, QueueOf;
  }

  /** Whatever a socket has in flight or the store took is, but for its number, what was published under it. */
  lemma {:induction false} PublishedArrivesUnchanged(steps: seq<Step>, e: BrainEvent)
    requires var s := StateAfter(steps);
      || (exists k, i :: 0 <= k < |s.socks| && 0 <= i < |s.socks[k].wire| && s.socks[k].wire[i] == e)
      || (exists i :: 0 <= i < |s.applied| && s.applied[i].event == e)
    ensures var published := Published(steps);
      && 0 < e.seqNo <= |published|
      && var p := published[e.seqNo - 1];
         e.kind == p.kind && e.persistedId == p.persistedId && e.payload == p.payload
  {
    hide StateAfter, Published, Core;
    var s := StateAfter(steps);
    EveryRunKeepsInv(steps);
    LogIsPublished(steps);
    if k, i :| 0 <= k < |s.socks| && 0 <= i < |s.socks[k].wire| && s.socks[k].wire[i] == e {
      WireIsLogged(s, k, i);
    } else {
      StoreTakesInOrder(steps);
      var i :| 0 <= i < |s.applied| && s.applied[i].event == e;
      hide Fold;
    }
  }

  /**
   * What a live subscription has handed out and queued is exactly the buffered events after `since` at
   * its snapshot, then the events published from its registration on, without a hole and in order.
   */
  lemma {:induction false} SubscriptionContent(steps: seq<Step>, g: nat)
    requires g < |StateAfter(steps).subs| && StateAfter(steps).subs[g].phase.Live?
    ensures var s := StateAfter(steps); var sub := s.subs[g]; var queue := QueueOf(s.hub, sub);
      && LiveContent(s.log, sub, queue, Fed(s.hub, sub))
      && Increasing(sub.given + queue)
      && forall x :: x in sub.given + queue ==> x.seqNo > sub.since || x.seqNo > sub.reg
  {
    var s := StateAfter(steps);
    EveryRunKeepsInv(steps);
    var sub := s.subs[g];
    assert Content(s.log, sub, QueueOf(s.hub, sub), Fed(s.hub, sub));
    assert forall i :: 0 <= i < |s.log| ==> s.log[i].seqNo == i + 1;
    LiveIncreasing(s.log, sub, QueueOf(s.hub, sub), Fed(s.hub, sub));
  }

  /** The numbers of the events of a live subscription, replayed and live. */
  lemma ContentNumbers(log: seq<BrainEvent>, sub: Subscription, queue: seq<BrainEvent>, fed: bool)
    requires LiveContent(log, sub, queue, fed)
    requires forall i :: 0 <= i < |log| ==> log[i].seqNo == i + 1
    ensures var all := sub.given + queue; var lo := Lo(sub.since, sub.snap); var r := sub.snap - lo;
      && 0 <= r <= |all| && sub.since <= sub.snap <= sub.reg
      && (forall i :: 0 <= i < r ==> all[i].seqNo == lo + 1 + i)
      && (forall i :: r <= i < |all| ==> all[i].seqNo == sub.reg + 1 + (i - r))
  {
    var lo, r := Lo(sub.since, sub.snap), |Replayed(log, sub.since, sub.snap)|;
    var all := sub.given + queue;
    var n := |all| - r;
    assert all == log[lo..sub.snap] + log[sub.reg..sub.reg + n];
    assert forall i :: 0 <= i < r ==> all[i] == log[lo + i];
    assert forall i :: r <= i < r + n ==> all[i] == log[sub.reg + (i - r)];
  }

  lemma LiveIncreasing(log: seq<BrainEvent>, sub: Subscription, queue: seq<BrainEvent>, fed: bool)
    requires LiveContent(log, sub, queue, fed)
    requires forall i :: 0 <= i < |log| ==> log[i].seqNo == i + 1
    ensures Increasing(sub.given + queue)
    ensures forall x :: x in sub.given + queue ==> x.seqNo > sub.since || x.seqNo > sub.reg
  {
    ContentNumbers(log, sub, queue, fed);
    hide LiveContent;
  }

  /** Whatever is cut, lost or delivered twice, the store takes events of the log, in order, each once at most. */
  lemma {:induction false} StoreTakesInOrder(steps: seq<Step>)
    ensures var s := StateAfter(steps); TakenInOrder(s.log, s.store, s.applied)
  {
    EveryRunKeepsInv(steps);
  }

  /** Every queue the broadcaster holds is read by a live subscription. */
  ghost predicate NoneLeaked(h: Hub, subs: seq<Subscription>) {
    h.subscribers <= h.queues.Keys
    && forall q :: q in h.queues ==> exists g :: 0 <= g < |subs| && subs[g].phase == Live(q)
  }

  lemma StepLeaksNothing(s: State, step: Step)
    requires NoneLeaked(s.hub, s.subs) && Queues(s.hub, s.subs)
    ensures NoneLeaked(Do(s, step).hub, Do(s, step).subs)
  {
    hide Applied, Attached, Sent, Queues;
    var t := Do(s, step);
    forall q | q in t.hub.queues ensures exists g :: 0 <= g < |t.subs| && t.subs[g].phase == Live(q) {
      if q in s.hub.queues {
        var g :| 0 <= g < |s.subs| && s.subs[g].phase == Live(q);
        assert t.subs[g].phase == Live(q);
      } else {
        assert t.subs[if step.SnapshotStep? then step.g else if step.RegisterStep? then step.g else 0].phase == Live(q);
      }
    }
  }

  /** In every interleaving an ended subscription leaves no queue behind. */
  lemma {:induction false} QueuesAreRead(steps: seq<Step>)
    ensures NoneLeaked(StateAfter(steps).hub, StateAfter(steps).subs)
  {
    hide NoneLeaked, Do, Core;
    if steps == [] {
      NoneLeakedAtStart();
    } else {
      var init := steps[..|steps| - 1];
      QueuesAreRead(init);
      EveryRunKeepsInv(init);
      assert Queues(StateAfter(init).hub, StateAfter(init).subs) by { CoreQueues(StateAfter(init)); }
      StepLeaksNothing(StateAfter(init), steps[|steps| - 1]);
    }
  }

  lemma NoneLeakedAtStart()
    ensures NoneLeaked(START.hub, START.subs)
  {
  }

  lemma CoreQueues(s: State)
    requires Core(s)
    ensures Queues(s.hub, s.subs)
  {
    hide Queues, Consistent, Contents, Wires, TakenInOrder;
  }

  // ---------------------------------------------------------------------------
  // When nothing is lost
  // ---------------------------------------------------------------------------

  predicate HandingOut(s: State) {
    exists k :: 0 <= k < |s.socks| && s.socks[k].conn.Some? && s.socks[k].conn.value < |s.subs|
                && s.subs[s.socks[k].conn.value].phase.Replaying?
  }

  /** What the buffer no longer holds is covered by `since`, or has reached the store by another socket. */
  predicate Covered(s: State, g: nat)
    requires g < |s.subs|
  {
    |s.log| <= s.subs[g].since + BUFFER_CAPACITY || |s.log| <= s.store.lastSeq + BUFFER_CAPACITY
  }

  /** Nothing is published while a connected subscription hands out its replay; every snapshot is covered. */
  predicate Calm(s: State, step: Step) {
    match step
    case PublishStep(_) => !HandingOut(s)
    case SnapshotStep(g) => g < |s.subs| && Attached(s, g) ==> Covered(s, g)
    case _ => true
  }

  ghost predicate CalmRun(steps: seq<Step>) {
    forall i :: 0 <= i < |steps| ==> Calm(StateAfter(steps[..i]), steps[i])
  }

  /** A connected socket's next event is at most one past what the store has. */
  ghost predicate NoGapAhead(log: seq<BrainEvent>, last: nat, sub: Subscription, sock: Client) {
    && |sock.wire| <= |sub.given|
    && (sub.phase.Replaying? ==> sub.snap == |log|)
    && (sub.phase.Live? ==> sub.reg == sub.snap)
    && ((sub.phase.Replaying? || sub.phase.Live?) ==> Lo(sub.since, sub.snap) + |sub.given| - |sock.wire| <= last)
  }

  ghost predicate NoGaps(s: State) {
    forall k :: 0 <= k < |s.socks| && s.socks[k].conn.Some? ==>
      s.socks[k].conn.value < |s.subs|
      && NoGapAhead(s.log, s.store.lastSeq, s.subs[s.socks[k].conn.value], s.socks[k])
  }

  /** The events taken are those of the log from its start, none missing. */
  ghost predicate Prefix(log: seq<BrainEvent>, store: Store, applied: seq<Stamped>) {
    && store == Fold(applied)
    && store.lastSeq == |applied| <= |log|
    && forall i :: 0 <= i < |applied| ==> applied[i].event == log[i]
  }

  /** The store is the fold of events 1 to lastSeq of the log, each applied once, in order. */
  ghost predicate ExactlyOnce(s: State) { Prefix(s.log, s.store, s.applied) }

  ghost predicate CalmInv(s: State) { Inv(s) && NoGaps(s) && ExactlyOnce(s) }

  /** Without gaps, the n-th event handed out is the n-th of the log counted from the start of the replay. */
  lemma GivenIsContiguous(log: seq<BrainEvent>, sub: Subscription, queue: seq<BrainEvent>, fed: bool, i: nat)
    requires Content(log, sub, queue, fed) && !sub.phase.Ended? && i < |sub.given|
    requires sub.phase.Live? ==> sub.reg == sub.snap
    ensures !sub.phase.Opened? && Lo(sub.since, sub.snap) + i < |log|
         && sub.given[i] == log[Lo(sub.since, sub.snap) + i]
  {
    var r := Replayed(log, sub.since, sub.snap);
    match sub.phase
    case Opened =>
    case Replaying(rest) =>
      assert sub.given[i] == (sub.given + rest)[i];
    case Live(_) =>
      assert sub.given[i] == (sub.given + queue)[i];
    case Ended =>
  }

  lemma NextOnWire(log: seq<BrainEvent>, last: nat, sub: Subscription, sock: Client, queue: seq<BrainEvent>, fed: bool)
    requires Content(log, sub, queue, fed) && !sub.phase.Ended?
    requires NoGapAhead(log, last, sub, sock)
    requires sock.wire != [] && sock.wire == sub.given[|sub.given| - |sock.wire|..]
    requires forall i :: 0 <= i < |log| ==> log[i].seqNo == i + 1
    ensures var e := sock.wire[0];
      && 0 < e.seqNo <= last + 1 && e.seqNo <= |log| && e == log[e.seqNo - 1]
      && e.seqNo == Lo(sub.since, sub.snap) + |sub.given| - |sock.wire| + 1
    ensures !sub.phase.Opened?
  {
    hide Content, Lo;
    GivenIsContiguous(log, sub, queue, fed, |sub.given| - |sock.wire|);
  }

  /** What the invariant says of one connected socket. */
  lemma SocketFacts(s: State, k: nat)
    requires Inv(s) && k < |s.socks| && s.socks[k].wire != []
    ensures Wired(s.subs, s.socks[k], s.store.lastSeq)
    ensures s.socks[k].conn.Some? && s.socks[k].conn.value < |s.subs|
    ensures var sub := s.subs[s.socks[k].conn.value]; var wire := s.socks[k].wire;
      && !sub.phase.Ended? && |wire| <= |sub.given| && wire == sub.given[|sub.given| - |wire|..]
      && Content(s.log, sub, QueueOf(s.hub, sub), Fed(s.hub, sub))
    ensures forall i :: 0 <= i < |s.log| ==> s.log[i].seqNo == i + 1
  {
    hide Content, Queues, TakenInOrder;
    assert Wired(s.subs, s.socks[k], s.store.lastSeq);
  }

  /** The event a socket receives next is the one after the store's, or one the store already has. */
  lemma NextReceived(s: State, k: nat)
    requires Inv(s) && NoGaps(s) && k < |s.socks| && s.socks[k].wire != []
    ensures s.socks[k].conn.Some? && s.socks[k].conn.value < |s.subs|
    ensures var e := s.socks[k].wire[0]; var sub := s.subs[s.socks[k].conn.value];
      && 0 < e.seqNo <= s.store.lastSeq + 1 && e.seqNo <= |s.log| && e == s.log[e.seqNo - 1]
      && e.seqNo == Lo(sub.since, sub.snap) + |sub.given| - |s.socks[k].wire| + 1
      && !sub.phase.Opened?
  {
    hide Inv, Content, Lo, Wired;
    SocketFacts(s, k);
    var sub := s.subs[s.socks[k].conn.value];
    NextOnWire(s.log, s.store.lastSeq, sub, s.socks[k], QueueOf(s.hub, sub), Fed(s.hub, sub));
  }

  lemma ReceiveLeavesNoGaps(s: State, k: nat, now: string)
    requires CalmInv(s) && Enabled(s, Receive(k, now))
    ensures NoGaps(Next(s, Receive(k, now)))
  {
    hide Inv, ExactlyOnce, Applied, Lo;
    NextReceived(s, k);
    var t := Next(s, Receive(k, now));
    AppliedLastSeq(s.store, s.socks[k].wire[0], now);
    forall j | 0 <= j < |t.socks| && t.socks[j].conn.Some?
      ensures t.socks[j].conn.value < |t.subs|
      ensures NoGapAhead(t.log, t.store.lastSeq, t.subs[t.socks[j].conn.value], t.socks[j])
    {
      assert NoGapAhead(s.log, s.store.lastSeq, s.subs[s.socks[j].conn.value], s.socks[j]);
    }
  }

  lemma TakeNext(log: seq<BrainEvent>, store: Store, applied: seq<Stamped>, e: BrainEvent, now: string)
    requires Prefix(log, store, applied)
    requires e.seqNo == store.lastSeq + 1 <= |log| && e == log[e.seqNo - 1]
    ensures Prefix(log, Applied(store, e, now), applied + [Stamped(e, now)])
  {
    FoldSnoc(applied, Stamped(e, now));
    AppliedLastSeq(store, e, now);
    hide Fold, Effect;
    assert Applied(store, e, now) == Effect(store, e, now).(lastSeq := e.seqNo);
  }

  lemma ReceiveIsExact(s: State, k: nat, now: string)
    requires CalmInv(s) && Enabled(s, Receive(k, now))
    ensures ExactlyOnce(Next(s, Receive(k, now)))
  {
    hide Inv, NoGaps, Effect, Lo, Fold, Prefix;
    NextReceived(s, k);
    var e := s.socks[k].wire[0];
    assert Prefix(s.log, s.store, s.applied);
    if e.seqNo > s.store.lastSeq {
      TakeNext(s.log, s.store, s.applied, e, now);
    }
  }

  lemma SameGaps(s: State, t: State)
    requires NoGaps(s) && t.log == s.log && t.store.lastSeq == s.store.lastSeq
    requires |t.socks| >= |s.socks| && |t.subs| >= |s.subs|
    requires forall k :: 0 <= k < |t.socks| && t.socks[k].conn.Some? ==>
      && k < |s.socks| && t.socks[k] == s.socks[k]
      && (t.socks[k].conn.value < |s.subs| ==> t.subs[t.socks[k].conn.value] == s.subs[t.socks[k].conn.value])
    ensures NoGaps(t)
  {
    forall k | 0 <= k < |t.socks| && t.socks[k].conn.Some?
      ensures t.socks[k].conn.value < |t.subs|
      ensures NoGapAhead(t.log, t.store.lastSeq, t.subs[t.socks[k].conn.value], t.socks[k])
    {
      assert NoGapAhead(s.log, s.store.lastSeq, s.subs[s.socks[k].conn.value], s.socks[k]);
    }
  }

  /** One subscription moves on; a socket connected to it may get one more event in flight. */
  lemma MoveLeavesNoGaps(s: State, g: nat, sub: Subscription, socks: seq<Client>)
    requires NoGaps(s) && g < |s.subs| && |socks| == |s.socks|
    requires forall k :: 0 <= k < |socks| ==>
      socks[k].conn == s.socks[k].conn && (socks[k].conn != Some(g) ==> socks[k] == s.socks[k])
    requires forall k :: 0 <= k < |socks| && socks[k].conn == Some(g) ==>
      NoGapAhead(s.log, s.store.lastSeq, sub, socks[k])
    ensures NoGaps(s.(subs := s.subs[g := sub], socks := socks))
  {
    hide NoGapAhead;
    var t := s.(subs := s.subs[g := sub], socks := socks);
    forall k | 0 <= k < |t.socks| && t.socks[k].conn.Some?
      ensures t.socks[k].conn.value < |t.subs|
      ensures NoGapAhead(t.log, t.store.lastSeq, t.subs[t.socks[k].conn.value], t.socks[k])
    {
      assert NoGapAhead(s.log, s.store.lastSeq, s.subs[s.socks[k].conn.value], s.socks[k]);
    }
  }

  lemma AttachedFacts(s: State, k: nat, g: nat)
    requires Core(s) && NoGaps(s) && k < |s.socks| && s.socks[k].conn == Some(g)
    ensures g < |s.subs| && s.subs[g].since <= s.store.lastSeq
    ensures NoGapAhead(s.log, s.store.lastSeq, s.subs[g], s.socks[k])
    ensures |s.socks[k].wire| <= |s.subs[g].given| && Attached(s, g)
  {
    hide Contents, Queues, Consistent, TakenInOrder;
    assert Wired(s.subs, s.socks[k], s.store.lastSeq);
  }

  lemma OpenedGivesNothing(s: State, g: nat)
    requires Core(s) && g < |s.subs| && s.subs[g].phase.Opened?
    ensures s.subs[g].given == []
  {
    hide Queues, Consistent, TakenInOrder, Wires;
    assert Content(s.log, s.subs[g], QueueOf(s.hub, s.subs[g]), Fed(s.hub, s.subs[g]));
  }

  lemma CopiedLeavesNoGaps(s: State, g: nat)
    requires Core(s) && NoGaps(s) && g < |s.subs| && s.subs[g].phase.Opened? && (Attached(s, g) ==> Covered(s, g))
    ensures NoGaps(Copied(s, g))
  {
    hide Core, NoGaps, Attached;
    var t := Copied(s, g);
    OpenedGivesNothing(s, g);
    forall k | 0 <= k < |s.socks| && s.socks[k].conn == Some(g)
      ensures NoGapAhead(s.log, s.store.lastSeq, t.subs[g], s.socks[k])
    {
      AttachedFacts(s, k, g);
    }
    hide NoGapAhead;
    MoveLeavesNoGaps(s, g, t.subs[g], s.socks);
  }

  lemma HandedOutLeavesNoGaps(s: State, g: nat)
    requires Core(s) && NoGaps(s) && g < |s.subs| && s.subs[g].phase.Replaying? && s.subs[g].phase.rest != []
    ensures NoGaps(HandedOut(s, g))
  {
    hide Core, NoGaps, Attached, Lo;
    var t := HandedOut(s, g);
    forall k | 0 <= k < |t.socks| && t.socks[k].conn == Some(g)
      ensures NoGapAhead(s.log, s.store.lastSeq, t.subs[g], t.socks[k])
    {
      AttachedFacts(s, k, g);
    }
    hide NoGapAhead;
    MoveLeavesNoGaps(s, g, t.subs[g], t.socks);
  }

  lemma RegisteredLeavesNoGaps(s: State, g: nat)
    requires Core(s) && NoGaps(s) && g < |s.subs| && s.subs[g].phase == Replaying([])
    ensures NoGaps(Registered(s, g))
  {
    hide Core, NoGaps, Attached, Lo;
    var t := Registered(s, g);
    forall k | 0 <= k < |s.socks| && s.socks[k].conn == Some(g)
      ensures NoGapAhead(s.log, s.store.lastSeq, t.subs[g], s.socks[k])
    {
      AttachedFacts(s, k, g);
    }
    hide NoGapAhead;
    MoveLeavesNoGaps(s, g, t.subs[g], s.socks);
    SameGaps(s.(subs := t.subs), t);
  }

  lemma SnapshotLeavesNoGaps(s: State, g: nat)
    requires CalmInv(s) && Enabled(s, SnapshotStep(g)) && Calm(s, SnapshotStep(g))
    ensures NoGaps(Next(s, SnapshotStep(g)))
  {
    hide Core, NoGaps, Attached, Covered, HandedOut, Registered, ExactlyOnce, AllBegun;
    var t := Copied(s, g);
    CopiedKeepsCore(s, g);
    CopiedLeavesNoGaps(s, g);
    if t.subs[g].phase.rest == [] { RegisteredLeavesNoGaps(t, g); } else { HandedOutLeavesNoGaps(t, g); }
  }

  lemma TakeLeavesNoGaps(s: State, g: nat)
    requires CalmInv(s) && Enabled(s, TakeStep(g))
    ensures NoGaps(Next(s, TakeStep(g)))
  {
    hide Core, AllBegun, ExactlyOnce, NoGaps, Attached, Lo;
    var t := Next(s, TakeStep(g));
    forall k | 0 <= k < |t.socks| && t.socks[k].conn == Some(g)
      ensures NoGapAhead(s.log, s.store.lastSeq, t.subs[g], t.socks[k])
    {
      AttachedFacts(s, k, g);
    }
    hide NoGapAhead;
    MoveLeavesNoGaps(s, g, t.subs[g], t.socks);
    SameGaps(s.(subs := t.subs, socks := t.socks), t);
  }

  lemma EndLeavesNoGaps(s: State, g: nat)
    requires CalmInv(s) && Enabled(s, End(g))
    ensures NoGaps(Next(s, End(g)))
  {
    hide Inv, ExactlyOnce, NoGaps, NoGapAhead;
    var t := Next(s, End(g));
    assert forall k :: 0 <= k < |s.socks| ==> s.socks[k].conn != Some(g);
    MoveLeavesNoGaps(s, g, t.subs[g], s.socks);
    SameGaps(s.(subs := t.subs), t);
  }

  lemma PublishLeavesNoGaps(s: State, e: Envelope)
    requires CalmInv(s) && Calm(s, PublishStep(e))
    ensures NoGaps(Next(s, PublishStep(e)))
  {
    hide Inv, ExactlyOnce, Lo;
    var t := Next(s, PublishStep(e));
    forall k | 0 <= k < |t.socks| && t.socks[k].conn.Some?
      ensures t.socks[k].conn.value < |t.subs|
      ensures NoGapAhead(t.log, t.store.lastSeq, t.subs[t.socks[k].conn.value], t.socks[k])
    {
      assert NoGapAhead(s.log, s.store.lastSeq, s.subs[s.socks[k].conn.value], s.socks[k]);
      assert !s.subs[s.socks[k].conn.value].phase.Replaying?;
    }
  }

  lemma ConnectLeavesNoGaps(s: State, k: nat)
    requires CalmInv(s) && Enabled(s, Connect(k))
    ensures NoGaps(Next(s, Connect(k)))
  {
    hide Inv, ExactlyOnce, Lo;
    var t := Next(s, Connect(k));
    forall j | 0 <= j < |t.socks| && t.socks[j].conn.Some?
      ensures t.socks[j].conn.value < |t.subs|
      ensures NoGapAhead(t.log, t.store.lastSeq, t.subs[t.socks[j].conn.value], t.socks[j])
    {
      if j != k {
        assert NoGapAhead(s.log, s.store.lastSeq, s.subs[s.socks[j].conn.value], s.socks[j]);
      }
    }
  }

  lemma CalmStepKeepsInv(s: State, step: Step)
    requires CalmInv(s) && Calm(s, step)
    ensures CalmInv(Do(s, step))
  {
    StepKeepsInv(s, step);
    if Enabled(s, step) {
      CalmStepLeavesNoGaps(s, step);
      CalmStepIsExact(s, step);
    }
  }

  lemma CalmStepLeavesNoGaps(s: State, step: Step)
    requires CalmInv(s) && Calm(s, step) && Enabled(s, step)
    ensures NoGaps(Next(s, step))
  {
    hide Core, AllBegun, ExactlyOnce, NoGapAhead, Calm, Applied, Attached, HandedOut, Registered, Copied;
    match step
    case PublishStep(e) => PublishLeavesNoGaps(s, e);
    case NewSocket => SameGaps(s, Next(s, step));
    case Connect(k) => ConnectLeavesNoGaps(s, k);
    case SnapshotStep(g) => SnapshotLeavesNoGaps(s, g);
    case HandOut(g) => HandedOutLeavesNoGaps(s, g);
    case RegisterStep(g) => RegisteredLeavesNoGaps(s, g);
    case TakeStep(g) => TakeLeavesNoGaps(s, g);
    case End(g) => EndLeavesNoGaps(s, g);
    case Receive(k, now) => ReceiveLeavesNoGaps(s, k, now);
    case Cut(k) => SameGaps(s, Next(s, step));
  }

  lemma CalmStepIsExact(s: State, step: Step)
    requires CalmInv(s) && Enabled(s, step)
    ensures ExactlyOnce(Next(s, step))
  {
    hide Inv, NoGaps, Fold, Applied;
    if step.Receive? {
      hide Prefix;
      ReceiveIsExact(s, step.k, step.now);
    }
  }

  lemma {:induction false} CalmRunKeepsInv(steps: seq<Step>)
    requires CalmRun(steps)
    ensures CalmInv(StateAfter(steps))
  {
    hide CalmInv, Do, Calm;
    if steps == [] {
      StartIsCalm();
    } else {
      var init, last := steps[..|steps| - 1], steps[|steps| - 1];
      forall i | 0 <= i < |init| ensures Calm(StateAfter(init[..i]), init[i]) {
        assert init[..i] == steps[..i];
        assert Calm(StateAfter(steps[..i]), steps[i]);
      }
      CalmRunKeepsInv(init);
      CalmStepKeepsInv(StateAfter(init), last);
    }
  }

  lemma StartIsCalm()
    ensures CalmInv(START)
  {
  }

  /**
   * End to end: for every interleaving of publishes, cuts and reconnects on any number of sockets in which
   * every snapshot is covered and no publish falls into a hand-out, the store is the fold of the events
   * 1 to lastSeq of the log, each applied once.
   */
  lemma {:induction false} EndToEndExactlyOnce(steps: seq<Step>)
    requires CalmRun(steps)
    ensures ExactlyOnce(StateAfter(steps))
    ensures var applied, published := StateAfter(steps).applied, Published(steps);
      |applied| <= |published|
      && forall i :: 0 <= i < |applied| ==>
           var p := published[i]; applied[i].event == BrainEvent(i + 1, p.kind, p.persistedId, p.payload)
  {
    hide Inv, NoGaps, StateAfter, Published, Fold;
    CalmRunKeepsInv(steps);
    LogIsPublished(steps);
  }

  /** ... and once a fed socket has drained its queue and its wire, the store has the whole log. */
  lemma {:induction false} DrainedSocketHasCaughtUp(steps: seq<Step>, k: nat)
    requires CalmRun(steps)
    requires var s := StateAfter(steps);
      && k < |s.socks| && s.socks[k].conn.Some? && s.socks[k].wire == []
      && s.socks[k].conn.value < |s.subs|
      && var sub := s.subs[s.socks[k].conn.value]; Fed(s.hub, sub) && QueueOf(s.hub, sub) == []
    ensures var s := StateAfter(steps); |s.applied| == |s.log| && s.store == Fold(s.applied)
  {
    hide CalmInv, StateAfter, CalmRun;
    CalmRunKeepsInv(steps);
    CaughtUp(StateAfter(steps), k, StateAfter(steps).socks[k].conn.value);
  }

  lemma CaughtUp(s: State, k: nat, g: nat)
    requires CalmInv(s) && k < |s.socks| && s.socks[k].conn == Some(g) && s.socks[k].wire == []
    requires g < |s.subs| && Fed(s.hub, s.subs[g]) && QueueOf(s.hub, s.subs[g]) == []
    ensures |s.applied| == |s.log| && s.store == Fold(s.applied)
  {
    hide NoGaps, Queues, Consistent, TakenInOrder, Wires, Fold;
    var sub := s.subs[g];
    assert Content(s.log, sub, QueueOf(s.hub, sub), Fed(s.hub, sub));
    hide Inv;
    AttachedFacts(s, k, g);
  }

  // ---------------------------------------------------------------------------
  // When something is lost
  // ---------------------------------------------------------------------------

  ghost predicate Gapless(events: seq<BrainEvent>, since: nat) {
    forall i :: 0 <= i < |events| ==> events[i].seqNo == since + 1 + i
  }

  /**
   * In every interleaving, a live subscription continues from `since` without a hole exactly when the buffer still
   * held what came after `since` at the snapshot, and nothing was published before the registration or nothing came
   * after it.
   */
  lemma {:induction false} GaplessExactly(steps: seq<Step>, g: nat)
    requires g < |StateAfter(steps).subs| && StateAfter(steps).subs[g].phase.Live?
    ensures var s := StateAfter(steps); var sub := s.subs[g]; var queue := QueueOf(s.hub, sub);
      Gapless(sub.given + queue, sub.since)
      <==> && sub.snap <= sub.since + BUFFER_CAPACITY
           && (sub.reg == sub.snap || |sub.given + queue| == sub.snap - sub.since)
  {
    hide StateAfter, Gapless, LiveContent;
    var s := StateAfter(steps);
    var sub := s.subs[g];
    EveryRunKeepsInv(steps);
    assert Content(s.log, sub, QueueOf(s.hub, sub), Fed(s.hub, sub));
    assert forall i :: 0 <= i < |s.log| ==> s.log[i].seqNo == i + 1;
    hide Inv, Content;
    GaplessContent(s.log, sub, QueueOf(s.hub, sub), Fed(s.hub, sub));
  }

  lemma GaplessContent(log: seq<BrainEvent>, sub: Subscription, queue: seq<BrainEvent>, fed: bool)
    requires LiveContent(log, sub, queue, fed)
    requires forall i :: 0 <= i < |log| ==> log[i].seqNo == i + 1
    ensures Gapless(sub.given + queue, sub.since)
       <==> && sub.snap <= sub.since + BUFFER_CAPACITY
            && (sub.reg == sub.snap || |sub.given + queue| == sub.snap - sub.since)
  {
    ContentNumbers(log, sub, queue, fed);
    hide LiveContent;
    var all, r := sub.given + queue, sub.snap - Lo(sub.since, sub.snap);
    if sub.snap > sub.since + BUFFER_CAPACITY {
      assert all[0].seqNo != sub.since + 1;
    } else if |all| > r && sub.reg != sub.snap {
      assert all[r].seqNo != sub.since + 1 + r;
    }
  }

  /** A subscription with nothing to replay is registered in the same breath, and misses nothing. */
  lemma {:induction false} EmptyReplayMissesNothing(steps: seq<Step>, g: nat)
    requires g < |StateAfter(steps).subs| && StateAfter(steps).subs[g].phase.Live?
    requires var sub := StateAfter(steps).subs[g]; Lo(sub.since, sub.snap) == sub.snap
    ensures StateAfter(steps).subs[g].reg == StateAfter(steps).subs[g].snap
  {
    hide StateAfter, Core, Lo;
    EveryRunKeepsInv(steps);
    assert Begun(StateAfter(steps).subs[g]);
  }

  /**
   * What ends the feeding of a live subscription: a publish that finds 2000 events waiting in its queue, and nothing
   * else while the subscription lives.
   */
  lemma {:induction false} FedUntilOverflow(steps: seq<Step>, step: Step, g: nat)
    requires var s := StateAfter(steps);
      g < |s.subs| && s.subs[g].phase.Live? && Enabled(s, step) && step != End(g)
    ensures var s := StateAfter(steps); var t := Next(s, step);
      g < |t.subs| && t.subs[g].phase == s.subs[g].phase
      && (Fed(t.hub, t.subs[g])
          <==> Fed(s.hub, s.subs[g]) && !(step.PublishStep? && |QueueOf(s.hub, s.subs[g])| >= QUEUE_CAPACITY))
  {
    hide StateAfter, Contents, Wires, TakenInOrder, AllBegun, Applied, Sent;
    EveryRunKeepsInv(steps);
    var s := StateAfter(steps);
    assert s.subs[g].phase.queue in s.hub.queues && s.subs[g].phase.queue < s.hub.nextQueue;
  }

  function Doing(s: State, steps: seq<Step>): State
    decreases |steps|
  {
    if steps == [] then s else Doing(Do(s, steps[0]), steps[1..])
  }

  lemma {:induction false} DoingSnoc(s: State, steps: seq<Step>, step: Step)
    ensures Doing(s, steps + [step]) == Do(Doing(s, steps), step)
    decreases |steps|
  {
    hide Do;
    if steps == [] {
      assert [step][1..] == [];
    } else {
      assert (steps + [step])[1..] == steps[1..] + [step];
      DoingSnoc(Do(s, steps[0]), steps[1..], step);
    }
  }

  lemma {:induction false} AfterConcat(before: seq<Step>, after: seq<Step>)
    ensures StateAfter(before + after) == Doing(StateAfter(before), after)
    decreases |after|
  {
    hide Do;
    if after == [] {
      assert before + after == before;
    } else {
      var init := after[..|after| - 1];
      assert (before + after)[..|before + after| - 1] == before + init;
      AfterConcat(before, init);
      DoingSnoc(StateAfter(before), init, after[|after| - 1]);
      assert init + [after[|after| - 1]] == after;
    }
  }

  /** The store is past number n without ever having taken it. */
  ghost predicate Skipped(s: State, n: nat) {
    n < s.store.lastSeq && forall i :: 0 <= i < |s.applied| ==> s.applied[i].event.seqNo != n
  }

  /** What the store has skipped it never takes, whatever happens next. */
  lemma {:induction false} SkippedForGood(before: seq<Step>, after: seq<Step>, n: nat)
    requires Skipped(StateAfter(before), n)
    ensures Skipped(StateAfter(before + after), n)
    decreases |after|
  {
    hide Do, Skipped;
    if after == [] {
      assert before + after == before;
    } else {
      var init := after[..|after| - 1];
      assert (before + after)[..|before + after| - 1] == before + init;
      SkippedForGood(before, init, n);
      StepKeepsSkipped(StateAfter(before + init), after[|after| - 1], n);
    }
  }

  lemma StepKeepsSkipped(s: State, step: Step, n: nat)
    requires Skipped(s, n)
    ensures Skipped(Do(s, step), n)
  {
    hide Applied;
    if Enabled(s, step) && step.Receive? {
      AppliedLastSeq(s.store, s.socks[step.k].wire[0], step.now);
    }
  }

  /** Five steps in which an event falls into the window between the replay and the registration. */
  function WindowSteps(k: nat, g: nat, lost: Envelope, later: Envelope, now: string): seq<Step> {
    [PublishStep(lost), RegisterStep(g), PublishStep(later), TakeStep(g), Receive(k, now)]
  }

  /** The store takes an event beyond the next one: what lies between is skipped. */
  lemma TakingBeyondSkips(s: State, k: nat, now: string, n: nat)
    requires Enabled(s, Receive(k, now)) && s.store.lastSeq < n < s.socks[k].wire[0].seqNo
    requires forall i :: 0 <= i < |s.applied| ==> s.applied[i].event.seqNo < n
    ensures Skipped(Do(s, Receive(k, now)), n)
  {
    hide Applied;
    AppliedLastSeq(s.store, s.socks[k].wire[0], now);
  }

  lemma PublishFacts(s: State, e: Envelope)
    requires Inv(s)
    ensures var t := Do(s, PublishStep(e));
      && t.hub.seqNo == |t.log| == |s.log| + 1
      && t.subs == s.subs && t.socks == s.socks && t.store == s.store && t.applied == s.applied
  {
    hide Contents, Queues, Wires, TakenInOrder, AllBegun;
    SeqNoIsLength(s.hub, s.log);
  }

  lemma RegisterThenPublish(s: State, g: nat, e: Envelope)
    requires Enabled(s, RegisterStep(g)) && s.hub.seqNo == |s.log|
    ensures var t := Do(Do(s, RegisterStep(g)), PublishStep(e));
      && t.socks == s.socks && t.applied == s.applied && t.store == s.store && g < |t.subs|
      && QueueOf(t.hub, t.subs[g]) == [Numbered(e, |s.log| + 1)]
  {
    var s1 := Do(s, RegisterStep(g));
    var q := s.hub.nextQueue;
    assert s1.hub.queues[q] == [] && q in s1.hub.subscribers && s1.hub.HasRoom(q);
    assert s1.hub.Publish(e).queues[q] == [Numbered(e, |s.log| + 1)];
  }

  lemma TakeToWire(s: State, k: nat, g: nat, e: BrainEvent)
    requires g < |s.subs| && k < |s.socks| && QueueOf(s.hub, s.subs[g]) == [e]
    requires s.socks[k].conn == Some(g) && s.socks[k].wire == []
    ensures var t := Do(s, TakeStep(g));
      && t.applied == s.applied && t.store == s.store && k < |t.socks| && t.socks[k].wire == [e]
  {
  }

  /** After every run that leaves a socket caught up at the end of its replay, those five steps lose the event. */
  lemma {:induction false} PublishInWindowIsLost(before: seq<Step>, k: nat, g: nat, lost: Envelope, later: Envelope,
                                                 now: string)
    requires var s := StateAfter(before);
      && k < |s.socks| && g < |s.subs| && s.socks[k].conn == Some(g) && s.socks[k].wire == []
      && s.subs[g].phase == Replaying([]) && s.store.lastSeq == |s.log|
    ensures Skipped(StateAfter(before + WindowSteps(k, g, lost, later, now)), |StateAfter(before).log| + 1)
  {
    hide StateAfter, Inv, Do, Skipped, QueueOf;
    var s := StateAfter(before);
    EveryRunKeepsInv(before);
    AfterConcat(before, WindowSteps(k, g, lost, later, now));
    NotYetTaken(s, |s.log| + 1);
    PublishFacts(s, lost);
    var s1 := Do(s, PublishStep(lost));
    RegisterThenPublish(s1, g, later);
    var s3 := Do(Do(s1, RegisterStep(g)), PublishStep(later));
    TakeToWire(s3, k, g, Numbered(later, |s.log| + 2));
    TakingBeyondSkips(Do(s3, TakeStep(g)), k, now, |s.log| + 1);
    FiveSteps(s, PublishStep(lost), RegisterStep(g), PublishStep(later), TakeStep(g), Receive(k, now));
  }

  /** One event is published, replayed to a new socket and received. */
  function ReplayingRun(first: Envelope, now: string): seq<Step> {
    [PublishStep(first), NewSocket, Connect(0), SnapshotStep(0), Receive(0, now)]
  }

  /** A run of ten steps from the start in which event 2 is lost. */
  lemma TenStepsLoseAnEvent(first: Envelope, lost: Envelope, later: Envelope, now: string)
    ensures Skipped(StateAfter(ReplayingRun(first, now) + WindowSteps(0, 0, lost, later, now)), 2)
  {
    ReplayedRun(first, now);
    hide StateAfter, Skipped;
    PublishInWindowIsLost(ReplayingRun(first, now), 0, 0, lost, later, now);
  }

  lemma ReplayedRun(first: Envelope, now: string)
    ensures var s := StateAfter(ReplayingRun(first, now));
      && |s.socks| == |s.subs| == 1 && s.socks[0].conn == Some(0) && s.socks[0].wire == []
      && s.subs[0].phase == Replaying([]) && s.store.lastSeq == |s.log| == 1
  {
    AfterConcat([], ReplayingRun(first, now));
    assert [] + ReplayingRun(first, now) == ReplayingRun(first, now);
    hide Do, Doing, Applied;
    FiveSteps(START, PublishStep(first), NewSocket, Connect(0), SnapshotStep(0), Receive(0, now));
    FirstConnected(first);
    FirstReplayed(Numbered(first, 1));
    FirstReceived(Numbered(first, 1), now);
  }

  /** One event published, and one socket with one subscription. */
  function OneEach(e: BrainEvent, sub: Subscription, client: Client): State {
    State([e], Hub(1, [e], map[], {}, 0), [sub], [client], INITIAL, [])
  }

  lemma FirstConnected(first: Envelope)
    ensures Do(Do(Do(START, PublishStep(first)), NewSocket), Connect(0))
         == OneEach(Numbered(first, 1), Subscription(0, 0, 0, [], Opened), Client(0, Some(0), []))
  {
    var s1 := Do(START, PublishStep(first));
    assert s1.hub == Hub(1, [Numbered(first, 1)], map[], {}, 0);
  }

  lemma FirstReplayed(e: BrainEvent)
    requires e.seqNo == 1
    ensures Do(OneEach(e, Subscription(0, 0, 0, [], Opened), Client(0, Some(0), [])), SnapshotStep(0))
         == OneEach(e, Subscription(0, 1, 0, [e], Replaying([])), Client(0, Some(0), [e]))
  {
    AfterOne(e);
    hide After;
    var s := OneEach(e, Subscription(0, 0, 0, [], Opened), Client(0, Some(0), []));
    assert Copied(s, 0).subs == [Subscription(0, 1, 0, [], Replaying([e]))];
    assert s.socks[0].wire + [e] == [e];
    assert Sent(s.socks, 0, e) == [Client(0, Some(0), [e])];
  }

  lemma FirstReceived(e: BrainEvent, now: string)
    requires e.seqNo == 1
    ensures var sub := Subscription(0, 1, 0, [e], Replaying([]));
      var s := Do(OneEach(e, sub, Client(0, Some(0), [e])), Receive(0, now));
      && |s.socks| == 1 && s.subs == [sub] && s.socks[0].conn == Some(0) && s.socks[0].wire == []
      && s.store.lastSeq == |s.log| == 1
  {
    hide Applied;
    AppliedLastSeq(INITIAL, e, now);
  }

  lemma AfterOne(e: BrainEvent)
    requires e.seqNo > 0
    ensures After([e], 0) == [e]
  {
    assert [e][1..] == [] && After([], 0) == [];
  }

  lemma NotYetTaken(s: State, n: nat)
    requires Inv(s) && s.store.lastSeq < n
    ensures forall i :: 0 <= i < |s.applied| ==> s.applied[i].event.seqNo < n
  {
    hide Fold, Consistent, Queues, Contents, Wires, AllBegun;
    forall i | 0 <= i < |s.applied| ensures s.applied[i].event.seqNo < n {
      assert i == |s.applied| - 1 || s.applied[i].event.seqNo < s.applied[|s.applied| - 1].event.seqNo;
    }
  }

  lemma FiveSteps(s: State, a: Step, b: Step, c: Step, d: Step, e: Step)
    ensures Doing(s, [a, b, c, d, e]) == Do(Do(Do(Do(Do(s, a), b), c), d), e)
  {
    hide Do;
    assert [a, b, c, d, e][1..] == [b, c, d, e] && [b, c, d, e][1..] == [c, d, e];
    assert [c, d, e][1..] == [d, e] && [d, e][1..] == [e] && [e][1..] == [];
    var s1 := Do(s, a);
    assert Doing(s1, [b, c, d, e]) == Doing(Do(s1, b), [c, d, e]);
    var s3 := Do(Do(s1, b), c);
    assert Doing(Do(s1, b), [c, d, e]) == Doing(s3, [d, e]);
    assert Doing(s3, [d, e]) == Doing(Do(s3, d), [e]);
    assert Doing(Do(s3, d), [e]) == Doing(Do(Do(s3, d), e), []);
  }

  lemma UncoveredReplay(s: State, g: nat)
    requires Inv(s) && g < |s.subs| && !Covered(s, g)
    ensures var rest := s.hub.Snapshot(s.subs[g].since);
      rest != [] && rest[0].seqNo == |s.log| - BUFFER_CAPACITY + 1
  {
    hide Queues, Contents, Wires, TakenInOrder, AllBegun;
    SnapshotContent(s.hub, s.log, s.subs[g].since);
    assert Lo(s.subs[g].since, |s.log|) == |s.log| - BUFFER_CAPACITY;
  }

  lemma SnapshotSendsFirst(s: State, k: nat, g: nat)
    requires g < |s.subs| && k < |s.socks| && s.subs[g].phase.Opened? && s.hub.Snapshot(s.subs[g].since) != []
    requires s.socks[k].conn == Some(g) && s.socks[k].wire == []
    ensures var t := Do(s, SnapshotStep(g));
      && t.applied == s.applied && t.store == s.store && k < |t.socks|
      && t.socks[k].wire == [s.hub.Snapshot(s.subs[g].since)[0]]
  {
  }

  /** An uncovered snapshot loses the events the buffer has dropped, as soon as its first event arrives. */
  lemma {:induction false} UncoveredSnapshotLoses(before: seq<Step>, k: nat, g: nat, now: string)
    requires var s := StateAfter(before);
      && k < |s.socks| && g < |s.subs| && s.socks[k].conn == Some(g) && s.socks[k].wire == []
      && s.subs[g].phase.Opened? && !Covered(s, g)
    ensures Skipped(StateAfter(before + [SnapshotStep(g), Receive(k, now)]), StateAfter(before).store.lastSeq + 1)
  {
    hide StateAfter, Inv, Do, Skipped;
    var s := StateAfter(before);
    EveryRunKeepsInv(before);
    AfterConcat(before, [SnapshotStep(g), Receive(k, now)]);
    NotYetTaken(s, s.store.lastSeq + 1);
    UncoveredReplay(s, g);
    SnapshotSendsFirst(s, k, g);
    TakingBeyondSkips(Do(s, SnapshotStep(g)), k, now, s.store.lastSeq + 1);
    TwoSteps(s, SnapshotStep(g), Receive(k, now));
  }

  lemma TwoSteps(s: State, a: Step, b: Step)
    ensures Doing(s, [a, b]) == Do(Do(s, a), b)
  {
    hide Do;
    assert [a, b][1..] == [b] && [b][1..] == [];
    assert Doing(Do(s, a), [b]) == Doing(Do(Do(s, a), b), []);
  }

  // ---------------------------------------------------------------------------
  // The steps of a socket are the calls of its class
  // ---------------------------------------------------------------------------

  /** The object stands where the protocol says socket k stands, and shares its store. */
  ghost predicate Shows(socket: Socket, s: State, k: nat)
    reads socket, socket.store
  {
    && socket.Valid() && k < |s.socks| && socket.lastSeq == s.socks[k].lastSeq && socket.store.View() == s.store
    && (socket.since.Some? <==> s.socks[k].conn.Some?)
    && (s.socks[k].conn.Some? ==>
          s.socks[k].conn.value < |s.subs| && socket.since == Some(s.subs[s.socks[k].conn.value].since))
  }

  method Reconnect(socket: Socket, ghost s: State, k: nat)
    requires Shows(socket, s, k) && !socket.closed && Enabled(s, Connect(k))
    modifies socket
    ensures Shows(socket, Next(s, Connect(k)), k)
  {
    socket.Start();
  }

  method Deliver(socket: Socket, ghost s: State, k: nat, e: BrainEvent, now: string)
    requires Shows(socket, s, k) && Enabled(s, Receive(k, now)) && s.socks[k].wire[0] == e
    modifies socket, socket.store
    ensures Shows(socket, Next(s, Receive(k, now)), k)
  {
    hide Applied;
    socket.OnMessage(e, now);
  }

  method Disconnect(socket: Socket, ghost s: State, k: nat)
    requires Shows(socket, s, k) && Enabled(s, Cut(k))
    modifies socket
    ensures Shows(socket, Next(s, Cut(k)), k)
  {
    var _ := socket.OnClose();
  }
}
