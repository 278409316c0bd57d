/** The watchdog's debounce loop: no entity event is forgotten. */
module Debounce {
  import opened Prelude

  /**
   * `batch` is what the loop has taken and not yet detected; `detecting` is the entity whose detection is
   * waiting for its broadcasts. History: the last event and the last start of a detection of each entity.
   */
  datatype State = State(
    pending: set<string>, batch: seq<string>, detecting: Option<string>,
    clock: nat, events: map<string, nat>, starts: map<string, nat>)

  const START := State({}, [], None, 0, map[], map[])

  datatype Step =
    | Handle(id: string)             // an entity event arrives
    | Take(sorted: seq<string>)      // the loop wakes up, copies the pending ids and clears them
    | Begin                          // the loop starts the next detection
    | End                            // ... and has emitted its alerts
    | Sweep(id: string)              // the sweep loop starts a detection

  /** A sorted copy of a set. */
  ghost predicate SortedCopy(s: seq<string>, ids: set<string>) {
    && (forall id :: id in s <==> id in ids)
    && (forall i, j :: 0 <= i < j < |s| ==> StrLe(s[i], s[j]) && s[i] != s[j])
  }

  ghost predicate Enabled(s: State, step: Step) {
    match step
    case Handle(_) => true
    case Take(sorted) => s.batch == [] && s.detecting.None? && SortedCopy(sorted, s.pending)
    case Begin => s.batch != [] && s.detecting.None?
    case End => s.detecting.Some?
    case Sweep(_) => true
  }

  /** Time advances with every step, so a later step is a later time. */
  ghost function Next(s: State, step: Step): State
    requires Enabled(s, step)
  {
    var t := s.(clock := s.clock + 1);
    match step
    case Handle(id) => t.(pending := s.pending + {id}, events := s.events[id := s.clock])
    case Take(sorted) => t.(batch := sorted, pending := {})
    case Begin =>
      t.(batch := s.batch[1..], detecting := Some(s.batch[0]), starts := s.starts[s.batch[0] := s.clock])
    case End => t.(detecting := None)
    case Sweep(id) => t.(starts := s.starts[id := s.clock])
  }

  ghost function Do(s: State, step: Step): State { if Enabled(s, step) then Next(s, step) else s }

  ghost function Run(s: State, steps: seq<Step>): State {
    if steps == [] then s else Do(Run(s, steps[..|steps| - 1]), steps[|steps| - 1])
  }

  // ---------------------------------------------------------------------------
  // No lost wake-up
  // ---------------------------------------------------------------------------

  /** The entity's last event has been followed by the start of a detection. */
  predicate Attended(s: State, id: string) {
    id in s.events ==> id in s.starts && s.starts[id] > s.events[id]
  }

  ghost predicate Remembered(s: State, id: string) { id in s.pending || id in s.batch || Attended(s, id) }

  ghost predicate Inv(s: State) {
    && (forall id :: id in s.events ==> s.events[id] < s.clock)
    && (forall id :: Remembered(s, id))
  }

  lemma StepKeepsInv(s: State, step: Step)
    requires Inv(s)
    ensures Inv(Do(s, step))
  {
    var t := Do(s, step);
    forall id ensures Remembered(t, id) {
      assert Remembered(s, id);
      if step.Begin? && Enabled(s, step) && id in s.batch && id != s.batch[0] {
        assert s.batch == [s.batch[0]] + s.batch[1..];
      }
    }
  }

  lemma {:induction false} EveryRunKeepsInv(steps: seq<Step>)
    ensures Inv(Run(START, steps))
  {
    hide Do, Remembered;
    if steps == [] {
      NothingYet();
    } else {
      EveryRunKeepsInv(steps[..|steps| - 1]);
      StepKeepsInv(Run(START, steps[..|steps| - 1]), steps[|steps| - 1]);
    }
  }

  lemma NothingYet()
    ensures Inv(START)
  {
  }

  /**
   * Across every interleaving, an entity whose event was handled is pending, or awaits its turn in the
   * batch, or has had a detection start after its last event. When the loop is idle, it is the last.
   */
  lemma NoLostWakeUp(steps: seq<Step>, id: string)
    requires id in Run(START, steps).events
    ensures var s := Run(START, steps);
      id in s.pending || id in s.batch || (id in s.starts && s.starts[id] > s.events[id])
    ensures var s := Run(START, steps);
      s.pending == {} && s.batch == [] ==> id in s.starts && s.starts[id] > s.events[id]
  {
    hide Run;
    EveryRunKeepsInv(steps);
    assert Remembered(Run(START, steps), id);
  }

  // ---------------------------------------------------------------------------
  // No detection without an event
  // ---------------------------------------------------------------------------

  function Events(steps: seq<Step>, id: string): nat {
    if steps == [] then 0 else Events(steps[..|steps| - 1], id) + if steps[|steps| - 1] == Handle(id) then 1 else 0
  }

  /** How many detections of this entity the loop starts in a run; sweeps are not the loop's. */
  ghost function LoopStarts(s: State, steps: seq<Step>, id: string): nat {
    if steps == [] then 0
    else
      var init, last := steps[..|steps| - 1], steps[|steps| - 1];
      var before := Run(s, init);
      LoopStarts(s, init, id) + if last.Begin? && Enabled(before, last) && before.batch[0] == id then 1 else 0
  }

  ghost predicate Once(batch: seq<string>) { forall i, j :: 0 <= i < j < |batch| ==> batch[i] != batch[j] }

  function Waiting(s: State, id: string): nat {
    (if id in s.pending then 1 else 0) + if id in s.batch then 1 else 0
  }

  lemma StepSpends(s: State, step: Step, id: string)
    requires Once(s.batch)
    ensures Once(Do(s, step).batch)
    ensures var started := if step.Begin? && Enabled(s, step) && s.batch[0] == id then 1 else 0;
      Waiting(Do(s, step), id) + started <= Waiting(s, id) + if step == Handle(id) then 1 else 0
  {
    if step.Begin? && Enabled(s, step) {
      assert s.batch == [s.batch[0]] + s.batch[1..];
    }
  }

  /** The loop starts at most one detection of an entity for each of its events. */
  lemma {:induction false} NoSpuriousDetection(steps: seq<Step>, id: string)
    ensures LoopStarts(START, steps, id) + Waiting(Run(START, steps), id) <= Events(steps, id)
    ensures Once(Run(START, steps).batch)
  {
    hide Do, Enabled, Waiting, Once;
    if steps == [] {
      NothingWaits(id);
    } else {
      NoSpuriousDetection(steps[..|steps| - 1], id);
      StepSpends(Run(START, steps[..|steps| - 1]), steps[|steps| - 1], id);
    }
  }

  lemma NothingWaits(id: string)
    ensures Waiting(START, id) == 0 && Once(START.batch)
  {
  }

  // ---------------------------------------------------------------------------
  // The batch is served in order
  // ---------------------------------------------------------------------------

  predicate StartedSince(s: State, id: string, time: nat) { id in s.starts && s.starts[id] >= time }

  /** Of the batch held at a given time, the first n have been started since, and the rest still wait. */
  ghost predicate Served(s: State, batch: seq<string>, n: nat, time: nat) {
    && n <= |batch| && s.clock >= time
    && (forall i :: 0 <= i < n ==> StartedSince(s, batch[i], time))
    && (n < |batch| ==> s.batch == batch[n..])
  }

  lemma StepServes(s: State, step: Step, batch: seq<string>, n: nat, time: nat) returns (m: nat)
    requires Served(s, batch, n, time)
    ensures Served(Do(s, step), batch, m, time)
    ensures n <= m
    ensures step.Begin? && Enabled(s, step) && n < |batch| ==> m == n + 1
  {
    var t := Do(s, step);
    forall i | 0 <= i < n ensures StartedSince(t, batch[i], time) {
      assert StartedSince(s, batch[i], time);
    }
    if step.Begin? && Enabled(s, step) && n < |batch| {
      m := n + 1;
      assert s.batch[0] == batch[n] && s.batch[1..] == batch[n + 1..];
    } else {
      m := n;
    }
  }

  /** How many detections of the loop a run starts. */
  ghost function Begins(s: State, steps: seq<Step>): nat {
    if steps == [] then 0
    else
      var init := steps[..|steps| - 1];
      Begins(s, init) + if steps[|steps| - 1].Begin? && Enabled(Run(s, init), steps[|steps| - 1]) then 1 else 0
  }

  lemma {:induction false} RunServes(s: State, steps: seq<Step>) returns (n: nat)
    ensures Served(Run(s, steps), s.batch, n, s.clock)
    ensures n >= if Begins(s, steps) <= |s.batch| then Begins(s, steps) else |s.batch|
  {
    hide Do, Enabled;
    if steps == [] {
      n := 0;
      ServedAtOnce(s);
    } else {
      hide Served;
      var init, last := steps[..|steps| - 1], steps[|steps| - 1];
      var k := RunServes(s, init);
      n := StepServes(Run(s, init), last, s.batch, k, s.clock);
      assert k <= |s.batch| by { ServedBound(Run(s, init), s.batch, k, s.clock); }
    }
  }

  lemma ServedAtOnce(s: State)
    ensures Served(s, s.batch, 0, s.clock)
  {
  }

  lemma ServedBound(s: State, batch: seq<string>, n: nat, time: nat)
    requires Served(s, batch, n, time)
    ensures n <= |batch|
  {
  }

  /** The entity at position i of the batch is detected within the loop's next i + 1 starts. */
  lemma TurnComes(s: State, steps: seq<Step>, i: nat)
    requires i < |s.batch| && i < Begins(s, steps)
    ensures StartedSince(Run(s, steps), s.batch[i], s.clock)
  {
    hide Run, Begins;
    var n := RunServes(s, steps);
  }
}
