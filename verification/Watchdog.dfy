/** Watchdog alerts: detection with arbitrary rules, acknowledging, resolving. */
module Watchdog {
  import opened Prelude

  datatype AlertStatus = Open | Acknowledged | Resolved

  datatype Alert = Alert(
    alertId: string, entityId: string, ruleId: string, severity: string, reason: string,
    evidence: map<string, string>, suggestedAction: string, status: AlertStatus,
    detectedAt: int, resolvedAt: Option<int>, resolvedBy: Option<string>, demoFlag: bool)
  {
    predicate Active() { status == Open || status == Acknowledged }

    predicate For(entityId: string, ruleId: string) {
      this.entityId == entityId && this.ruleId == ruleId && Active()
    }
  }

  datatype Candidate = Candidate(
    ruleId: string, severity: string, reason: string, evidence: map<string, string>, suggestedAction: string)

  datatype Finding = Quiet | Raise(candidate: Candidate) | Fails

  /** The entities by id, with whatever the rules read about them. */
  type World = map<string, map<string, string>>

  /** A rule sees the whole database, alerts of the running detection included. */
  type Rule = (World, seq<Alert>, string, int) -> Finding

  predicate HasActive(alerts: seq<Alert>, entityId: string, ruleId: string) {
    exists i :: 0 <= i < |alerts| && alerts[i].For(entityId, ruleId)
  }

  function NewAlert(c: Candidate, alertId: string, entityId: string, now: int, demo: bool): Alert {
    Alert(alertId, entityId, c.ruleId, c.severity, c.reason, c.evidence, c.suggestedAction, Open, now, None, None, demo)
  }

  /** One detection: where, when, with which rules, and the id each rule's alert would get. */
  datatype Scan = Scan(entityId: string, now: int, rules: seq<Rule>, ids: seq<string>, demo: bool) {
    predicate Valid() { |ids| == |rules| }

    /** The alerts after the first k rules, unless one of them failed. */
    function Raised(w: World, alerts: seq<Alert>, k: nat): Option<seq<Alert>>
      requires Valid() && k <= |rules|
    {
      if k == 0 then Some(alerts)
      else
        var before := Raised(w, alerts, k - 1);
        if before.None? then None
        else
          match rules[k - 1](w, before.value, entityId, now)
          case Fails => None
          case Quiet => before
          case Raise(c) =>
            if HasActive(before.value, entityId, c.ruleId) then before
            else Some(before.value + [NewAlert(c, ids[k - 1], entityId, now, demo)])
    }

    /** A failing rule rolls the whole detection back. */
    function Detected(w: World, alerts: seq<Alert>): seq<Alert>
      requires Valid()
    {
      if entityId !in w then alerts
      else
        var raised := Raised(w, alerts, |rules|);
        if raised.None? then alerts else raised.value
    }
  }

  function Acked(alerts: seq<Alert>, id: string): seq<Alert> {
    seq(|alerts|, i requires 0 <= i < |alerts| =>
      if alerts[i].alertId == id && alerts[i].status == Open then alerts[i].(status := Acknowledged) else alerts[i])
  }

  function ResolvedAlert(a: Alert, resolvedBy: string, note: Option<string>, now: int): Alert {
    var evidence :=
      if note.Some? && note.value != "" then a.evidence["resolution_note" := note.value] else a.evidence;
    a.(status := Resolved, resolvedAt := Some(now), resolvedBy := Some(resolvedBy), evidence := evidence)
  }

  function ResolvedAll(alerts: seq<Alert>, id: string, resolvedBy: string, note: Option<string>, now: int): seq<Alert> {
    seq(|alerts|, i requires 0 <= i < |alerts| =>
      if alerts[i].alertId == id then ResolvedAlert(alerts[i], resolvedBy, note, now) else alerts[i])
  }

  datatype Op =
    | Detect(scan: Scan)
    | Acknowledge(id: string)
    | Resolve(id: string, resolvedBy: string, note: Option<string>, now: int)
    | Change(world: World)

  datatype Desk = Desk(world: World, alerts: seq<Alert>)

  function Do(d: Desk, op: Op): Desk {
    match op
    case Detect(scan) => if scan.Valid() then d.(alerts := scan.Detected(d.world, d.alerts)) else d
    case Acknowledge(id) => d.(alerts := Acked(d.alerts, id))
    case Resolve(id, resolvedBy, note, now) => d.(alerts := ResolvedAll(d.alerts, id, resolvedBy, note, now))
    case Change(world) => d.(world := world)
  }

  function Run(d: Desk, ops: seq<Op>): Desk {
    if ops == [] then d else Do(Run(d, ops[..|ops| - 1]), ops[|ops| - 1])
  }

  // ---------------------------------------------------------------------------
  // At most one active alert for an entity and a rule
  // ---------------------------------------------------------------------------

  ghost predicate AtMostOneActive(alerts: seq<Alert>) {
    forall i, j :: 0 <= i < j < |alerts| && alerts[i].Active() && alerts[j].Active() ==>
      alerts[i].entityId != alerts[j].entityId || alerts[i].ruleId != alerts[j].ruleId
  }

  lemma SnocKeepsOne(alerts: seq<Alert>, a: Alert)
    requires AtMostOneActive(alerts) && !HasActive(alerts, a.entityId, a.ruleId)
    ensures AtMostOneActive(alerts + [a])
  {
    forall i | 0 <= i < |alerts| ensures !alerts[i].For(a.entityId, a.ruleId) {
    }
  }

  lemma {:induction false} RaisedKeepsOne(s: Scan, w: World, alerts: seq<Alert>, k: nat)
    requires s.Valid() && k <= |s.rules| && AtMostOneActive(alerts)
    ensures s.Raised(w, alerts, k).Some? ==> AtMostOneActive(s.Raised(w, alerts, k).value)
  {
    hide AtMostOneActive, HasActive;
    if k > 0 && s.Raised(w, alerts, k - 1).Some? {
      RaisedKeepsOne(s, w, alerts, k - 1);
      var before := s.Raised(w, alerts, k - 1).value;
      match s.rules[k - 1](w, before, s.entityId, s.now)
      case Raise(c) =>
        if !HasActive(before, s.entityId, c.ruleId) {
          SnocKeepsOne(before, NewAlert(c, s.ids[k - 1], s.entityId, s.now, s.demo));
        }
      case Quiet =>
      case Fails =>
    }
  }

  /** No status change makes an alert active, and none renames it. */
  ghost predicate NoneRevived(was: seq<Alert>, alerts: seq<Alert>) {
    && |alerts| == |was|
    && forall i :: 0 <= i < |was| ==>
         alerts[i].entityId == was[i].entityId && alerts[i].ruleId == was[i].ruleId
         && (alerts[i].Active() ==> was[i].Active())
  }

  lemma NoneRevivedKeepsOne(was: seq<Alert>, alerts: seq<Alert>)
    requires NoneRevived(was, alerts) && AtMostOneActive(was)
    ensures AtMostOneActive(alerts)
  {
  }

  lemma DoKeepsOne(d: Desk, op: Op)
    requires AtMostOneActive(d.alerts)
    ensures AtMostOneActive(Do(d, op).alerts)
  {
    hide AtMostOneActive;
    match op
    case Detect(scan) => if scan.Valid() { RaisedKeepsOne(scan, d.world, d.alerts, |scan.rules|); }
    case Acknowledge(id) => NoneRevivedKeepsOne(d.alerts, Acked(d.alerts, id));
    case Resolve(id, resolvedBy, note, now) =>
      NoneRevivedKeepsOne(d.alerts, ResolvedAll(d.alerts, id, resolvedBy, note, now));
    case Change(_) =>
  }

  /** Whatever the rules are and however the calls are mixed. */
  lemma {:induction false} EveryRunKeepsOne(d: Desk, ops: seq<Op>)
    requires AtMostOneActive(d.alerts)
    ensures AtMostOneActive(Run(d, ops).alerts)
    decreases |ops|
  {
    hide Do, AtMostOneActive;
    if ops == [] {
    } else {
      EveryRunKeepsOne(d, ops[..|ops| - 1]);
      DoKeepsOne(Run(d, ops[..|ops| - 1]), ops[|ops| - 1]);
    }
  }

  // ---------------------------------------------------------------------------
  // What a detection leaves behind
  // ---------------------------------------------------------------------------

  lemma HasActivePrefix(alerts: seq<Alert>, more: seq<Alert>, entityId: string, ruleId: string)
    requires alerts <= more && HasActive(alerts, entityId, ruleId)
    ensures HasActive(more, entityId, ruleId)
  {
    var i :| 0 <= i < |alerts| && alerts[i].For(entityId, ruleId);
    assert more[i].For(entityId, ruleId);
  }

  lemma {:induction false} RaisedExtends(s: Scan, w: World, alerts: seq<Alert>, j: nat, k: nat)
    requires s.Valid() && j <= k <= |s.rules| && s.Raised(w, alerts, k).Some?
    ensures s.Raised(w, alerts, j).Some? && s.Raised(w, alerts, j).value <= s.Raised(w, alerts, k).value
    decreases k
  {
    hide HasActive;
    if j < k {
      RaisedExtends(s, w, alerts, j, k - 1);
    }
  }

  lemma {:induction false} NewAlertsAreOurs(s: Scan, w: World, alerts: seq<Alert>, k: nat)
    requires s.Valid() && k <= |s.rules| && s.Raised(w, alerts, k).Some?
    ensures alerts <= s.Raised(w, alerts, k).value
    ensures forall i :: |alerts| <= i < |s.Raised(w, alerts, k).value| ==>
      var a := s.Raised(w, alerts, k).value[i];
      a.status == Open && a.entityId == s.entityId && a.detectedAt == s.now && a.alertId in s.ids
  {
    hide HasActive;
    if k == 0 {
    } else {
      NewAlertsAreOurs(s, w, alerts, k - 1);
    }
  }

  /** A detection that goes through only adds open alerts of its entity, and leaves every finding covered. */
  lemma DetectionCovers(s: Scan, w: World, alerts: seq<Alert>, k: nat)
    requires s.Valid() && s.entityId in w && s.Raised(w, alerts, |s.rules|).Some? && k < |s.rules|
    ensures alerts <= s.Detected(w, alerts)
    ensures forall i :: |alerts| <= i < |s.Detected(w, alerts)| ==>
      s.Detected(w, alerts)[i].status == Open && s.Detected(w, alerts)[i].entityId == s.entityId
    ensures s.Raised(w, alerts, k).Some?
    ensures var f := s.rules[k](w, s.Raised(w, alerts, k).value, s.entityId, s.now);
      f.Raise? ==> HasActive(s.Detected(w, alerts), s.entityId, f.candidate.ruleId)
  {
    NewAlertsAreOurs(s, w, alerts, |s.rules|);
    RaisedExtends(s, w, alerts, k, |s.rules|);
    RaisedExtends(s, w, alerts, k + 1, |s.rules|);
    var f := s.rules[k](w, s.Raised(w, alerts, k).value, s.entityId, s.now);
    if f.Raise? {
      CoveredAfter(s, w, alerts, k, f.candidate);
      HasActivePrefix(s.Raised(w, alerts, k + 1).value, s.Detected(w, alerts), s.entityId, f.candidate.ruleId);
    }
  }

  lemma CoveredAfter(s: Scan, w: World, alerts: seq<Alert>, k: nat, c: Candidate)
    requires s.Valid() && k < |s.rules| && s.Raised(w, alerts, k + 1).Some? && s.Raised(w, alerts, k).Some?
    requires s.rules[k](w, s.Raised(w, alerts, k).value, s.entityId, s.now) == Raise(c)
    ensures HasActive(s.Raised(w, alerts, k + 1).value, s.entityId, c.ruleId)
  {
    var before := s.Raised(w, alerts, k).value;
    if !HasActive(before, s.entityId, c.ruleId) {
      var a := NewAlert(c, s.ids[k], s.entityId, s.now, s.demo);
      assert (before + [a])[|before|].For(s.entityId, c.ruleId);
    }
  }

  // ---------------------------------------------------------------------------
  // Detecting again
  // ---------------------------------------------------------------------------

  /** Every finding of the scan on these alerts already has its active alert. */
  ghost predicate Covered(s: Scan, w: World, alerts: seq<Alert>) {
    forall k :: 0 <= k < |s.rules| ==>
      var f := s.rules[k](w, alerts, s.entityId, s.now);
      f.Raise? ==> HasActive(alerts, s.entityId, f.candidate.ruleId)
  }

  lemma {:induction false} CoveredRaisesNothing(s: Scan, w: World, alerts: seq<Alert>, k: nat)
    requires s.Valid() && k <= |s.rules| && Covered(s, w, alerts)
    ensures s.Raised(w, alerts, k).Some? ==> s.Raised(w, alerts, k).value == alerts
  {
    hide HasActive;
    if k == 0 {
    } else {
      CoveredRaisesNothing(s, w, alerts, k - 1);
    }
  }

  /** A detection creates nothing exactly when the entity is gone, a rule fails, or all findings are covered. */
  lemma NothingCreatedExactly(s: Scan, w: World, alerts: seq<Alert>)
    requires s.Valid()
    ensures s.Detected(w, alerts) == alerts
       <==> s.entityId !in w || s.Raised(w, alerts, |s.rules|).None? || Covered(s, w, alerts)
  {
    hide HasActive;
    if Covered(s, w, alerts) {
      CoveredRaisesNothing(s, w, alerts, |s.rules|);
    } else if s.entityId in w && s.Raised(w, alerts, |s.rules|).Some? && s.Detected(w, alerts) == alerts {
      forall k | 0 <= k < |s.rules|
        ensures var f := s.rules[k](w, alerts, s.entityId, s.now);
          f.Raise? ==> HasActive(alerts, s.entityId, f.candidate.ruleId)
      {
        RaisedExtends(s, w, alerts, k, |s.rules|);
        RaisedExtends(s, w, alerts, 0, k);
        assert s.Raised(w, alerts, k).value == alerts;
        DetectionCovers(s, w, alerts, k);
      }
      assert false;
    }
  }

  /** The rules judge the entity, not the alerts about it. */
  ghost predicate IgnoresAlerts(rules: seq<Rule>) {
    forall k, w: World, a: seq<Alert>, b: seq<Alert>, e: string, now: int ::
      0 <= k < |rules| ==> rules[k](w, a, e, now) == rules[k](w, b, e, now)
  }

  predicate Gentle(op: Op) { op.Detect? || op.Acknowledge? }

  lemma GentleKeepsActive(d: Desk, op: Op, entityId: string, ruleId: string)
    requires Gentle(op) && HasActive(d.alerts, entityId, ruleId)
    ensures HasActive(Do(d, op).alerts, entityId, ruleId) && Do(d, op).world == d.world
  {
    match op
    case Detect(scan) =>
      if scan.Valid() && scan.entityId in d.world && scan.Raised(d.world, d.alerts, |scan.rules|).Some? {
        RaisedExtends(scan, d.world, d.alerts, 0, |scan.rules|);
        HasActivePrefix(d.alerts, scan.Detected(d.world, d.alerts), entityId, ruleId);
      }
    case Acknowledge(id) =>
      var i :| 0 <= i < |d.alerts| && d.alerts[i].For(entityId, ruleId);
      assert Acked(d.alerts, id)[i].For(entityId, ruleId);
  }

  lemma {:induction false} GentleRunKeepsActive(d: Desk, ops: seq<Op>, entityId: string, ruleId: string)
    requires forall i :: 0 <= i < |ops| ==> Gentle(ops[i])
    requires HasActive(d.alerts, entityId, ruleId)
    ensures HasActive(Run(d, ops).alerts, entityId, ruleId)
    decreases |ops|
  {
    hide Do, HasActive, Gentle;
    if ops == [] {
    } else {
      GentleRunKeepsActive(d, ops[..|ops| - 1], entityId, ruleId);
      GentleKeepsActive(Run(d, ops[..|ops| - 1]), ops[|ops| - 1], entityId, ruleId);
    }
  }

  lemma {:induction false} GentleRunKeepsWorld(d: Desk, ops: seq<Op>)
    requires forall i :: 0 <= i < |ops| ==> Gentle(ops[i])
    ensures Run(d, ops).world == d.world
    decreases |ops|
  {
    hide Acked;
    if ops == [] {
    } else {
      GentleRunKeepsWorld(d, ops[..|ops| - 1]);
    }
  }

  /** Some rule fails on this entity at this moment. */
  predicate Failing(s: Scan, w: World) {
    exists k :: 0 <= k < |s.rules| && s.rules[k](w, [], s.entityId, s.now).Fails?
  }

  /** The rule ids of what the first k rules find, asked with no alerts to read. */
  function FoundUpTo(s: Scan, w: World, k: nat): set<string>
    requires k <= |s.rules|
  {
    if k == 0 then {}
    else
      var f := s.rules[k - 1](w, [], s.entityId, s.now);
      FoundUpTo(s, w, k - 1) + if f.Raise? then {f.candidate.ruleId} else {}
  }

  function Found(s: Scan, w: World): set<string> { FoundUpTo(s, w, |s.rules|) }

  /** The rule ids a scan leaves active for its entity: what it finds, unless the entity is gone or a rule fails. */
  function Covers(s: Scan, w: World): set<string> {
    if s.entityId !in w || Failing(s, w) then {} else Found(s, w)
  }

  lemma RuleAnswers(s: Scan, w: World, alerts: seq<Alert>, k: nat)
    requires IgnoresAlerts(s.rules) && k < |s.rules|
    ensures s.rules[k](w, alerts, s.entityId, s.now) == s.rules[k](w, [], s.entityId, s.now)
  {
  }

  /** Rules that ignore alerts fail, and find, the same whatever the alerts are. */
  lemma {:induction false} RaisedCovers(s: Scan, w: World, alerts: seq<Alert>, k: nat, ruleId: string)
    requires s.Valid() && IgnoresAlerts(s.rules) && k <= |s.rules|
    ensures s.Raised(w, alerts, k).None? <==> exists j :: 0 <= j < k && s.rules[j](w, [], s.entityId, s.now).Fails?
    ensures s.Raised(w, alerts, k).Some? ==>
      (HasActive(s.Raised(w, alerts, k).value, s.entityId, ruleId)
       <==> HasActive(alerts, s.entityId, ruleId) || ruleId in FoundUpTo(s, w, k))
  {
    hide HasActive, IgnoresAlerts;
    if k == 0 {
    } else {
      RaisedCovers(s, w, alerts, k - 1, ruleId);
      var before := s.Raised(w, alerts, k - 1);
      if before.Some? {
        RuleAnswers(s, w, before.value, k - 1);
        var f := s.rules[k - 1](w, [], s.entityId, s.now);
        if f.Raise? {
          var a := NewAlert(f.candidate, s.ids[k - 1], s.entityId, s.now, s.demo);
          HasActiveSnoc(before.value, a, s.entityId, ruleId);
        }
      }
    }
  }

  lemma HasActiveSnoc(alerts: seq<Alert>, a: Alert, entityId: string, ruleId: string)
    ensures HasActive(alerts + [a], entityId, ruleId)
       <==> HasActive(alerts, entityId, ruleId) || a.For(entityId, ruleId)
  {
    if HasActive(alerts, entityId, ruleId) { HasActivePrefix(alerts, alerts + [a], entityId, ruleId); }
    if a.For(entityId, ruleId) { assert (alerts + [a])[|alerts|].For(entityId, ruleId); }
  }

  /** A detection makes exactly the findings of its own entity active, and touches no other entity. */
  lemma DetectionActivates(s: Scan, w: World, alerts: seq<Alert>, entityId: string, ruleId: string)
    requires s.Valid() && IgnoresAlerts(s.rules)
    ensures HasActive(s.Detected(w, alerts), entityId, ruleId)
       <==> HasActive(alerts, entityId, ruleId) || (entityId == s.entityId && ruleId in Covers(s, w))
  {
    hide HasActive, IgnoresAlerts, FoundUpTo;
    RaisedCovers(s, w, alerts, |s.rules|, ruleId);
    if s.entityId in w && s.Raised(w, alerts, |s.rules|).Some? && entityId != s.entityId {
      OtherEntitiesUntouched(s, w, alerts, |s.rules|, entityId, ruleId);
    }
  }

  lemma {:induction false} OtherEntitiesUntouched(s: Scan, w: World, alerts: seq<Alert>, k: nat, entityId: string,
      ruleId: string)
    requires s.Valid() && k <= |s.rules| && s.Raised(w, alerts, k).Some? && entityId != s.entityId
    ensures HasActive(s.Raised(w, alerts, k).value, entityId, ruleId) <==> HasActive(alerts, entityId, ruleId)
  {
    hide HasActive;
    if k == 0 {
    } else {
      OtherEntitiesUntouched(s, w, alerts, k - 1, entityId, ruleId);
      var before := s.Raised(w, alerts, k - 1).value;
      var f := s.rules[k - 1](w, before, s.entityId, s.now);
      if f.Raise? {
        HasActiveSnoc(before, NewAlert(f.candidate, s.ids[k - 1], s.entityId, s.now, s.demo), entityId, ruleId);
      }
    }
  }

  /** The rule ids that a run of detections and acknowledgements makes active for an entity. */
  function CoveredBy(w: World, ops: seq<Op>, entityId: string): set<string> {
    if ops == [] then {}
    else
      var last := ops[|ops| - 1];
      CoveredBy(w, ops[..|ops| - 1], entityId)
      + if last.Detect? && last.scan.Valid() && last.scan.entityId == entityId then Covers(last.scan, w) else {}
  }

  ghost predicate GentleAndBlind(op: Op) {
    op.Acknowledge? || (op.Detect? && IgnoresAlerts(op.scan.rules))
  }

  lemma StepActivates(d: Desk, op: Op, entityId: string, ruleId: string)
    requires GentleAndBlind(op)
    ensures Do(d, op).world == d.world
    ensures HasActive(Do(d, op).alerts, entityId, ruleId)
       <==> HasActive(d.alerts, entityId, ruleId)
            || (op.Detect? && op.scan.Valid() && op.scan.entityId == entityId && ruleId in Covers(op.scan, d.world))
  {
    hide IgnoresAlerts, Covers;
    if op.Detect? {
      hide HasActive;
      if op.scan.Valid() { DetectionActivates(op.scan, d.world, d.alerts, entityId, ruleId); }
    } else {
      AcknowledgingKeepsActive(d.alerts, op.id, entityId, ruleId);
    }
  }

  lemma AcknowledgingKeepsActive(alerts: seq<Alert>, id: string, entityId: string, ruleId: string)
    ensures HasActive(Acked(alerts, id), entityId, ruleId) <==> HasActive(alerts, entityId, ruleId)
  {
    var now := Acked(alerts, id);
    assert forall i :: 0 <= i < |alerts| ==> now[i].For(entityId, ruleId) == alerts[i].For(entityId, ruleId);
  }

  lemma {:induction false} RunActivates(d: Desk, ops: seq<Op>, entityId: string, ruleId: string)
    requires forall i :: 0 <= i < |ops| ==> GentleAndBlind(ops[i])
    ensures Run(d, ops).world == d.world
    ensures HasActive(Run(d, ops).alerts, entityId, ruleId)
       <==> HasActive(d.alerts, entityId, ruleId) || ruleId in CoveredBy(d.world, ops, entityId)
    decreases |ops|
  {
    hide HasActive, Do, GentleAndBlind, Covers;
    if ops == [] {
    } else {
      RunActivates(d, ops[..|ops| - 1], entityId, ruleId);
      StepActivates(Run(d, ops[..|ops| - 1]), ops[|ops| - 1], entityId, ruleId);
    }
  }

  lemma {:induction false} FoundIsCovered(t: Scan, w: World, alerts: seq<Alert>, k: nat)
    requires IgnoresAlerts(t.rules) && k <= |t.rules|
    ensures (forall ruleId :: ruleId in FoundUpTo(t, w, k) ==> HasActive(alerts, t.entityId, ruleId))
       <==> forall j :: 0 <= j < k ==>
              var f := t.rules[j](w, alerts, t.entityId, t.now);
              f.Raise? ==> HasActive(alerts, t.entityId, f.candidate.ruleId)
  {
    hide HasActive, IgnoresAlerts;
    if k == 0 {
    } else {
      FoundIsCovered(t, w, alerts, k - 1);
      RuleAnswers(t, w, alerts, k - 1);
      var f := t.rules[k - 1](w, [], t.entityId, t.now);
      assert f.Raise? ==> f.candidate.ruleId in FoundUpTo(t, w, k);
    }
  }

  /**
   * After any detections and acknowledgements, at whatever times and with whatever rules that ignore alerts, a
   * further detection creates nothing exactly when its entity is gone, one of its rules fails, or everything it
   * finds was active before or has been found since.
   */
  lemma {:induction false} LaterDetectionCreatesNothingExactly(d: Desk, ops: seq<Op>, t: Scan)
    requires t.Valid() && IgnoresAlerts(t.rules)
    requires forall i :: 0 <= i < |ops| ==> GentleAndBlind(ops[i])
    ensures var later := Run(d, ops);
      t.Detected(later.world, later.alerts) == later.alerts
      <==> t.entityId !in d.world || Failing(t, d.world)
           || forall ruleId :: ruleId in Found(t, d.world) ==>
                HasActive(d.alerts, t.entityId, ruleId) || ruleId in CoveredBy(d.world, ops, t.entityId)
  {
    hide HasActive, IgnoresAlerts, GentleAndBlind, Run, FoundUpTo, CoveredBy;
    var later := Run(d, ops);
    RunActivates(d, ops, t.entityId, "");
    NothingCreatedExactly(t, d.world, later.alerts);
    RaisedCovers(t, d.world, later.alerts, |t.rules|, "");
    FoundIsCovered(t, d.world, later.alerts, |t.rules|);
    forall ruleId
      ensures HasActive(later.alerts, t.entityId, ruleId)
         <==> HasActive(d.alerts, t.entityId, ruleId) || ruleId in CoveredBy(d.world, ops, t.entityId)
    {
      RunActivates(d, ops, t.entityId, ruleId);
    }
  }

  /**
   * Detecting a second time creates nothing, however many detections and acknowledgements came in between and
   * however much time has passed, if the first detection went through and the second finds nothing it did not.
   */
  lemma {:induction false} SecondDetectionCreatesNothing(d: Desk, s: Scan, between: seq<Op>, t: Scan)
    requires s.Valid() && t.Valid() && IgnoresAlerts(s.rules) && IgnoresAlerts(t.rules)
    requires t.entityId == s.entityId && !Failing(s, d.world) && Found(t, d.world) <= Found(s, d.world)
    requires forall i :: 0 <= i < |between| ==> Gentle(between[i])
    ensures var later := Run(Do(d, Detect(s)), between);
      t.Detected(later.world, later.alerts) == later.alerts
  {
    hide HasActive, IgnoresAlerts, Run, FoundUpTo, Gentle;
    var first := Do(d, Detect(s));
    var later := Run(first, between);
    GentleRunKeepsWorld(first, between);
    NothingCreatedExactly(t, d.world, later.alerts);
    if s.entityId in d.world {
      forall ruleId | ruleId in Found(t, d.world) ensures HasActive(later.alerts, t.entityId, ruleId) {
        DetectionActivates(s, d.world, d.alerts, s.entityId, ruleId);
        GentleRunKeepsActive(first, between, s.entityId, ruleId);
      }
      FoundIsCovered(t, d.world, later.alerts, |t.rules|);
    }
  }

  const AGING: Rule := (w: World, alerts: seq<Alert>, e: string, now: int) =>
    if now >= 30 then Raise(Candidate("old", "info", "", map[], "")) else Quiet

  /** Time alone can make a second detection raise: a rule that reads the clock and no alerts. */
  lemma AgingRuleFindsMoreLater()
    ensures var w: World := map["e" := map[]];
      var s, t := Scan("e", 29, [AGING], ["a"], false), Scan("e", 30, [AGING], ["b"], false);
      && IgnoresAlerts([AGING]) && !Failing(s, w)
      && s.Detected(w, []) == [] && |t.Detected(w, s.Detected(w, []))| == 1
  {
    var w: World := map["e" := map[]];
    var s, t := Scan("e", 29, [AGING], ["a"], false), Scan("e", 30, [AGING], ["b"], false);
    assert s.Raised(w, [], 0) == Some([]) && t.Raised(w, [], 0) == Some([]);
    assert s.Raised(w, [], 1) == Some([]);
    assert !HasActive([], "e", "old");
    assert |t.Raised(w, [], 1).value| == 1;
  }

  const TWO_FACED: Rule := (w: World, alerts: seq<Alert>, e: string, now: int) =>
    Raise(Candidate(if alerts == [] then "first" else "second", "info", "", map[], ""))

  /** A rule that reads alerts can find something new every time, with no time passing. */
  lemma AlertReadingRuleFindsMore()
    ensures var s := Scan("e", 0, [TWO_FACED], ["a"], false); var w: World := map["e" := map[]];
      s.Valid() && s.Detected(w, s.Detected(w, [])) != s.Detected(w, [])
  {
    var s := Scan("e", 0, [TWO_FACED], ["a"], false);
    var w: World := map["e" := map[]];
    var once := s.Raised(w, [], 1);
    assert s.Raised(w, [], 0) == Some([]);
    assert !HasActive([], "e", "first");
    assert once.value[0].ruleId == "first";
    assert s.Raised(w, once.value, 0) == Some(once.value);
    assert !HasActive(once.value, "e", "second");
    assert |s.Raised(w, once.value, 1).value| == 2;
  }

  // ---------------------------------------------------------------------------
  // The calls of the source
  // ---------------------------------------------------------------------------

  class AlertTable {
    var world: World
    var alerts: seq<Alert>

    constructor (world: World)
      ensures this.world == world && alerts == []
    {
      this.world := world;
      alerts := [];
    }

    method DetectForEntity(s: Scan) returns (created: seq<Alert>)
      requires s.Valid()
      modifies this`alerts
      ensures alerts == s.Detected(world, old(alerts))
      ensures alerts == old(alerts) + created
    {
      created := [];
      if s.entityId !in world {
        return [];
      }
      assert old(alerts) + created == alerts;
      for i := 0 to |s.rules|
        invariant s.Raised(world, old(alerts), i) == Some(old(alerts) + created)
        invariant alerts == old(alerts)
      {
        hide HasActive;
        var session := alerts + created;
        match s.rules[i](world, session, s.entityId, s.now)
        case Fails =>
          assert s.Raised(world, old(alerts), i + 1).None?;
          if i + 1 <= |s.rules| && s.Raised(world, old(alerts), |s.rules|).Some? {
            RaisedExtends(s, world, old(alerts), i + 1, |s.rules|);
            assert false;
          }
          return [];  // the session is rolled back
        case Quiet =>
        case Raise(c) =>
          if !HasActive(session, s.entityId, c.ruleId) {
            created := created + [NewAlert(c, s.ids[i], s.entityId, s.now, s.demo)];
            assert old(alerts) + created == session + [NewAlert(c, s.ids[i], s.entityId, s.now, s.demo)];
          }
      }
      if created != [] {
        alerts := alerts + created;
      } else {
        assert old(alerts) + created == old(alerts);
      }
    }

    method Find(id: string) returns (k: Option<nat>)
      ensures k.Some? ==> k.value < |alerts| && alerts[k.value].alertId == id
      ensures k.None? ==> forall i :: 0 <= i < |alerts| ==> alerts[i].alertId != id
    {
      for i := 0 to |alerts|
        invariant forall j :: 0 <= j < i ==> alerts[j].alertId != id
      {
        if alerts[i].alertId == id {
          return Some(i);
        }
      }
      return None;
    }

    method AcknowledgeAlert(id: string) returns (found: bool)
      requires UniqueIds(alerts)
      modifies this`alerts
      ensures alerts == Acked(old(alerts), id)
      ensures found <==> exists i :: 0 <= i < |old(alerts)| && old(alerts)[i].alertId == id
    {
      var k := Find(id);
      if k.None? {
        return false;
      }
      if alerts[k.value].status == Open {
        alerts := alerts[k.value := alerts[k.value].(status := Acknowledged)];
      }
      return true;
    }

    method ResolveAlert(id: string, resolvedBy: string, note: Option<string>, now: int) returns (found: bool)
      requires UniqueIds(alerts)
      modifies this`alerts
      ensures alerts == ResolvedAll(old(alerts), id, resolvedBy, note, now)
      ensures found <==> exists i :: 0 <= i < |old(alerts)| && old(alerts)[i].alertId == id
    {
      hide ResolvedAlert;
      var k := Find(id);
      if k.None? {
        return false;
      }
      alerts := alerts[k.value := ResolvedAlert(alerts[k.value], resolvedBy, note, now)];
      return true;
    }
  }

  ghost predicate UniqueIds(alerts: seq<Alert>) {
    forall i, j :: 0 <= i < j < |alerts| ==> alerts[i].alertId != alerts[j].alertId
  }
}
