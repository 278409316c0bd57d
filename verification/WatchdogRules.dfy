/** What detecting, acknowledging and resolving do to the alerts, column by column. */
module WatchdogRules {
  import opened Prelude
  import opened Watchdog

  predicate Watches(a: Alert, entityId: string, ruleId: string) {
    a.entityId == entityId && a.ruleId == ruleId && a.status in {Open, Acknowledged}
  }

  /** An open or acknowledged alert of this entity and rule is listed. */
  ghost predicate Watched(alerts: seq<Alert>, entityId: string, ruleId: string) {
    exists i :: 0 <= i < |alerts| && Watches(alerts[i], entityId, ruleId)
  }

  lemma HasActiveExactly(alerts: seq<Alert>, entityId: string, ruleId: string)
    ensures HasActive(alerts, entityId, ruleId) <==> Watched(alerts, entityId, ruleId)
  {
    assert forall i :: 0 <= i < |alerts| ==>
      (alerts[i].For(entityId, ruleId) <==> Watches(alerts[i], entityId, ruleId));
  }

  // ---------------------------------------------------------------------------
  // Detecting
  // ---------------------------------------------------------------------------

  /** The alert is what rule k raises on the alerts before it, as a new open alert of the scanned entity. */
  ghost predicate RaisedBy(s: Scan, w: World, before: seq<Alert>, a: Alert, k: nat)
    requires s.Valid() && k < |s.rules|
  {
    var f := s.rules[k](w, before, s.entityId, s.now);
    && f.Raise? && !Watched(before, s.entityId, f.candidate.ruleId)
    && a.alertId == s.ids[k] && a.entityId == s.entityId && a.ruleId == f.candidate.ruleId
    && a.severity == f.candidate.severity && a.reason == f.candidate.reason
    && a.evidence == f.candidate.evidence && a.suggestedAction == f.candidate.suggestedAction
    && a.status == Open && a.detectedAt == s.now && a.resolvedAt == None && a.resolvedBy == None
    && a.demoFlag == s.demo
  }

  lemma {:induction false} RaisedAlerts(s: Scan, w: World, alerts: seq<Alert>, n: nat) returns (from: seq<nat>)
    requires s.Valid() && n <= |s.rules| && s.Raised(w, alerts, n).Some?
    ensures var after := s.Raised(w, alerts, n).value;
      && alerts <= after && |from| == |after| - |alerts|
      && (forall i :: 0 <= i < |from| ==> from[i] < n)
      && (forall i, j :: 0 <= i < j < |from| ==> from[i] < from[j])
      && forall i :: 0 <= i < |from| ==> RaisedBy(s, w, after[..|alerts| + i], after[|alerts| + i], from[i])
  {
    hide RaisedBy, HasActive;
    if n == 0 {
      from := [];
    } else {
      from := RaisedAlerts(s, w, alerts, n - 1);
      var before, after := s.Raised(w, alerts, n - 1).value, s.Raised(w, alerts, n).value;
      if before != after {
        OneMoreAlert(s, w, alerts, n - 1);
        forall i | 0 <= i < |from|
          ensures RaisedBy(s, w, after[..|alerts| + i], after[|alerts| + i], from[i])
        {
          assert after[..|alerts| + i] == before[..|alerts| + i];
        }
        assert after[..|before|] == before;
        from := from + [n - 1];
      }
    }
  }

  lemma OneMoreAlert(s: Scan, w: World, alerts: seq<Alert>, k: nat)
    requires s.Valid() && k < |s.rules| && s.Raised(w, alerts, k + 1).Some? && s.Raised(w, alerts, k).Some?
    requires s.Raised(w, alerts, k + 1) != s.Raised(w, alerts, k)
    ensures var before, after := s.Raised(w, alerts, k).value, s.Raised(w, alerts, k + 1).value;
      && |after| == |before| + 1 && after[..|before|] == before && RaisedBy(s, w, before, after[|before|], k)
  {
    var before := s.Raised(w, alerts, k).value;
    hide HasActive;
    var f := s.rules[k](w, before, s.entityId, s.now);
    if f.Raise? { HasActiveExactly(before, s.entityId, f.candidate.ruleId); }
  }

  /** A detection appends, rule by rule, what its rules raise, and nothing where the entity is gone. */
  lemma DetectionExactly(s: Scan, w: World, alerts: seq<Alert>) returns (from: seq<nat>)
    requires s.Valid()
    ensures var after := s.Detected(w, alerts);
      && alerts <= after && |from| == |after| - |alerts|
      && (s.entityId !in w ==> after == alerts)
      && (forall i :: 0 <= i < |from| ==> from[i] < |s.rules|)
      && (forall i, j :: 0 <= i < j < |from| ==> from[i] < from[j])
      && forall i :: 0 <= i < |from| ==> RaisedBy(s, w, after[..|alerts| + i], after[|alerts| + i], from[i])
  {
    hide RaisedBy, HasActive;
    from := [];
    if s.entityId in w && s.Raised(w, alerts, |s.rules|).Some? {
      from := RaisedAlerts(s, w, alerts, |s.rules|);
    }
  }

  /** With new and different ids for its alerts, a detection keeps the ids of the table different. */
  lemma DetectionKeepsUniqueIds(s: Scan, w: World, alerts: seq<Alert>)
    requires s.Valid() && UniqueIds(alerts)
    requires forall i, j :: 0 <= i < |alerts| && 0 <= j < |s.ids| ==> alerts[i].alertId != s.ids[j]
    requires forall i, j :: 0 <= i < j < |s.ids| ==> s.ids[i] != s.ids[j]
    ensures UniqueIds(s.Detected(w, alerts))
  {
    var from := DetectionExactly(s, w, alerts);
    var after := s.Detected(w, alerts);
    forall i, j | 0 <= i < j < |after| ensures after[i].alertId != after[j].alertId {
      hide RaisedBy;
      if j >= |alerts| {
        RaisedId(s, w, after, |alerts|, from, j - |alerts|);
        if i >= |alerts| { RaisedId(s, w, after, |alerts|, from, i - |alerts|); }
      }
    }
  }

  lemma RaisedId(s: Scan, w: World, after: seq<Alert>, n: nat, from: seq<nat>, i: nat)
    requires s.Valid() && i < |from| && from[i] < |s.rules| && n + i < |after|
    requires RaisedBy(s, w, after[..n + i], after[n + i], from[i])
    ensures after[n + i].alertId == s.ids[from[i]]
  {
  }

  // ---------------------------------------------------------------------------
  // Acknowledging and resolving
  // ---------------------------------------------------------------------------

  /** Acknowledging changes the status of an open alert with that id and nothing else. */
  lemma AcknowledgedExactly(d: Desk, id: string)
    ensures var after := Do(d, Acknowledge(id)).alerts;
      && Do(d, Acknowledge(id)).world == d.world && |after| == |d.alerts|
      && forall i :: 0 <= i < |after| ==>
           && after[i] == d.alerts[i].(status := after[i].status)
           && after[i].status == (if d.alerts[i].alertId == id && d.alerts[i].status != Resolved then Acknowledged
                                  else d.alerts[i].status)
  {
  }

  /** The evidence with the note put under its own key, if there is a note. */
  ghost predicate Noted(evidence: map<string, string>, was: map<string, string>, note: Option<string>) {
    if note == None || note == Some("") then evidence == was
    else
      && "resolution_note" in evidence && evidence["resolution_note"] == note.value
      && forall k :: k != "resolution_note" ==>
           (k in evidence <==> k in was) && (k in evidence ==> evidence[k] == was[k])
  }

  /** Resolving closes every alert with that id, whatever its status was, and leaves the others alone. */
  lemma ResolvedExactly(d: Desk, id: string, resolvedBy: string, note: Option<string>, now: int)
    ensures var after := Do(d, Resolve(id, resolvedBy, note, now)).alerts;
      && Do(d, Resolve(id, resolvedBy, note, now)).world == d.world && |after| == |d.alerts|
      && forall i :: 0 <= i < |after| ==>
           if d.alerts[i].alertId != id then after[i] == d.alerts[i]
           else
             && after[i].status == Resolved && after[i].resolvedAt == Some(now)
             && after[i].resolvedBy == Some(resolvedBy) && Noted(after[i].evidence, d.alerts[i].evidence, note)
             && after[i] == d.alerts[i].(status := after[i].status, resolvedAt := after[i].resolvedAt,
                                         resolvedBy := after[i].resolvedBy, evidence := after[i].evidence)
  {
    hide ResolvedAlert, Noted;
    var after := Do(d, Resolve(id, resolvedBy, note, now)).alerts;
    assert forall i :: 0 <= i < |after| && d.alerts[i].alertId == id ==>
      after[i] == ResolvedAlert(d.alerts[i], resolvedBy, note, now);
    forall a: Alert ensures var r := ResolvedAlert(a, resolvedBy, note, now);
      && r.status == Resolved && r.resolvedAt == Some(now) && r.resolvedBy == Some(resolvedBy)
      && Noted(r.evidence, a.evidence, note)
      && r == a.(status := r.status, resolvedAt := r.resolvedAt, resolvedBy := r.resolvedBy, evidence := r.evidence)
    {
      ResolvedAlertExactly(a, resolvedBy, note, now);
    }
  }

  lemma ResolvedAlertExactly(a: Alert, resolvedBy: string, note: Option<string>, now: int)
    ensures var r := ResolvedAlert(a, resolvedBy, note, now);
      && r.status == Resolved && r.resolvedAt == Some(now) && r.resolvedBy == Some(resolvedBy)
      && Noted(r.evidence, a.evidence, note)
      && r == a.(status := r.status, resolvedAt := r.resolvedAt, resolvedBy := r.resolvedBy, evidence := r.evidence)
  {
  }

  /** Resolving the active alert of an entity and a rule leaves that pair unwatched, and every other as it was. */
  lemma ResolvingUnwatches(d: Desk, i: nat, resolvedBy: string, note: Option<string>, now: int, entityId: string,
                           ruleId: string)
    requires AtMostOneActive(d.alerts) && UniqueIds(d.alerts)
    requires i < |d.alerts| && d.alerts[i].status in {Open, Acknowledged}
    ensures Watched(Do(d, Resolve(d.alerts[i].alertId, resolvedBy, note, now)).alerts, entityId, ruleId)
       <==> Watched(d.alerts, entityId, ruleId) && (d.alerts[i].entityId != entityId || d.alerts[i].ruleId != ruleId)
  {
    var id := d.alerts[i].alertId;
    ResolvedExactly(d, id, resolvedBy, note, now);
    hide Do, UniqueIds;
    var after := Do(d, Resolve(id, resolvedBy, note, now)).alerts;
    forall j | 0 <= j < |after|
      ensures Watches(after[j], entityId, ruleId)
         <==> Watches(d.alerts[j], entityId, ruleId)
              && (d.alerts[i].entityId != entityId || d.alerts[i].ruleId != ruleId)
    {
      if j != i { Apart(d.alerts, i, j); }
    }
    hide Watches, AtMostOneActive;
  }

  lemma Apart(alerts: seq<Alert>, i: nat, j: nat)
    requires AtMostOneActive(alerts) && UniqueIds(alerts) && i < |alerts| && j < |alerts| && i != j
    requires alerts[i].status in {Open, Acknowledged}
    ensures alerts[j].alertId != alerts[i].alertId
    ensures !Watches(alerts[j], alerts[i].entityId, alerts[i].ruleId)
  {
    var k, l := if i < j then i else j, if i < j then j else i;
    assert alerts[k].alertId != alerts[l].alertId;
  }

  /** So the next detection that finds it raises it anew, with a new open alert. */
  lemma ResolvedIsRaisedAgain(d: Desk, i: nat, resolvedBy: string, note: Option<string>, now: int, s: Scan)
    requires AtMostOneActive(d.alerts) && UniqueIds(d.alerts)
    requires i < |d.alerts| && d.alerts[i].status in {Open, Acknowledged} && d.alerts[i].entityId == s.entityId
    requires s.Valid() && IgnoresAlerts(s.rules) && s.entityId in d.world && !Failing(s, d.world)
    requires d.alerts[i].ruleId in Found(s, d.world)
    ensures var mid := Do(d, Resolve(d.alerts[i].alertId, resolvedBy, note, now));
      var after := Do(mid, Detect(s)).alerts;
      exists j :: |d.alerts| <= j < |after| && after[j].status == Open && after[j].detectedAt == s.now
                  && after[j].entityId == d.alerts[i].entityId && after[j].ruleId == d.alerts[i].ruleId
  {
    var mid := Do(d, Resolve(d.alerts[i].alertId, resolvedBy, note, now));
    var e, r := s.entityId, d.alerts[i].ruleId;
    ResolvingUnwatches(d, i, resolvedBy, note, now, e, r);
    ResolvedExactly(d, d.alerts[i].alertId, resolvedBy, note, now);
    HasActiveExactly(mid.alerts, e, r);
    DetectionActivates(s, d.world, mid.alerts, e, r);
    hide Do, HasActive, IgnoresAlerts, Found, Watched;
    DetectedIsNew(s, d.world, mid.alerts, e, r);
    assert Do(mid, Detect(s)).alerts == s.Detected(d.world, mid.alerts) by { DetectIsDetected(mid, s); }
  }

  lemma DetectIsDetected(d: Desk, s: Scan)
    requires s.Valid()
    ensures Do(d, Detect(s)).alerts == s.Detected(d.world, d.alerts)
  {
  }

  lemma DetectedIsNew(s: Scan, w: World, alerts: seq<Alert>, e: string, r: string)
    requires s.Valid() && !HasActive(alerts, e, r) && HasActive(s.Detected(w, alerts), e, r)
    ensures var after := s.Detected(w, alerts);
      exists j :: |alerts| <= j < |after| && after[j].status == Open && after[j].detectedAt == s.now
                  && after[j].entityId == e && after[j].ruleId == r
  {
    var from := DetectionExactly(s, w, alerts);
    var after := s.Detected(w, alerts);
    var j :| 0 <= j < |after| && after[j].For(e, r);
    assert !(j < |alerts|);
    assert RaisedBy(s, w, after[..|alerts| + (j - |alerts|)], after[|alerts| + (j - |alerts|)], from[j - |alerts|]);
  }
}
