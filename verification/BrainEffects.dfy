/** What each kind of event does to the store, on the records and lists before and after. */
module BrainEffects {
  import opened Prelude
  import opened BrainStore

  predicate Carries(item: Fields, key: string, v: Json) { key in item && item[key] == v }

  predicate CarriesText(item: Fields, key: string) { key in item && item[key].Str? }

  /** What JavaScript reads as `item[key]`. */
  predicate Reads(item: Fields, key: string, v: Json) {
    if key in item then v == item[key] else v == Undefined
  }

  /** A field that is there and neither undefined nor null. */
  predicate Given(item: Fields, key: string) { key in item && !item[key].Undefined? && !item[key].Null? }

  /** The event is new to the store, and its kind is one of two. */
  predicate News(s: Store, e: BrainEvent, kind: Kind, other: Kind) {
    e.seqNo > s.lastSeq && (e.kind == kind || e.kind == other)
  }

  /** An event at or below the last number, or of any other kind, leaves the whole content alone. */
  lemma OthersChangeNothing(s: Store, e: BrainEvent, now: string)
    requires e.seqNo <= s.lastSeq || e.kind == OtherKind
    ensures Applied(s, e, now) == s.(lastSeq := if e.seqNo > s.lastSeq then e.seqNo else s.lastSeq)
  {
  }

  // ---------------------------------------------------------------------------
  // Entities, edges and cluster health
  // ---------------------------------------------------------------------------

  /** An entity is stored under its persisted id: the payload without "nick", and the id unless the payload has one. */
  lemma EntityStored(s: Store, e: BrainEvent, now: string)
    requires News(s, e, EntityAdded, EntityCreated)
    ensures var t, p := Applied(s, e, now), e.payload;
      if e.persistedId.None? || e.persistedId.value == "" then t == s.(lastSeq := e.seqNo)
      else
        var id := e.persistedId.value;
        && id in t.entities && t == s.(lastSeq := e.seqNo, entities := s.entities[id := t.entities[id]])
        && var record := t.entities[id];
           && "id" in record && record["id"] == (if "id" in p then p["id"] else Str(id))
           && "nick" !in record
           && forall k :: k != "id" && k != "nick" ==>
                (k in record <==> k in p) && (k in record ==> record[k] == p[k])
  {
    if e.persistedId.Some? { EntityRecordExactly(e.persistedId.value, e.payload); }
    hide EntityRecord;
  }

  lemma EntityRecordExactly(id: string, p: Fields)
    ensures var record := EntityRecord(id, p);
      && "id" in record && record["id"] == (if "id" in p then p["id"] else Str(id))
      && "nick" !in record
      && forall k :: k != "id" && k != "nick" ==>
           (k in record <==> k in p) && (k in record ==> record[k] == p[k])
  {
  }

  /** An edge is stored under its persisted id, with six fields, when both ends are text. */
  lemma EdgeStored(s: Store, e: BrainEvent, now: string)
    requires News(s, e, EdgeAdded, EntityEdgeCreated)
    ensures var t, p := Applied(s, e, now), e.payload;
      if e.persistedId.None? || e.persistedId.value == ""
         || !CarriesText(p, "source_id") || !CarriesText(p, "target_id") then t == s.(lastSeq := e.seqNo)
      else
        var id := e.persistedId.value;
        && id in t.edges && t == s.(lastSeq := e.seqNo, edges := s.edges[id := t.edges[id]])
        && IsEdgeRecord(t.edges[id], id, p, now)
  {
    if e.persistedId.Some? && CarriesText(e.payload, "source_id") && CarriesText(e.payload, "target_id") {
      EdgeRecordExactly(e.persistedId.value, e.payload, now);
    }
    hide EdgeRecord, IsEdgeRecord;
  }

  lemma EdgeRecordExactly(id: string, p: Fields, now: string)
    requires CarriesText(p, "source_id") && CarriesText(p, "target_id")
    ensures IsEdgeRecord(EdgeRecord(id, p, now), id, p, now)
  {
  }

  predicate IsEdgeRecord(record: Fields, id: string, p: Fields, now: string)
    requires "source_id" in p && "target_id" in p
  {
    && record.Keys == {"id", "source_id", "target_id", "relationship", "data", "created_at"}
    && record["id"] == Str(id) && record["source_id"] == p["source_id"] && record["target_id"] == p["target_id"]
    && record["relationship"] == (if Given(p, "relationship") then p["relationship"]
                                  else if Given(p, "relation_type") then p["relation_type"] else Str("related"))
    && record["data"] == (if Given(p, "data") then p["data"] else Object(map[]))
    && record["created_at"] == (if CarriesText(p, "created_at") then p["created_at"] else Str(now))
  }

  /** The entity a classification names: the payload's, or else the persisted id. */
  predicate Names(e: BrainEvent, id: string) {
    if Given(e.payload, "entity_id") then e.payload["entity_id"] == Str(id) else e.persistedId == Some(id)
  }

  /** A classification gives a stored entity its cluster and changes nothing else of it. */
  lemma EntityClassifiedExactly(s: Store, e: BrainEvent, now: string, id: string)
    requires e.seqNo > s.lastSeq && e.kind == EntityClassified && Names(e, id)
    ensures var t, p := Applied(s, e, now), e.payload;
      if !CarriesText(p, "cluster_id") || id !in s.entities then t == s.(lastSeq := e.seqNo)
      else
        && id in t.entities && t == s.(lastSeq := e.seqNo, entities := s.entities[id := t.entities[id]])
        && var record := t.entities[id];
           && "cluster_id" in record && record["cluster_id"] == p["cluster_id"]
           && forall k :: k != "cluster_id" ==>
                (k in record <==> k in s.entities[id]) && (k in record ==> record[k] == s.entities[id][k])
  {
  }

  lemma UnnamedClassifiesNothing(s: Store, e: BrainEvent, now: string)
    requires e.seqNo > s.lastSeq && e.kind == EntityClassified && forall id: string :: !Names(e, id)
    ensures Applied(s, e, now) == s.(lastSeq := e.seqNo)
  {
    var id := OrElse(Get(e.payload, "entity_id"), PersistedIdOf(e));
    if id.Str? { assert Names(e, id.s); }
  }

  /** The health of a cluster is the last payload that named it and its status. */
  lemma HealthStored(s: Store, e: BrainEvent, now: string)
    requires e.seqNo > s.lastSeq && e.kind == ClusterHealthChanged
    ensures var t, p := Applied(s, e, now), e.payload;
      if !CarriesText(p, "cluster_id") || !CarriesText(p, "status") then t == s.(lastSeq := e.seqNo)
      else t == s.(lastSeq := e.seqNo, clusterHealth := s.clusterHealth[p["cluster_id"].s := p])
  {
  }

  // ---------------------------------------------------------------------------
  // Lists
  // ---------------------------------------------------------------------------

  /** Positions of a list of length n, in increasing order. */
  ghost predicate Positions(at: seq<nat>, n: nat) {
    && (forall i :: 0 <= i < |at| ==> at[i] < n)
    && (forall i, j :: 0 <= i < j < |at| ==> at[i] < at[j])
  }

  ghost predicate FilteredAt(items: seq<Fields>, rest: seq<Fields>, key: string, v: Json, at: seq<nat>) {
    && Positions(at, |items|) && |rest| == |at|
    && (forall i :: 0 <= i < |at| ==> rest[i] == items[at[i]])
    && (forall j :: 0 <= j < |items| ==> (j in at <==> !Carries(items[j], key, v)))
  }

  /** `rest` is `items` without those that carry this value, in their old order. */
  ghost predicate Filtered(items: seq<Fields>, rest: seq<Fields>, key: string, v: Json) {
    exists at :: FilteredAt(items, rest, key, v, at)
  }

  lemma {:induction false} WithoutSnoc(items: seq<Fields>, x: Fields, key: string, v: Json)
    ensures Without(items + [x], key, v) == Without(items, key, v) + if Get(x, key) == v then [] else [x]
  {
    hide Get;
    if items == [] {
      assert [x][1..] == [] && [] + [x] == [x];
    } else {
      var front := if Get(items[0], key) == v then [] else [items[0]];
      var last := if Get(x, key) == v then [] else [x];
      assert (items + [x])[0] == items[0] && (items + [x])[1..] == items[1..] + [x];
      WithoutSnoc(items[1..], x, key, v);
      var rest := Without(items[1..], key, v);
      assert Without(items, key, v) == front + rest;
      assert Without(items + [x], key, v) == front + (rest + last);
      assert front + (rest + last) == (front + rest) + last;
      hide Without;
    }
  }

  lemma {:induction false} WithoutFilters(items: seq<Fields>, key: string, v: Json)
    requires !v.Undefined?
    ensures Filtered(items, Without(items, key, v), key, v)
  {
    if items == [] {
      assert FilteredAt(items, [], key, v, []);
    } else {
      var init, x := items[..|items| - 1], items[|items| - 1];
      var rest := Without(init, key, v);
      WithoutFilters(init, key, v);
      assert items == init + [x];
      WithoutSnoc(init, x, key, v);
      hide FilteredAt, Without;
      var at :| FilteredAt(init, rest, key, v, at);
      FilterOneMore(init, x, rest, key, v, at);
      assert rest + [] == rest;
    }
  }

  lemma FilterOneMore(items: seq<Fields>, x: Fields, rest: seq<Fields>, key: string, v: Json, at: seq<nat>)
    requires FilteredAt(items, rest, key, v, at)
    ensures Filtered(items + [x], if Carries(x, key, v) then rest else rest + [x], key, v)
  {
    hide FilteredAt, Carries;
    if Carries(x, key, v) {
      FilterSkips(items, x, rest, key, v, at);
    } else {
      FilterTakes(items, x, rest, key, v, at);
    }
  }

  lemma FilterTakes(items: seq<Fields>, x: Fields, rest: seq<Fields>, key: string, v: Json, at: seq<nat>)
    requires FilteredAt(items, rest, key, v, at) && !Carries(x, key, v)
    ensures FilteredAt(items + [x], rest + [x], key, v, at + [|items|])
  {
    hide Carries, Positions;
    var n := |items|;
    PositionsSnoc(at, n);
    var all, at' := items + [x], at + [n];
    forall j | 0 <= j < |all| ensures j in at' <==> !Carries(all[j], key, v) {
      if j < n { assert j in at <==> !Carries(items[j], key, v); }
    }
  }

  lemma FilterSkips(items: seq<Fields>, x: Fields, rest: seq<Fields>, key: string, v: Json, at: seq<nat>)
    requires FilteredAt(items, rest, key, v, at) && Carries(x, key, v)
    ensures FilteredAt(items + [x], rest, key, v, at)
  {
    hide Carries, Positions;
    PositionsSnoc(at, |items|);
    var all := items + [x];
    forall j | 0 <= j < |all| ensures j in at <==> !Carries(all[j], key, v) {
      if j < |items| { assert j in at <==> !Carries(items[j], key, v); }
    }
  }

  lemma PositionsSnoc(at: seq<nat>, n: nat)
    requires Positions(at, n)
    ensures Positions(at, n + 1) && Positions(at + [n], n + 1)
    ensures n !in at && forall i :: 0 <= i < |at| ==> at[i] < n
  {
  }

  /** The payload, then the others in their old order, up to `limit` in all. */
  ghost predicate PutInFront(before: seq<Fields>, after: seq<Fields>, p: Fields, limit: nat)
    requires limit > 0
  {
    after == [p] + (if |before| < limit then before else before[..limit - 1])
  }

  lemma TakeInFront(before: seq<Fields>, p: Fields, limit: nat)
    requires limit > 0
    ensures PutInFront(before, Take([p] + before, limit), p, limit)
  {
  }

  /** An action replaces the listed one with its id and comes first of at most 25. */
  lemma ActionListed(s: Store, e: BrainEvent, now: string)
    requires News(s, e, AgentAction, AgentActionEvaluated)
    ensures var t, p := Applied(s, e, now), e.payload;
      if !CarriesText(p, "action_id") then t == s.(lastSeq := e.seqNo)
      else
        && t == s.(lastSeq := e.seqNo, agentActions := t.agentActions)
        && exists rest :: Filtered(s.agentActions, rest, "action_id", p["action_id"])
                          && PutInFront(rest, t.agentActions, p, 25)
  {
    var p := e.payload;
    hide Without, Filtered, Take, PutInFront;
    if CarriesText(p, "action_id") {
      var rest := Without(s.agentActions, "action_id", p["action_id"]);
      WithoutFilters(s.agentActions, "action_id", p["action_id"]);
      TakeInFront(rest, p, 25);
    }
  }

  /** A receipt comes first of at most 30. */
  lemma ReceiptListed(s: Store, e: BrainEvent, now: string)
    requires e.seqNo > s.lastSeq && e.kind == ReceiptAdded
    ensures var t, p := Applied(s, e, now), e.payload;
      if !CarriesText(p, "receipt_id") then t == s.(lastSeq := e.seqNo)
      else t == s.(lastSeq := e.seqNo, receipts := t.receipts) && PutInFront(s.receipts, t.receipts, p, 30)
  {
    TakeInFront(s.receipts, e.payload, 30);
  }

  /** An insight comes first of at most 10. */
  lemma InsightListed(s: Store, e: BrainEvent, now: string)
    requires e.seqNo > s.lastSeq && e.kind == InsightFlagged
    ensures var t, p := Applied(s, e, now), e.payload;
      if !CarriesText(p, "insight_id") then t == s.(lastSeq := e.seqNo)
      else t == s.(lastSeq := e.seqNo, insights := t.insights) && PutInFront(s.insights, t.insights, p, 10)
  {
    TakeInFront(s.insights, e.payload, 10);
  }

  // ---------------------------------------------------------------------------
  // Alerts
  // ---------------------------------------------------------------------------

  /** The insight that stands for a raised alert. */
  predicate IsInsightOf(insight: Fields, alert: Fields, now: string) {
    && insight.Keys == {"insight_id", "severity", "message", "confidence", "related_entity_ids", "recommended_actions",
                        "timestamp", "demo"}
    && Reads(alert, "alert_id", insight["insight_id"]) && Reads(alert, "severity", insight["severity"])
    && Reads(alert, "reason", insight["message"]) && insight["confidence"] == Number(1.0)
    && insight["related_entity_ids"].List? && |insight["related_entity_ids"].items| == 1
    && Reads(alert, "entity_id", insight["related_entity_ids"].items[0])
    && insight["recommended_actions"].List? && |insight["recommended_actions"].items| == 1
    && Reads(alert, "suggested_action", insight["recommended_actions"].items[0])
    && insight["timestamp"] == (if Given(alert, "detected_at") then alert["detected_at"] else Str(now))
    && Reads(alert, "demo_flag", insight["demo"])
  }

  lemma AlertInsightExactly(alert: Fields, now: string)
    ensures IsInsightOf(AlertInsight(alert, now), alert, now)
  {
  }

  /** An alert replaces the listed one with its id and comes first of at most 25, and so does its insight, of 10. */
  lemma AlertRaised(s: Store, e: BrainEvent, now: string)
    requires e.seqNo > s.lastSeq && e.kind == WatchdogAlertRaised
    ensures var t, p := Applied(s, e, now), e.payload;
      if !CarriesText(p, "alert_id") then t == s.(lastSeq := e.seqNo)
      else
        && t == s.(lastSeq := e.seqNo, watchdogAlerts := t.watchdogAlerts, insights := t.insights)
        && (exists rest :: Filtered(s.watchdogAlerts, rest, "alert_id", p["alert_id"])
                           && PutInFront(rest, t.watchdogAlerts, p, 25))
        && (exists rest, insight :: Filtered(s.insights, rest, "insight_id", p["alert_id"])
                                    && IsInsightOf(insight, p, now) && PutInFront(rest, t.insights, insight, 10))
  {
    var p := e.payload;
    hide Without, Filtered, Take, AlertInsight, IsInsightOf, PutInFront;
    if CarriesText(p, "alert_id") {
      var alerts := Without(s.watchdogAlerts, "alert_id", p["alert_id"]);
      WithoutFilters(s.watchdogAlerts, "alert_id", p["alert_id"]);
      TakeInFront(alerts, p, 25);
      var insights := Without(s.insights, "insight_id", p["alert_id"]);
      WithoutFilters(s.insights, "insight_id", p["alert_id"]);
      AlertInsightExactly(p, now);
      TakeInFront(insights, AlertInsight(p, now), 10);
    }
  }

  /** The listed item after the event: overlaid with the payload when it is the alert the payload names. */
  ghost predicate OverlaidItem(item: Fields, p: Fields, id: Json, after: Fields) {
    if Carries(item, "alert_id", id) then
      && after.Keys == item.Keys + p.Keys
      && forall k :: k in after ==> after[k] == if k in p then p[k] else item[k]
    else after == item
  }

  /** The status such an item ends up with is "open". */
  predicate StaysOpen(item: Fields, p: Fields, id: Json) {
    if Carries(item, "alert_id", id) && "status" in p then p["status"] == Str("open")
    else Carries(item, "status", Str("open"))
  }

  ghost predicate UpdatedAt(items: seq<Fields>, after: seq<Fields>, p: Fields, id: Json, at: seq<nat>) {
    && Positions(at, |items|) && |after| == |at|
    && (forall i :: 0 <= i < |at| ==> OverlaidItem(items[at[i]], p, id, after[i]))
    && (forall j :: 0 <= j < |items| ==> (j in at <==> StaysOpen(items[j], p, id)))
  }

  /** The named alert is overlaid with the payload, and what is open then stays, in its old order. */
  ghost predicate Updated(items: seq<Fields>, after: seq<Fields>, p: Fields, id: Json) {
    exists at :: UpdatedAt(items, after, p, id, at)
  }

  lemma {:induction false} MergedSnoc(items: seq<Fields>, x: Fields, p: Fields)
    ensures var item := Merged(x, p);
      MergedAndOpen(items + [x], p)
      == MergedAndOpen(items, p) + if Get(item, "status") == Str("open") then [item] else []
  {
    hide Merged, Get;
    if items == [] {
      assert [x][1..] == [] && [] + [x] == [x];
    } else {
      var first, last := Merged(items[0], p), Merged(x, p);
      var front := if Get(first, "status") == Str("open") then [first] else [];
      var back := if Get(last, "status") == Str("open") then [last] else [];
      assert (items + [x])[0] == items[0] && (items + [x])[1..] == items[1..] + [x];
      MergedSnoc(items[1..], x, p);
      var rest := MergedAndOpen(items[1..], p);
      assert MergedAndOpen(items, p) == front + rest;
      assert MergedAndOpen(items + [x], p) == front + (rest + back);
      assert front + (rest + back) == (front + rest) + back;
      hide MergedAndOpen;
    }
  }

  lemma {:induction false} MergedUpdates(items: seq<Fields>, p: Fields)
    requires CarriesText(p, "alert_id")
    ensures Updated(items, MergedAndOpen(items, p), p, p["alert_id"])
  {
    hide OverlaidItem, StaysOpen, Merged, Get;
    var id := p["alert_id"];
    if items == [] {
      assert UpdatedAt(items, [], p, id, []);
    } else {
      var init, x := items[..|items| - 1], items[|items| - 1];
      var rest := MergedAndOpen(init, p);
      MergedUpdates(init, p);
      assert items == init + [x];
      MergedSnoc(init, x, p);
      MergedItem(x, p);
      hide UpdatedAt, MergedAndOpen;
      var at :| UpdatedAt(init, rest, p, id, at);
      UpdateOneMore(init, x, rest, p, id, Merged(x, p), at);
      assert rest + [] == rest;
    }
  }

  lemma MergedItem(item: Fields, p: Fields)
    requires CarriesText(p, "alert_id")
    ensures OverlaidItem(item, p, p["alert_id"], Merged(item, p))
    ensures Get(Merged(item, p), "status") == Str("open") <==> StaysOpen(item, p, p["alert_id"])
  {
  }

  lemma UpdateOneMore(items: seq<Fields>, x: Fields, rest: seq<Fields>, p: Fields, id: Json, after: Fields,
                      at: seq<nat>)
    requires UpdatedAt(items, rest, p, id, at) && OverlaidItem(x, p, id, after)
    ensures Updated(items + [x], if StaysOpen(x, p, id) then rest + [after] else rest, p, id)
  {
    hide UpdatedAt, OverlaidItem, StaysOpen;
    if StaysOpen(x, p, id) {
      UpdateTakes(items, x, rest, p, id, after, at);
    } else {
      UpdateSkips(items, x, rest, p, id, at);
    }
  }

  lemma UpdateTakes(items: seq<Fields>, x: Fields, rest: seq<Fields>, p: Fields, id: Json, after: Fields, at: seq<nat>)
    requires UpdatedAt(items, rest, p, id, at) && OverlaidItem(x, p, id, after) && StaysOpen(x, p, id)
    ensures UpdatedAt(items + [x], rest + [after], p, id, at + [|items|])
  {
    hide OverlaidItem, StaysOpen, Positions;
    var n := |items|;
    PositionsSnoc(at, n);
    var all, at', rest' := items + [x], at + [n], rest + [after];
    forall i | 0 <= i < |at'| ensures OverlaidItem(all[at'[i]], p, id, rest'[i]) {
      if i < |at| { assert OverlaidItem(items[at[i]], p, id, rest[i]); }
    }
    forall j | 0 <= j < |all| ensures j in at' <==> StaysOpen(all[j], p, id) {
      if j < n { assert j in at <==> StaysOpen(items[j], p, id); }
    }
  }

  lemma UpdateSkips(items: seq<Fields>, x: Fields, rest: seq<Fields>, p: Fields, id: Json, at: seq<nat>)
    requires UpdatedAt(items, rest, p, id, at) && !StaysOpen(x, p, id)
    ensures UpdatedAt(items + [x], rest, p, id, at)
  {
    hide OverlaidItem, StaysOpen, Positions;
    PositionsSnoc(at, |items|);
    var all := items + [x];
    forall i | 0 <= i < |at| ensures OverlaidItem(all[at[i]], p, id, rest[i]) {
      assert OverlaidItem(items[at[i]], p, id, rest[i]);
    }
    forall j | 0 <= j < |all| ensures j in at <==> StaysOpen(all[j], p, id) {
      if j < |items| { assert j in at <==> StaysOpen(items[j], p, id); }
    }
  }

  /** Acknowledging and resolving update the list of open alerts; resolving also drops the insight. */
  lemma AlertUpdated(s: Store, e: BrainEvent, now: string)
    requires News(s, e, WatchdogAlertAcknowledged, WatchdogAlertResolved)
    ensures var t, p := Applied(s, e, now), e.payload;
      if !CarriesText(p, "alert_id") then t == s.(lastSeq := e.seqNo)
      else
        && t == s.(lastSeq := e.seqNo, watchdogAlerts := t.watchdogAlerts, insights := t.insights)
        && Updated(s.watchdogAlerts, t.watchdogAlerts, p, p["alert_id"])
        && if e.kind == WatchdogAlertResolved then Filtered(s.insights, t.insights, "insight_id", p["alert_id"])
           else t.insights == s.insights
  {
    var p := e.payload;
    if CarriesText(p, "alert_id") {
      MergedUpdates(s.watchdogAlerts, p);
      WithoutFilters(s.insights, "insight_id", p["alert_id"]);
      hide Without, Filtered, Updated, MergedAndOpen;
    }
  }

  ghost predicate OthersOpenAt(items: seq<Fields>, after: seq<Fields>, id: Json, at: seq<nat>) {
    && Positions(at, |items|) && |after| == |at|
    && (forall i :: 0 <= i < |at| ==> after[i] == items[at[i]])
    && (forall j :: 0 <= j < |items| ==>
          (j in at <==> !Carries(items[j], "alert_id", id) && Carries(items[j], "status", Str("open"))))
  }

  lemma ClosedItem(item: Fields, p: Fields, id: Json, after: Fields)
    requires "status" in p && p["status"] != Str("open")
    ensures StaysOpen(item, p, id) <==> !Carries(item, "alert_id", id) && Carries(item, "status", Str("open"))
    ensures StaysOpen(item, p, id) && OverlaidItem(item, p, id, after) ==> after == item
  {
  }

  lemma ClosedUpdate(items: seq<Fields>, after: seq<Fields>, p: Fields, id: Json, at: seq<nat>)
    requires UpdatedAt(items, after, p, id, at) && "status" in p && p["status"] != Str("open")
    ensures OthersOpenAt(items, after, id, at) && forall x :: x in after ==> !Carries(x, "alert_id", id)
  {
    hide Carries, StaysOpen, OverlaidItem;
    forall i | 0 <= i < |at| ensures after[i] == items[at[i]] && !Carries(after[i], "alert_id", id) {
      assert at[i] in at;
      ClosedItem(items[at[i]], p, id, after[i]);
    }
    forall j | 0 <= j < |items|
      ensures j in at <==> !Carries(items[j], "alert_id", id) && Carries(items[j], "status", Str("open"))
    {
      ClosedItem(items[j], p, id, items[j]);
    }
  }

  /**
   * A payload with a status that is not open takes its alert off the list; every other open alert stays,
   * unchanged and in order.
   */
  lemma ClosedAlertLeaves(s: Store, e: BrainEvent, now: string)
    requires News(s, e, WatchdogAlertAcknowledged, WatchdogAlertResolved)
    requires CarriesText(e.payload, "alert_id") && "status" in e.payload && e.payload["status"] != Str("open")
    ensures var after, id := Applied(s, e, now).watchdogAlerts, e.payload["alert_id"];
      && (forall x :: x in after ==> !Carries(x, "alert_id", id))
      && exists at :: OthersOpenAt(s.watchdogAlerts, after, id, at)
  {
    var p, id := e.payload, e.payload["alert_id"];
    var after := Applied(s, e, now).watchdogAlerts;
    AlertUpdated(s, e, now);
    hide Applied, UpdatedAt, OthersOpenAt, Carries;
    var at :| UpdatedAt(s.watchdogAlerts, after, p, id, at);
    ClosedUpdate(s.watchdogAlerts, after, p, id, at);
  }
}
