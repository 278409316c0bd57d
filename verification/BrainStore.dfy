/** The browser's store: what one event does to it, and the fold of a run of events. */
module BrainStore {
  import opened Prelude

  /** A JavaScript value as it comes out of JSON, or out of reading a missing field. */
  datatype Json =
    | Undefined | Null | Bool(b: bool) | Number(n: real) | Str(s: string)
    | List(items: seq<Json>) | Object(fields: Fields)

  type Fields = map<string, Json>

  function Get(m: Fields, key: string): Json { if key in m then m[key] else Undefined }

  /** `v ?? w`. */
  function OrElse(v: Json, w: Json): Json { if v.Undefined? || v.Null? then w else v }

  datatype Kind =
    | EntityAdded | EntityCreated | EdgeAdded | EntityEdgeCreated | EntityClassified
    | ClusterHealthChanged | AgentAction | AgentActionEvaluated | ReceiptAdded | InsightFlagged
    | WatchdogAlertRaised | WatchdogAlertAcknowledged | WatchdogAlertResolved
    | OtherKind

  datatype BrainEvent = BrainEvent(seqNo: nat, kind: Kind, persistedId: Option<string>, payload: Fields)

  datatype Store = Store(
    lastSeq: nat,
    entities: map<string, Fields>, edges: map<string, Fields>, clusterHealth: map<string, Fields>,
    agentActions: seq<Fields>, receipts: seq<Fields>, insights: seq<Fields>, watchdogAlerts: seq<Fields>)

  const INITIAL := Store(0, map[], map[], map[], [], [], [], [])

  const MAX_ACTIONS := 25
  const MAX_RECEIPTS := 30
  const MAX_INSIGHTS := 10
  const MAX_ALERTS := 25

  // ---------------------------------------------------------------------------
  // One event
  // ---------------------------------------------------------------------------

  /** The id is present and not the empty string. */
  predicate Truthy(id: Option<string>) { id.Some? && id.value != "" }

  function Take<T>(s: seq<T>, n: nat): seq<T> { if |s| <= n then s else s[..n] }

  function Without(items: seq<Fields>, key: string, v: Json): seq<Fields> {
    if items == [] then []
    else (if Get(items[0], key) == v then [] else [items[0]]) + Without(items[1..], key, v)
  }

  function AlertIdOf(item: Fields): Json { Get(item, "alert_id") }

  function Merged(item: Fields, payload: Fields): Fields {
    if AlertIdOf(item) == AlertIdOf(payload) then item + payload else item
  }

  /** Every item with this alert id, overlaid with the payload; then only the items still open. */
  function MergedAndOpen(items: seq<Fields>, payload: Fields): seq<Fields> {
    if items == [] then []
    else
      var item := Merged(items[0], payload);
      (if Get(item, "status") == Str("open") then [item] else []) + MergedAndOpen(items[1..], payload)
  }

  /** The payload without its nick, behind the persisted id; an "id" in the payload wins. */
  function EntityRecord(id: string, payload: Fields): Fields {
    map["id" := Str(id)] + (payload - {"nick"})
  }

  function WithCluster(entity: Fields, cluster: Json): Fields { entity["cluster_id" := cluster] }

  function EdgeRecord(id: string, payload: Fields, now: string): Fields {
    map[ "id" := Str(id),
         "source_id" := Get(payload, "source_id"),
         "target_id" := Get(payload, "target_id"),
         "relationship" := OrElse(Get(payload, "relationship"), OrElse(Get(payload, "relation_type"), Str("related"))),
         "data" := OrElse(Get(payload, "data"), Object(map[])),
         "created_at" := if Get(payload, "created_at").Str? then Get(payload, "created_at") else Str(now) ]
  }

  function AlertInsight(alert: Fields, now: string): Fields {
    map[ "insight_id" := Get(alert, "alert_id"),
         "severity" := Get(alert, "severity"),
         "message" := Get(alert, "reason"),
         "confidence" := Number(1.0),
         "related_entity_ids" := List([Get(alert, "entity_id")]),
         "recommended_actions" := List([Get(alert, "suggested_action")]),
         "timestamp" := OrElse(Get(alert, "detected_at"), Str(now)),
         "demo" := Get(alert, "demo_flag") ]
  }

  function PersistedIdOf(e: BrainEvent): Json {
    if e.persistedId.Some? then Str(e.persistedId.value) else Null
  }

  /** The effect of an event that is new to the store, on everything but the sequence number. */
  function Effect(s: Store, e: BrainEvent, now: string): Store {
    var p := e.payload;
    match e.kind
    case EntityAdded | EntityCreated =>
      if !Truthy(e.persistedId) then s
      else
        var id := e.persistedId.value;
        s.(entities := s.entities[id := EntityRecord(id, p)])
    case EdgeAdded | EntityEdgeCreated =>
      if !Truthy(e.persistedId) || !Get(p, "source_id").Str? || !Get(p, "target_id").Str? then s
      else s.(edges := s.edges[e.persistedId.value := EdgeRecord(e.persistedId.value, p, now)])
    case EntityClassified =>
      var id := OrElse(Get(p, "entity_id"), PersistedIdOf(e));
      if !id.Str? || !Get(p, "cluster_id").Str? || id.s !in s.entities then s
      else s.(entities := s.entities[id.s := WithCluster(s.entities[id.s], Get(p, "cluster_id"))])
    case ClusterHealthChanged =>
      if !Get(p, "cluster_id").Str? || !Get(p, "status").Str? then s
      else s.(clusterHealth := s.clusterHealth[Get(p, "cluster_id").s := p])
    case AgentAction | AgentActionEvaluated =>
      if !Get(p, "action_id").Str? then s
      else s.(agentActions := Take([p] + Without(s.agentActions, "action_id", Get(p, "action_id")), MAX_ACTIONS))
    case ReceiptAdded =>
      if !Get(p, "receipt_id").Str? then s
      else s.(receipts := Take([p] + s.receipts, MAX_RECEIPTS))
    case InsightFlagged =>
      if !Get(p, "insight_id").Str? then s
      else s.(insights := Take([p] + s.insights, MAX_INSIGHTS))
    case WatchdogAlertRaised =>
      if !Get(p, "alert_id").Str? then s
      else s.(
        watchdogAlerts := Take([p] + Without(s.watchdogAlerts, "alert_id", Get(p, "alert_id")), MAX_ALERTS),
        insights := Take([AlertInsight(p, now)] + Without(s.insights, "insight_id", Get(p, "alert_id")), MAX_INSIGHTS))
    case WatchdogAlertAcknowledged =>
      if !Get(p, "alert_id").Str? then s
      else s.(watchdogAlerts := MergedAndOpen(s.watchdogAlerts, p))
    case WatchdogAlertResolved =>
      if !Get(p, "alert_id").Str? then s
      else s.(
        watchdogAlerts := MergedAndOpen(s.watchdogAlerts, p),
        insights := Without(s.insights, "insight_id", Get(p, "alert_id")))
    case OtherKind => s
  }

  /** Events at or below the last sequence number are dropped. */
  function Applied(s: Store, e: BrainEvent, now: string): Store {
    if e.seqNo <= s.lastSeq then s else Effect(s, e, now).(lastSeq := e.seqNo)
  }

  // ---------------------------------------------------------------------------
  // Runs of events
  // ---------------------------------------------------------------------------

  /** An event together with the time at which the store took it. */
  datatype Stamped = Stamped(event: BrainEvent, now: string)

  function Fold(es: seq<Stamped>): Store {
    if es == [] then INITIAL
    else
      var last := es[|es| - 1];
      Effect(Fold(es[..|es| - 1]), last.event, last.now).(lastSeq := last.event.seqNo)
  }

  lemma FoldSnoc(es: seq<Stamped>, x: Stamped)
    ensures Fold(es + [x]) == Effect(Fold(es), x.event, x.now).(lastSeq := x.event.seqNo)
  {
    assert (es + [x])[..|es|] == es;
  }

  ghost predicate DistinctBy(items: seq<Fields>, key: string) {
    forall i, j :: 0 <= i < j < |items| ==> Get(items[i], key) != Get(items[j], key)
  }

  /** The lists stay short, and no action or alert is listed twice. */
  ghost predicate Bounded(s: Store) {
    && |s.agentActions| <= MAX_ACTIONS && |s.receipts| <= MAX_RECEIPTS
    && |s.insights| <= MAX_INSIGHTS && |s.watchdogAlerts| <= MAX_ALERTS
    && DistinctBy(s.agentActions, "action_id")
    && DistinctBy(s.watchdogAlerts, "alert_id")
  }

  lemma {:induction false} WithoutKeeps(items: seq<Fields>, key: string, v: Json)
    ensures |Without(items, key, v)| <= |items|
    ensures forall x :: x in Without(items, key, v) <==> x in items && Get(x, key) != v
    ensures DistinctBy(items, key) ==> DistinctBy(Without(items, key, v), key)
  {
    if items == [] {
    } else {
      var rest := items[1..];
      assert items == [items[0]] + rest;
      WithoutKeeps(rest, key, v);
      if DistinctBy(items, key) {
        forall i, j | 0 <= i < j < |rest| ensures Get(rest[i], key) != Get(rest[j], key) {
          assert Get(items[i + 1], key) != Get(items[j + 1], key);
        }
        forall x | x in rest ensures Get(x, key) != Get(items[0], key) {
          var j :| 0 <= j < |rest| && rest[j] == x;
          assert Get(items[0], key) != Get(items[j + 1], key);
        }
      }
    }
  }

  lemma PutFirst(items: seq<Fields>, key: string, p: Fields, n: nat)
    requires DistinctBy(items, key)
    ensures DistinctBy(Take([p] + Without(items, key, Get(p, key)), n), key)
    ensures |Take([p] + Without(items, key, Get(p, key)), n)| <= n
  {
    WithoutKeeps(items, key, Get(p, key));
    var all := [p] + Without(items, key, Get(p, key));
    forall j | 0 < j < |all| ensures Get(all[j], key) != Get(p, key) {
      assert all[j] in Without(items, key, Get(p, key));
    }
  }

  lemma MergedKeepsId(item: Fields, p: Fields)
    requires "alert_id" in p
    ensures AlertIdOf(Merged(item, p)) == AlertIdOf(item)
  {
  }

  ghost predicate ListsAlert(items: seq<Fields>, id: Json) {
    exists x :: x in items && AlertIdOf(x) == id
  }

  lemma DistinctCons(items: seq<Fields>)
    requires items != []
    ensures DistinctBy(items, "alert_id")
       <==> DistinctBy(items[1..], "alert_id") && !ListsAlert(items[1..], AlertIdOf(items[0]))
  {
    var rest := items[1..];
    if DistinctBy(items, "alert_id") {
      forall i, j | 0 <= i < j < |rest| ensures Get(rest[i], "alert_id") != Get(rest[j], "alert_id") {
        assert Get(items[i + 1], "alert_id") != Get(items[j + 1], "alert_id");
      }
      forall x | x in rest ensures AlertIdOf(x) != AlertIdOf(items[0]) {
        var j :| 0 <= j < |rest| && rest[j] == x;
        assert Get(items[0], "alert_id") != Get(items[j + 1], "alert_id");
      }
    }
    if DistinctBy(rest, "alert_id") && !ListsAlert(rest, AlertIdOf(items[0])) {
      forall i, j | 0 <= i < j < |items| ensures Get(items[i], "alert_id") != Get(items[j], "alert_id") {
        assert items[j] == rest[j - 1] && items[j] in rest;
      }
    }
  }

  /** No alert is duplicated or invented, and what remains is open. */
  lemma {:induction false} MergedAndOpenKeeps(items: seq<Fields>, p: Fields)
    requires DistinctBy(items, "alert_id") && "alert_id" in p
    ensures |MergedAndOpen(items, p)| <= |items|
    ensures DistinctBy(MergedAndOpen(items, p), "alert_id")
    ensures forall x :: x in MergedAndOpen(items, p) ==> ListsAlert(items, AlertIdOf(x))
    ensures forall x :: x in MergedAndOpen(items, p) ==> Get(x, "status") == Str("open")
  {
    hide DistinctBy, AlertIdOf, Get;
    if items == [] {
      EmptyDistinct();
    } else {
      DistinctCons(items);
      MergedAndOpenKeeps(items[1..], p);
      var item, tail := Merged(items[0], p), MergedAndOpen(items[1..], p);
      MergedKeepsId(items[0], p);
      MergedAndOpenCons(items, p);
      forall x | x in MergedAndOpen(items, p) ensures ListsAlert(items, AlertIdOf(x)) {
        if x in tail {
          var y :| y in items[1..] && AlertIdOf(y) == AlertIdOf(x);
          assert y in items;
        } else {
          assert items[0] in items;
        }
      }
      if MergedAndOpen(items, p) != tail {
        DistinctCons([item] + tail);
        assert ([item] + tail)[1..] == tail;
      }
    }
  }

  lemma EmptyDistinct()
    ensures DistinctBy([], "alert_id")
  {
  }

  lemma MergedAndOpenCons(items: seq<Fields>, p: Fields)
    requires items != []
    ensures var item, tail := Merged(items[0], p), MergedAndOpen(items[1..], p);
      MergedAndOpen(items, p) == if Get(item, "status") == Str("open") then [item] + tail else tail
  {
  }

  lemma PresentIfStr(p: Fields, key: string)
    requires Get(p, key).Str?
    ensures key in p
  {
  }

  /** What an event that touches neither the graph nor the alerts does, list by list. */
  lemma ActivityEffect(s: Store, e: BrainEvent, now: string)
    ensures var p := e.payload;
      !GraphKind(e.kind) && !AlertKind(e.kind) ==> Effect(s, e, now) == s.(
        agentActions :=
          if (e.kind == AgentAction || e.kind == AgentActionEvaluated) && Get(p, "action_id").Str?
          then Take([p] + Without(s.agentActions, "action_id", Get(p, "action_id")), MAX_ACTIONS) else s.agentActions,
        receipts :=
          if e.kind == ReceiptAdded && Get(p, "receipt_id").Str? then Take([p] + s.receipts,
              MAX_RECEIPTS) else s.receipts,
        insights :=
          if e.kind == InsightFlagged && Get(p, "insight_id").Str? then Take([p] + s.insights, MAX_INSIGHTS)
          else s.insights)
  {
    hide Take, Without, Get;
  }

  lemma AlertKeepsBounded(s: Store, e: BrainEvent, now: string)
    requires Bounded(s) && AlertKind(e.kind)
    ensures Bounded(Effect(s, e, now))
  {
    hide DistinctBy, Without, MergedAndOpen, AlertInsight, Get;
    var p := e.payload;
    if e.kind == WatchdogAlertRaised {
      PutFirst(s.watchdogAlerts, "alert_id", p, MAX_ALERTS);
    } else if Get(p, "alert_id").Str? {
      PresentIfStr(p, "alert_id");
      MergedAndOpenKeeps(s.watchdogAlerts, p);
      WithoutKeeps(s.insights, "insight_id", Get(p, "alert_id"));
    }
  }

  lemma EffectKeepsBounded(s: Store, e: BrainEvent, now: string)
    requires Bounded(s)
    ensures Bounded(Effect(s, e, now))
  {
    if AlertKind(e.kind) {
      hide *;
      AlertKeepsBounded(s, e, now);
    } else {
      hide DistinctBy, Without, EdgeRecord, OrElse, Truthy, PersistedIdOf, Get, EntityRecord, WithCluster;
      PutFirst(s.agentActions, "action_id", e.payload, MAX_ACTIONS);
    }
  }

  /** ... whatever events have been folded in. */
  lemma {:induction false} FoldIsBounded(es: seq<Stamped>)
    ensures Bounded(Fold(es))
  {
    if es == [] {
    } else {
      FoldIsBounded(es[..|es| - 1]);
      EffectKeepsBounded(Fold(es[..|es| - 1]), es[|es| - 1].event, es[|es| - 1].now);
    }
  }

  // ---------------------------------------------------------------------------
  // The store of the source
  // ---------------------------------------------------------------------------

  class EventStore {
    var lastSeq: nat
    var entities: map<string, Fields>
    var edges: map<string, Fields>
    var clusterHealth: map<string, Fields>
    var agentActions: seq<Fields>
    var receipts: seq<Fields>
    var insights: seq<Fields>
    var watchdogAlerts: seq<Fields>

    ghost function View(): Store
      reads this
    {
      Store(lastSeq, entities, edges, clusterHealth, agentActions, receipts, insights, watchdogAlerts)
    }

    constructor ()
      ensures View() == INITIAL
    {
      lastSeq := 0;
      entities, edges, clusterHealth := map[], map[], map[];
      agentActions, receipts, insights, watchdogAlerts := [], [], [], [];
    }

    method ApplyEvent(e: BrainEvent, now: string)
      modifies this
      ensures View() == Applied(old(View()), e, now)
    {
      hide Effect;
      if e.seqNo <= lastSeq {
        return;
      }
      ApplyToGraph(e, now);
      ApplyToActivity(e, now);
      ApplyToAlerts(e, now);
      lastSeq := e.seqNo;
    }

    /** The branches that touch entities, edges and cluster health. */
    method ApplyToGraph(e: BrainEvent, now: string)
      modifies this
      ensures View() == if GraphKind(e.kind) then Effect(old(View()), e, now) else old(View())
    {
      hide Without, MergedAndOpen, EdgeRecord, AlertInsight, Take, Get, OrElse, PersistedIdOf, EntityRecord,
          WithCluster;
      var p := e.payload;
      if (e.kind == EntityAdded || e.kind == EntityCreated) && Truthy(e.persistedId) {
        entities := entities[e.persistedId.value := EntityRecord(e.persistedId.value, p)];
      }
      if (e.kind == EdgeAdded || e.kind == EntityEdgeCreated) && Truthy(e.persistedId) {
        if Get(p, "source_id").Str? && Get(p, "target_id").Str? {
          edges := edges[e.persistedId.value := EdgeRecord(e.persistedId.value, p, now)];
        }
      }
      if e.kind == EntityClassified {
        var id := OrElse(Get(p, "entity_id"), PersistedIdOf(e));
        if id.Str? && Get(p, "cluster_id").Str? && id.s in entities {
          entities := entities[id.s := WithCluster(entities[id.s], Get(p, "cluster_id"))];
        }
      }
      if e.kind == ClusterHealthChanged {
        if Get(p, "cluster_id").Str? && Get(p, "status").Str? {
          clusterHealth := clusterHealth[Get(p, "cluster_id").s := p];
        }
      }
    }

    /** The branches that touch actions, receipts and flagged insights. */
    method ApplyToActivity(e: BrainEvent, now: string)
      modifies this
      ensures View() == if GraphKind(e.kind) || AlertKind(e.kind) then old(View()) else Effect(old(View()), e, now)
    {
      hide Effect, Without, MergedAndOpen, EdgeRecord, AlertInsight, Take, Get, OrElse, PersistedIdOf, EntityRecord,
          WithCluster;
      var p := e.payload;
      ActivityEffect(View(), e, now);
      if e.kind == AgentAction || e.kind == AgentActionEvaluated {
        if Get(p, "action_id").Str? {
          var existing := Without(agentActions, "action_id", Get(p, "action_id"));
          agentActions := Take([p] + existing, MAX_ACTIONS);
        }
      }
      if e.kind == ReceiptAdded && Get(p, "receipt_id").Str? {
        receipts := Take([p] + receipts, MAX_RECEIPTS);
      }
      if e.kind == InsightFlagged && Get(p, "insight_id").Str? {
        insights := Take([p] + insights, MAX_INSIGHTS);
      }
    }

    /** The branches that touch alerts. */
    method ApplyToAlerts(e: BrainEvent, now: string)
      modifies this
      ensures View() == if AlertKind(e.kind) then Effect(old(View()), e, now) else old(View())
    {
      hide Without, MergedAndOpen, EdgeRecord, AlertInsight, Take, Get, OrElse, PersistedIdOf, EntityRecord,
          WithCluster;
      var p := e.payload;
      if e.kind == WatchdogAlertRaised && Get(p, "alert_id").Str? {
        watchdogAlerts := Take([p] + Without(watchdogAlerts, "alert_id", Get(p, "alert_id")), MAX_ALERTS);
        insights := Take([AlertInsight(p, now)] + Without(insights, "insight_id", Get(p, "alert_id")), MAX_INSIGHTS);
      }
      if (e.kind == WatchdogAlertAcknowledged || e.kind == WatchdogAlertResolved) && Get(p, "alert_id").Str? {
        watchdogAlerts := MergedAndOpen(watchdogAlerts, p);
        if e.kind == WatchdogAlertResolved {
          insights := Without(insights, "insight_id", Get(p, "alert_id"));
        }
      }
    }
  }

  predicate GraphKind(kind: Kind) {
    || kind == EntityAdded || kind == EntityCreated || kind == EdgeAdded || kind == EntityEdgeCreated
    || kind == EntityClassified || kind == ClusterHealthChanged
  }

  predicate AlertKind(kind: Kind) {
    kind == WatchdogAlertRaised || kind == WatchdogAlertAcknowledged || kind == WatchdogAlertResolved
  }
}
