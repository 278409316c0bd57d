/** Ingestion: events become rows, and connector batches upsert them by source id. */
module Pipeline {
  import opened Prelude

  datatype Value = Text(text: string) | Flag(flag: bool) | Dict(fields: map<string, Value>)

  type Data = map<string, Value>

  /** What an ingested event says about its entity. */
  datatype Content = Content(kind: string, data: Data, clusterId: Option<string>)

  datatype Entity = Entity(id: string, sourceId: Option<string>, content: Content)

  datatype EdgeRow = EdgeRow(id: string, sourceId: string, targetId: string, relationship: string, data: Data)

  datatype Event =
    | EntityAdded(sourceId: string, nick: Option<string>, kind: string, clusterId: Option<string>, data: Data,
        metadata: Data)
    | EdgeAdded(sourceId: string, sourceNick: string, targetNick: string, relationship: string, data: Data)
    | Other(eventType: string, sourceId: string)

  datatype Envelope = Envelope(eventType: string, sourceId: string, persistedId: Option<string>)

  datatype State = State(
    entities: seq<Entity>, edges: seq<EdgeRow>, nicks: map<string, string>, published: seq<Envelope>)

  const UPSERT := "upsert_by_source_id"

  predicate Truthy(v: Value) {
    match v
    case Text(s) => s != ""
    case Flag(b) => b
    case Dict(m) => m != map[]
  }

  /** The event asks for its row to be found by source id. */
  predicate Upserts(e: Event) {
    e.EntityAdded? && UPSERT in e.metadata && Truthy(e.metadata[UPSERT]) && e.sourceId != ""
  }

  function ContentOf(e: Event): Content
    requires e.EntityAdded?
  {
    Content(e.kind, e.data["metadata" := Dict(e.metadata)], e.clusterId)
  }

  // ---------------------------------------------------------------------------
  // Tables
  // ---------------------------------------------------------------------------

  /** The first row with this source id; the table's length if there is none. */
  function FindSource(rows: seq<Entity>, sourceId: string): (k: nat)
    ensures k <= |rows|
    ensures k < |rows| ==> rows[k].sourceId == Some(sourceId)
    ensures forall j :: 0 <= j < k ==> rows[j].sourceId != Some(sourceId)
  {
    if rows == [] then 0
    else
      var k := FindSource(rows[..|rows| - 1], sourceId);
      if k < |rows| - 1 then k
      else if rows[|rows| - 1].sourceId == Some(sourceId) then |rows| - 1 else |rows|
  }

  predicate Held(rows: seq<Entity>, sourceId: string) { FindSource(rows, sourceId) < |rows| }

  function Persisted(rows: seq<Entity>, e: Event, newId: string): seq<Entity>
    requires e.EntityAdded?
  {
    var k := FindSource(rows, e.sourceId);
    if Upserts(e) && k < |rows| then rows[k := rows[k].(content := ContentOf(e))]
    else rows + [Entity(newId, Some(e.sourceId), ContentOf(e))]
  }

  function PersistedId(rows: seq<Entity>, e: Event, newId: string): string
    requires e.EntityAdded?
  {
    if Upserts(e) && Held(rows, e.sourceId) then rows[FindSource(rows, e.sourceId)].id else newId
  }

  function Reported(rows: seq<Entity>, e: Event): string
    requires e.EntityAdded?
  {
    if Upserts(e) && Held(rows, e.sourceId) then "entity_modified" else "entity_added"
  }

  function FindEdge(edges: seq<EdgeRow>, sourceId: string, targetId: string, relationship: string): Option<EdgeRow> {
    if edges == [] then None
    else if edges[0].sourceId == sourceId && edges[0].targetId == targetId && edges[0].relationship == relationship
    then Some(edges[0])
    else FindEdge(edges[1..], sourceId, targetId, relationship)
  }

  function WithEdge(edges: seq<EdgeRow>, row: EdgeRow): seq<EdgeRow> {
    if FindEdge(edges, row.sourceId, row.targetId, row.relationship).Some? then edges else edges + [row]
  }

  function EdgeId(edges: seq<EdgeRow>, row: EdgeRow): string {
    var found := FindEdge(edges, row.sourceId, row.targetId, row.relationship);
    if found.Some? then found.value.id else row.id
  }

  function EdgeFor(nicks: map<string, string>, e: Event, newId: string): Option<EdgeRow>
    requires e.EdgeAdded?
  {
    if e.sourceNick !in nicks || e.targetNick !in nicks then None
    else Some(EdgeRow(newId, nicks[e.sourceNick], nicks[e.targetNick], e.relationship, e.data))
  }

  // ---------------------------------------------------------------------------
  // Events
  // ---------------------------------------------------------------------------

  function Named(nicks: map<string, string>, nick: Option<string>, id: string): map<string, string> {
    if nick.Some? && nick.value != "" then nicks[nick.value := id] else nicks
  }

  /** One event; `newId` is the id a new row gets. */
  function Handled(s: State, e: Event, newId: string): State {
    match e
    case EntityAdded(sourceId, nick, _, _, _, _) =>
      var id := PersistedId(s.entities, e, newId);
      State(Persisted(s.entities, e, newId), s.edges, Named(s.nicks, nick, id),
            s.published + [Envelope(Reported(s.entities, e), sourceId, Some(id))])
    case EdgeAdded(sourceId, _, _, _, _) =>
      var row := EdgeFor(s.nicks, e, newId);
      if row.None? then s
      else
        s.(edges := WithEdge(s.edges, row.value),
           published := s.published + [Envelope("edge_added", sourceId, Some(EdgeId(s.edges, row.value)))])
    case Other(eventType, sourceId) => s.(published := s.published + [Envelope(eventType, sourceId, None)])
  }

  function HandledAll(s: State, events: seq<Event>, newIds: seq<string>): State
    requires |newIds| >= |events|
  {
    if events == [] then s
    else Handled(HandledAll(s, events[..|events| - 1], newIds), events[|events| - 1], newIds[|events| - 1])
  }

  class IngestPipeline {
    var entities: seq<Entity>
    var edges: seq<EdgeRow>
    var nickToId: map<string, string>
    var published: seq<Envelope>

    ghost function View(): State
      reads this
    {
      State(entities, edges, nickToId, published)
    }

    constructor (entities: seq<Entity>, edges: seq<EdgeRow>)
      ensures View() == State(entities, edges, map[], [])
    {
      this.entities, this.edges := entities, edges;
      nickToId, published := map[], [];
    }

    method Run(events: seq<Event>, newIds: seq<string>) returns (count: nat)
      requires |newIds| >= |events|
      modifies this
      ensures View() == HandledAll(old(View()), events, newIds)
      ensures count == |events|
    {
      hide Handled;
      count := 0;
      for i := 0 to |events|
        invariant count == i
        invariant View() == HandledAll(old(View()), events[..i], newIds)
      {
        assert events[..i + 1][..i] == events[..i];
        Handle(events[i], newIds[i]);
        count := count + 1;
      }
      assert events[..|events|] == events;
    }

    method Handle(e: Event, newId: string)
      modifies this
      ensures View() == Handled(old(View()), e, newId)
    {
      hide FindEdge, FindSource;
      match e
      case EntityAdded(sourceId, nick, kind, clusterId, data, metadata) =>
        var fullData := data["metadata" := Dict(metadata)];
        var upsert := UPSERT in metadata && Truthy(metadata[UPSERT]);
        var id, reported := PersistEntity(kind, fullData, sourceId, clusterId, upsert, newId);
        if nick.Some? && nick.value != "" {
          nickToId := nickToId[nick.value := id];
        }
        published := published + [Envelope(reported, sourceId, Some(id))];
      case EdgeAdded(sourceId, sourceNick, targetNick, relationship, data) =>
        if sourceNick !in nickToId || targetNick !in nickToId {
          return;
        }
        var id := AddEdge(nickToId[sourceNick], nickToId[targetNick], relationship, data, newId);
        published := published + [Envelope("edge_added", sourceId, Some(id))];
      case Other(eventType, sourceId) =>
        published := published + [Envelope(eventType, sourceId, None)];
    }

    method PersistEntity(kind: string, data: Data, sourceId: string, clusterId: Option<string>, upsert: bool,
        newId: string)
      returns (id: string, reported: string)
      modifies this`entities
      ensures var k := FindSource(old(entities), sourceId);
        if upsert && sourceId != "" && k < |old(entities)| then
          entities == old(entities)[k := old(entities)[k].(content := Content(kind, data, clusterId))]
          && id == old(entities)[k].id && reported == "entity_modified"
        else
          entities == old(entities) + [Entity(newId, Some(sourceId), Content(kind, data, clusterId))]
          && id == newId && reported == "entity_added"
    {
      if upsert && sourceId != "" {
        var k := FindSource(entities, sourceId);
        if k < |entities| {
          entities := entities[k := entities[k].(content := Content(kind, data, clusterId))];
          return entities[k].id, "entity_modified";
        }
      }
      entities := entities + [Entity(newId, Some(sourceId), Content(kind, data, clusterId))];
      return newId, "entity_added";
    }

    method AddEdge(sourceId: string, targetId: string, relationship: string, data: Data, newId: string)
      returns (id: string)
      modifies this`edges
      ensures var row := EdgeRow(newId, sourceId, targetId, relationship, data);
        edges == WithEdge(old(edges), row) && id == EdgeId(old(edges), row)
    {
      var existing := FindEdge(edges, sourceId, targetId, relationship);
      if existing.Some? {
        return existing.value.id;
      }
      edges := edges + [EdgeRow(newId, sourceId, targetId, relationship, data)];
      return newId;
    }
  }

  // ---------------------------------------------------------------------------
  // Edges join persisted entities, whatever the events are
  // ---------------------------------------------------------------------------

  predicate HasEntity(rows: seq<Entity>, id: string) { exists k :: 0 <= k < |rows| && rows[k].id == id }

  ghost predicate EdgesJoin(s: State) {
    && (forall k :: 0 <= k < |s.edges| ==>
          HasEntity(s.entities, s.edges[k].sourceId) && HasEntity(s.entities, s.edges[k].targetId))
    && (forall nick :: nick in s.nicks ==> HasEntity(s.entities, s.nicks[nick]))
  }

  lemma PersistKeepsEntities(rows: seq<Entity>, e: Event, newId: string, id: string)
    requires e.EntityAdded?
    ensures HasEntity(rows, id) ==> HasEntity(Persisted(rows, e, newId), id)
    ensures HasEntity(Persisted(rows, e, newId), PersistedId(rows, e, newId))
  {
    hide ContentOf;
    var now := Persisted(rows, e, newId);
    if HasEntity(rows, id) {
      var k :| 0 <= k < |rows| && rows[k].id == id;
      assert now[k].id == id;
    }
    if Upserts(e) && Held(rows, e.sourceId) {
      assert now[FindSource(rows, e.sourceId)].id == PersistedId(rows, e, newId);
    } else {
      assert now[|rows|].id == newId;
    }
  }

  lemma HandledKeepsEdgesJoin(s: State, e: Event, newId: string)
    requires EdgesJoin(s)
    ensures EdgesJoin(Handled(s, e, newId))
  {
    hide Persisted, PersistedId, HasEntity, FindEdge, FindSource, Upserts;
    var t := Handled(s, e, newId);
    if e.EntityAdded? {
      forall id: string ensures HasEntity(s.entities, id) ==> HasEntity(t.entities, id) {
        PersistKeepsEntities(s.entities, e, newId, id);
      }
      PersistKeepsEntities(s.entities, e, newId, newId);
    }
  }

  /** From any state whose edges join stored entities, any events leave such a state. */
  lemma {:induction false} EveryRunKeepsEdgesJoin(s: State, events: seq<Event>, newIds: seq<string>)
    requires EdgesJoin(s) && |newIds| >= |events|
    ensures EdgesJoin(HandledAll(s, events, newIds))
    decreases |events|
  {
    if events == [] {
    } else {
      hide Handled, EdgesJoin;
      var init := events[..|events| - 1];
      EveryRunKeepsEdgesJoin(s, init, newIds);
      HandledKeepsEdgesJoin(HandledAll(s, init, newIds), events[|events| - 1], newIds[|events| - 1]);
    }
  }

  // ---------------------------------------------------------------------------
  // One row for a source id
  // ---------------------------------------------------------------------------

  ghost predicate AtMostOneRow(rows: seq<Entity>) {
    forall i, j :: 0 <= i < j < |rows| && rows[i].sourceId.Some? ==> rows[i].sourceId != rows[j].sourceId
  }

  /** An event keeps source ids unique exactly when it upserts or its source id is new. */
  lemma UniquenessKeptExactly(rows: seq<Entity>, e: Event, newId: string)
    requires e.EntityAdded? && AtMostOneRow(rows)
    ensures AtMostOneRow(Persisted(rows, e, newId)) <==> Upserts(e) || !Held(rows, e.sourceId)
  {
    hide ContentOf, Upserts;
    var now := Persisted(rows, e, newId);
    var k := FindSource(rows, e.sourceId);
    if !Upserts(e) && k < |rows| {
      assert now[k].sourceId == now[|rows|].sourceId;
    }
  }

  // ---------------------------------------------------------------------------
  // Upserting events refine a map keyed by source id
  // ---------------------------------------------------------------------------

  predicate AllUpsert(events: seq<Event>) { forall k :: 0 <= k < |events| ==> Upserts(events[k]) }

  /** The content of the last event of each source id. */
  function Latest(events: seq<Event>): map<string, Content>
    requires AllUpsert(events)
  {
    if events == [] then map[]
    else
      var last := events[|events| - 1];
      Latest(events[..|events| - 1])[last.sourceId := ContentOf(last)]
  }

  predicate Updates(row: Entity, latest: map<string, Content>) { row.sourceId.Some? && row.sourceId.value in latest }

  /** The table after upserts: rows keep their places and ids, named ones hold the latest content. */
  ghost predicate Evolved(was: seq<Entity>, rows: seq<Entity>, latest: map<string, Content>) {
    && AtMostOneRow(rows) && |was| <= |rows|
    && (forall k :: 0 <= k < |was| ==> rows[k].id == was[k].id && rows[k].sourceId == was[k].sourceId)
    && (forall k :: 0 <= k < |rows| && Updates(rows[k], latest) ==> rows[k].content == latest[rows[k].sourceId.value])
    && (forall k :: 0 <= k < |rows| && !Updates(rows[k], latest) ==> k < |was| && rows[k] == was[k])
    && (forall sourceId :: sourceId in latest ==> Held(rows, sourceId))
  }

  lemma PersistEvolves(was: seq<Entity>, rows: seq<Entity>, latest: map<string, Content>, e: Event, newId: string)
    requires Evolved(was, rows, latest) && Upserts(e)
    ensures Evolved(was, Persisted(rows, e, newId), latest[e.sourceId := ContentOf(e)])
    ensures forall sourceId :: Held(rows, sourceId) ==>
      IdAt(Persisted(rows, e, newId), sourceId) == IdAt(rows, sourceId) && Held(Persisted(rows, e, newId), sourceId)
    ensures Held(Persisted(rows, e, newId), e.sourceId)
    ensures IdAt(Persisted(rows, e, newId), e.sourceId) == PersistedId(rows, e, newId)
  {
    hide ContentOf, Upserts, FindSource, Persisted, PersistedId, IdAt, Held, AtMostOneRow;
    var k := PersistTouches(rows, e, newId);
    TouchEvolves(was, rows, Persisted(rows, e, newId), k, latest, e.sourceId, ContentOf(e));
    forall sourceId | Held(rows, sourceId)
      ensures IdAt(Persisted(rows, e, newId), sourceId) == IdAt(rows, sourceId)
           && Held(Persisted(rows, e, newId), sourceId)
    {
      TouchKeepsId(rows, Persisted(rows, e, newId), k, e.sourceId, ContentOf(e), sourceId);
    }
  }

  /** Row k, old or appended, now belongs to the source id and holds the content; the others are as they were. */
  ghost predicate Touched(rows: seq<Entity>, now: seq<Entity>, k: nat, sourceId: string, content: Content) {
    && k < |now| && k <= |rows| && |now| == (if k == |rows| then |rows| + 1 else |rows|)
    && now[k].sourceId == Some(sourceId) && now[k].content == content
    && (forall j :: 0 <= j < |rows| && j != k ==> now[j] == rows[j])
    && (if k < |rows| then now[k].id == rows[k].id && rows[k].sourceId == Some(sourceId)
        else forall j :: 0 <= j < |rows| ==> rows[j].sourceId != Some(sourceId))
  }

  lemma PersistTouches(rows: seq<Entity>, e: Event, newId: string) returns (k: nat)
    requires Upserts(e)
    ensures e.EntityAdded? && Touched(rows, Persisted(rows, e, newId), k, e.sourceId, ContentOf(e))
    ensures Held(Persisted(rows, e, newId), e.sourceId)
    ensures AtMostOneRow(rows) ==> IdAt(Persisted(rows, e, newId), e.sourceId) == PersistedId(rows, e, newId)
    ensures AtMostOneRow(rows) ==> AtMostOneRow(Persisted(rows, e, newId))
  {
    hide ContentOf, FindSource;
    k := FindSource(rows, e.sourceId);
    var now := Persisted(rows, e, newId);
    assert now[k].sourceId == Some(e.sourceId);
    if AtMostOneRow(rows) { UniquenessKeptExactly(rows, e, newId); }
  }

  lemma TouchEvolves(was: seq<Entity>, rows: seq<Entity>, now: seq<Entity>, k: nat, latest: map<string, Content>,
                     sourceId: string, content: Content)
    requires Evolved(was, rows, latest) && Touched(rows, now, k, sourceId, content) && AtMostOneRow(now)
    ensures Evolved(was, now, latest[sourceId := content])
  {
    hide FindSource;
    var all := latest[sourceId := content];
    forall i | 0 <= i < |now|
      ensures if Updates(now[i], all) then now[i].content == all[now[i].sourceId.value]
              else i < |was| && now[i] == was[i]
    {
      if i != k { assert now[i].sourceId != Some(sourceId) && now[i] == rows[i]; }
    }
    forall s | s in all ensures Held(now, s) {
      if s == sourceId { assert now[k].sourceId == Some(s); }
      else { assert Held(rows, s) && now[FindSource(rows, s)].sourceId == Some(s); }
    }
  }

  lemma TouchKeepsId(rows: seq<Entity>, now: seq<Entity>, k: nat, touched: string, content: Content, sourceId: string)
    requires Touched(rows, now, k, touched, content) && Held(rows, sourceId)
    ensures Held(now, sourceId) && IdAt(now, sourceId) == IdAt(rows, sourceId)
  {
    hide FindSource;
    var j := FindSource(rows, sourceId);
    assert now[j].sourceId == Some(sourceId);
    assert FindSource(now, sourceId) == j;
  }

  function IdAt(rows: seq<Entity>, sourceId: string): string {
    if Held(rows, sourceId) then rows[FindSource(rows, sourceId)].id else ""
  }

  /** The nicknames a batch leaves, read off the final table. */
  function NickIds(nicks: map<string, string>, events: seq<Event>, rows: seq<Entity>): map<string, string>
    requires AllUpsert(events)
  {
    if events == [] then nicks
    else
      var last := events[|events| - 1];
      Named(NickIds(nicks, events[..|events| - 1], rows), last.nick, IdAt(rows, last.sourceId))
  }

  lemma {:induction false} NickIdsStable(nicks: map<string, string>, events: seq<Event>, rows: seq<Entity>,
      now: seq<Entity>)
    requires AllUpsert(events)
    requires forall k :: 0 <= k < |events| ==> IdAt(now, events[k].sourceId) == IdAt(rows, events[k].sourceId)
    ensures NickIds(nicks, events, now) == NickIds(nicks, events, rows)
  {
    hide IdAt, Named, Upserts;
    if events == [] {
    } else {
      NickIdsStable(nicks, events[..|events| - 1], rows, now);
    }
  }

  ghost predicate AllHeld(rows: seq<Entity>, events: seq<Event>) {
    forall k :: 0 <= k < |events| ==> Held(rows, events[k].sourceId)
  }

  /** What a run of upserting events makes of a state. */
  ghost predicate Ran(s: State, t: State, events: seq<Event>)
    requires AllUpsert(events)
  {
    && Evolved(s.entities, t.entities, Latest(events)) && t.edges == s.edges
    && AllHeld(t.entities, events) && t.nicks == NickIds(s.nicks, events, t.entities)
    && |t.published| == |s.published| + |events|
  }

  lemma RanStep(s: State, mid: State, events: seq<Event>, newId: string)
    requires events != [] && AllUpsert(events) && Ran(s, mid, events[..|events| - 1])
    ensures Ran(s, Handled(mid, events[|events| - 1], newId), events)
  {
    hide Evolved, AtMostOneRow, Upserts, Held, IdAt, Persisted, PersistedId, ContentOf, Named, Reported, Handled;
    var init, last := events[..|events| - 1], events[|events| - 1];
    var t := Handled(mid, last, newId);
    PersistEvolves(s.entities, mid.entities, Latest(init), last, newId);
    UpsertHandled(mid, last, newId);
    forall k | 0 <= k < |init| ensures IdAt(t.entities, init[k].sourceId) == IdAt(mid.entities, init[k].sourceId) {
      assert Held(mid.entities, init[k].sourceId);
    }
    forall k | 0 <= k < |events| ensures Held(t.entities, events[k].sourceId) {
      if k < |init| { assert Held(mid.entities, init[k].sourceId); }
    }
    NickIdsStable(s.nicks, init, mid.entities, t.entities);
  }

  lemma {:induction false} UpsertRun(s: State, events: seq<Event>, newIds: seq<string>)
    requires AllUpsert(events) && |newIds| >= |events| && AtMostOneRow(s.entities)
    ensures Ran(s, HandledAll(s, events, newIds), events)
    decreases |events|
  {
    hide HandledAll, Handled, Upserts;
    if events == [] {
      NothingHandled(s, newIds);
    } else {
      hide Ran;
      LastHandled(s, events, newIds);
      UpsertRun(s, events[..|events| - 1], newIds);
      RanStep(s, HandledAll(s, events[..|events| - 1], newIds), events, newIds[|events| - 1]);
    }
  }

  lemma UpsertHandled(s: State, e: Event, newId: string)
    requires Upserts(e)
    ensures var t := Handled(s, e, newId);
      && t.entities == Persisted(s.entities, e, newId) && t.edges == s.edges
      && t.nicks == Named(s.nicks, e.nick, PersistedId(s.entities, e, newId))
      && t.published == s.published
           + [Envelope(Reported(s.entities, e), e.sourceId, Some(PersistedId(s.entities, e, newId)))]
    ensures Held(s.entities, e.sourceId) ==>
      PersistedId(s.entities, e, newId) == IdAt(s.entities, e.sourceId) && Reported(s.entities, e) == "entity_modified"
  {
    hide Persisted, FindSource, Named;
  }

  /** A table with one row for each key of a map, holding its value. */
  ghost predicate Represents(rows: seq<Entity>, m: map<string, Content>) {
    && AtMostOneRow(rows)
    && (forall sourceId :: sourceId in m <==> Held(rows, sourceId))
    && (forall sourceId :: sourceId in m ==> rows[FindSource(rows, sourceId)].content == m[sourceId])
  }

  lemma EvolvedRepresents(was: seq<Entity>, rows: seq<Entity>, m: map<string, Content>, latest: map<string, Content>)
    requires Represents(was, m) && Evolved(was, rows, latest)
    ensures Represents(rows, m + latest)
  {
    hide FindSource;
    forall sourceId: string
      ensures sourceId in m + latest <==> Held(rows, sourceId)
      ensures sourceId in m + latest ==> rows[FindSource(rows, sourceId)].content == (m + latest)[sourceId]
    {
      var k := FindSource(rows, sourceId);
      if k < |rows| && sourceId !in latest {
        assert !Updates(rows[k], latest);
        assert FindSource(was, sourceId) == k;
      }
      if sourceId in m && sourceId !in latest {
        var j := FindSource(was, sourceId);
        assert rows[j].sourceId == Some(sourceId);
      }
    }
  }

  /** Upserting events act on the table as the update of a map with the last content of each source id. */
  lemma {:induction false} UpsertsRefineMap(s: State, events: seq<Event>, newIds: seq<string>, m: map<string, Content>)
    requires AllUpsert(events) && |newIds| >= |events| && Represents(s.entities, m)
    ensures Represents(HandledAll(s, events, newIds).entities, m + Latest(events))
  {
    hide HandledAll, Latest, Upserts;
    UpsertRun(s, events, newIds);
    EvolvedRepresents(s.entities, HandledAll(s, events, newIds).entities, m, Latest(events));
  }

  // ---------------------------------------------------------------------------
  // Running a connector batch again
  // ---------------------------------------------------------------------------

  datatype ConnectorEntity = ConnectorEntity(
    nick: Option<string>, sourceId: Option<string>, kind: string, clusterId: Option<string>, data: Data)

  datatype EdgePayload = EdgePayload(sourceNick: string, targetNick: string, relationship: string, data: Data)

  datatype Batch = Batch(entities: seq<ConnectorEntity>, edges: seq<EdgePayload>)

  function EntityEvent(x: ConnectorEntity): Event {
    var sourceId := if x.sourceId.Some? && x.sourceId.value != "" then x.sourceId.value else "connector";
    EntityAdded(sourceId, Some(if x.nick.Some? && x.nick.value != "" then x.nick.value else sourceId),
                x.kind, x.clusterId, x.data, map["source_id" := Text(sourceId), UPSERT := Flag(true)])
  }

  function EntityEvents(b: Batch): seq<Event> {
    seq(|b.entities|, k requires 0 <= k < |b.entities| => EntityEvent(b.entities[k]))
  }

  function EdgeEvents(b: Batch): seq<Event> {
    seq(|b.edges|, k requires 0 <= k < |b.edges| =>
      EdgeAdded("connector", b.edges[k].sourceNick, b.edges[k].targetNick, b.edges[k].relationship, b.edges[k].data))
  }

  /** A fresh pipeline takes the entities first and the edges after them. */
  function Applied(entities: seq<Entity>, edges: seq<EdgeRow>, b: Batch, newIds: seq<string>): State
    requires |newIds| >= |b.entities| + |b.edges|
  {
    var mid := HandledAll(State(entities, edges, map[], []), EntityEvents(b), newIds);
    HandledAll(mid, EdgeEvents(b), newIds[|b.entities|..])
  }

  /** ... which is one run over all the events. */
  lemma {:induction false} RunConcat(s: State, a: seq<Event>, b: seq<Event>, newIds: seq<string>)
    requires |newIds| >= |a| + |b|
    ensures HandledAll(s, a + b, newIds) == HandledAll(HandledAll(s, a, newIds), b, newIds[|a|..])
    decreases |b|
  {
    hide Handled;
    if b == [] {
      assert a + b == a;
    } else {
      assert (a + b)[..|a + b| - 1] == a + b[..|b| - 1];
      RunConcat(s, a, b[..|b| - 1], newIds);
    }
  }

  /** Applying a batch is one run of a fresh pipeline over the entity events and then the edge events. */
  method ApplyToBrain(entities: seq<Entity>, edges: seq<EdgeRow>, b: Batch, newIds: seq<string>)
    returns (pipeline: IngestPipeline, count: nat)
    requires |newIds| >= |b.entities| + |b.edges|
    ensures pipeline.View() == Applied(entities, edges, b, newIds)
    ensures count == |b.entities| + |b.edges|
  {
    hide HandledAll;
    pipeline := new IngestPipeline(entities, edges);
    count := pipeline.Run(EntityEvents(b) + EdgeEvents(b), newIds);
    RunConcat(State(entities, edges, map[], []), EntityEvents(b), EdgeEvents(b), newIds);
  }

  lemma BatchUpserts(b: Batch)
    ensures AllUpsert(EntityEvents(b))
  {
    forall k | 0 <= k < |b.entities| ensures Upserts(EntityEvent(b.entities[k])) {
      BatchEventUpserts(b.entities[k]);
    }
  }

  lemma BatchEventUpserts(x: ConnectorEntity)
    ensures Upserts(EntityEvent(x))
  {
    var e := EntityEvent(x);
    assert UPSERT in e.metadata && e.metadata[UPSERT] == Flag(true);
  }

  /** With every row in place, a second run ends in the same table. */
  lemma EvolvedAgain(was: seq<Entity>, rows: seq<Entity>, again: seq<Entity>, latest: map<string, Content>)
    requires Evolved(was, rows, latest) && Evolved(rows, again, latest)
    ensures again == rows
  {
    hide FindSource;
    assert |again| > |rows| ==> Updates(again[|rows|], latest);
    forall k | 0 <= k < |rows| ensures again[k] == rows[k] {
      assert Updates(again[k], latest) == Updates(rows[k], latest);
    }
  }

  lemma {:induction false} FindEdgeSnoc(edges: seq<EdgeRow>, row: EdgeRow, a: string, b: string, r: string)
    ensures FindEdge(edges, a, b, r).Some? ==> FindEdge(edges + [row], a, b, r) == FindEdge(edges, a, b, r)
    ensures row.sourceId == a && row.targetId == b && row.relationship == r ==> FindEdge(edges + [row], a, b, r).Some?
  {
    if edges == [] {
    } else {
      assert (edges + [row])[1..] == edges[1..] + [row];
      FindEdgeSnoc(edges[1..], row, a, b, r);
    }
  }

  /** The edge of an event is stored, or cannot be. */
  predicate EdgeStored(s: State, e: Event) {
    e.EdgeAdded? && (e.sourceNick in s.nicks && e.targetNick in s.nicks ==>
      FindEdge(s.edges, s.nicks[e.sourceNick], s.nicks[e.targetNick], e.relationship).Some?)
  }

  predicate AllEdges(events: seq<Event>) { forall k :: 0 <= k < |events| ==> events[k].EdgeAdded? }

  lemma EdgeHandled(s: State, e: Event, newId: string, d: Event)
    requires e.EdgeAdded?
    ensures Handled(s, e, newId).entities == s.entities && Handled(s, e, newId).nicks == s.nicks
    ensures s.published <= Handled(s, e, newId).published
    ensures EdgeStored(Handled(s, e, newId), e)
    ensures EdgeStored(s, d) ==> EdgeStored(Handled(s, e, newId), d)
    ensures EdgeStored(s, e) ==> Handled(s, e, newId).edges == s.edges
  {
    hide FindEdge;
    var row := EdgeFor(s.nicks, e, newId);
    if row.Some? {
      FindEdgeSnoc(s.edges, row.value, row.value.sourceId, row.value.targetId, row.value.relationship);
      if d.EdgeAdded? && d.sourceNick in s.nicks && d.targetNick in s.nicks {
        FindEdgeSnoc(s.edges, row.value, s.nicks[d.sourceNick], s.nicks[d.targetNick], d.relationship);
      }
    }
  }

  lemma {:induction false} EdgeRun(s: State, events: seq<Event>, newIds: seq<string>)
    requires AllEdges(events) && |newIds| >= |events|
    ensures var t := HandledAll(s, events, newIds);
      && t.entities == s.entities && t.nicks == s.nicks && s.published <= t.published
      && (forall k :: 0 <= k < |events| ==> EdgeStored(t, events[k]))
      && ((forall k :: 0 <= k < |events| ==> EdgeStored(s, events[k])) ==> t.edges == s.edges)
    decreases |events|
  {
    if events == [] {
    } else {
      hide Handled, EdgeStored;
      var init, last := events[..|events| - 1], events[|events| - 1];
      EdgeRun(s, init, newIds);
      var mid := HandledAll(s, init, newIds);
      EdgeHandled(mid, last, newIds[|events| - 1], last);
      forall k | 0 <= k < |init| ensures EdgeStored(HandledAll(s, events, newIds), events[k]) {
        EdgeHandled(mid, last, newIds[|events| - 1], init[k]);
      }
      if forall k :: 0 <= k < |events| ==> EdgeStored(s, events[k]) {
        assert EdgeStored(s, last);
        SameEdgesStored(s, mid, last);
      }
    }
  }

  lemma SameEdgesStored(s: State, t: State, e: Event)
    requires EdgeStored(s, e) && t.edges == s.edges && t.nicks == s.nicks
    ensures EdgeStored(t, e)
  {
  }

  /** Each event has reported a modification of the row it names. */
  ghost predicate Modified(s: State, t: State, events: seq<Event>) {
    && |t.published| == |s.published| + |events|
    && (forall sourceId :: Held(s.entities, sourceId) ==>
          Held(t.entities, sourceId) && IdAt(t.entities, sourceId) == IdAt(s.entities, sourceId))
    && forall k :: 0 <= k < |events| ==>
         t.published[|s.published| + k]
         == Envelope("entity_modified", events[k].sourceId, Some(IdAt(s.entities, events[k].sourceId)))
  }

  lemma ModifiedStep(s: State, mid: State, events: seq<Event>, newId: string)
    requires events != [] && AllUpsert(events) && AllHeld(s.entities, events)
    requires Ran(s, mid, events[..|events| - 1]) && Modified(s, mid, events[..|events| - 1])
    ensures Modified(s, Handled(mid, events[|events| - 1], newId), events)
  {
    hide Evolved, AtMostOneRow, Upserts, Held, IdAt, Persisted, PersistedId, ContentOf, Named, Reported, Handled,
        Latest, NickIds;
    var init, last := events[..|events| - 1], events[|events| - 1];
    assert Held(mid.entities, last.sourceId) by { assert Held(s.entities, last.sourceId); }
    PersistEvolves(s.entities, mid.entities, Latest(init), last, newId);
    UpsertHandled(mid, last, newId);
  }

  /** Where every row is held, each entity event reports a modification. */
  lemma {:induction false} HeldRunReports(s: State, events: seq<Event>, newIds: seq<string>)
    requires AllUpsert(events) && |newIds| >= |events| && AtMostOneRow(s.entities) && AllHeld(s.entities, events)
    ensures Modified(s, HandledAll(s, events, newIds), events)
    decreases |events|
  {
    hide HandledAll, Handled, Upserts, IdAt, Held, AtMostOneRow;
    if events == [] {
      NothingHandled(s, newIds);
    } else {
      hide Ran, Modified;
      var init := events[..|events| - 1];
      LastHandled(s, events, newIds);
      HeldRunReports(s, init, newIds);
      UpsertRun(s, init, newIds);
      ModifiedStep(s, HandledAll(s, init, newIds), events, newIds[|events| - 1]);
    }
  }

  lemma NothingHandled(s: State, newIds: seq<string>)
    ensures HandledAll(s, [], newIds) == s
  {
  }

  lemma LastHandled(s: State, events: seq<Event>, newIds: seq<string>)
    requires events != [] && |newIds| >= |events|
    ensures HandledAll(s, events, newIds)
         == Handled(HandledAll(s, events[..|events| - 1], newIds), events[|events| - 1], newIds[|events| - 1])
  {
    hide Handled;
  }

  /**
   * Rerunning a batch keeps every row, id, edge and nickname, adds nothing, and reports each entity as modified,
   * under the id it already had.
   */
  lemma {:induction false} RerunChangesNothing(entities: seq<Entity>, edges: seq<EdgeRow>, b: Batch,
      newIds: seq<string>, newIds': seq<string>)
    requires AtMostOneRow(entities)
    requires |newIds| >= |b.entities| + |b.edges| && |newIds'| >= |b.entities| + |b.edges|
    ensures var once := Applied(entities, edges, b, newIds);
      var again := Applied(once.entities, once.edges, b, newIds');
      && again.entities == once.entities && again.edges == once.edges && again.nicks == once.nicks
      && AtMostOneRow(once.entities)
      && |again.published| >= |b.entities|
      && forall k :: 0 <= k < |b.entities| ==>
           var sourceId := EntityEvent(b.entities[k]).sourceId;
           again.published[k] == Envelope("entity_modified", sourceId, Some(IdAt(once.entities, sourceId)))
  {
    hide HandledAll, Evolved, AtMostOneRow, Upserts, Held, IdAt, EntityEvent, Latest, NickIds, EdgeStored;
    var events, links := EntityEvents(b), EdgeEvents(b);
    BatchUpserts(b);
    var start := State(entities, edges, map[], []);
    var mid := HandledAll(start, events, newIds);
    UpsertRun(start, events, newIds);
    EdgeRun(mid, links, newIds[|b.entities|..]);
    var once := HandledAll(mid, links, newIds[|b.entities|..]);
    EvolvedUnique(entities, mid.entities, Latest(events));
    var start' := State(once.entities, once.edges, map[], []);
    var mid' := HandledAll(start', events, newIds');
    UpsertRun(start', events, newIds');
    EvolvedAgain(entities, mid.entities, mid'.entities, Latest(events));
    HeldRunReports(start', events, newIds');
    EdgeRun(mid', links, newIds'[|b.entities|..]);
    forall k | 0 <= k < |links| ensures EdgeStored(mid', links[k]) {
      SameEdgesStored(once, mid', links[k]);
    }
    var again := HandledAll(mid', links, newIds'[|b.entities|..]);
    assert once == Applied(entities, edges, b, newIds) && again == Applied(once.entities, once.edges, b, newIds');
    assert again.entities == once.entities;
    assert again.edges == once.edges;
    assert again.nicks == once.nicks;
    assert |again.published| >= |b.entities|;
    forall k | 0 <= k < |b.entities|
      ensures again.published[k] == Envelope("entity_modified", EntityEvent(b.entities[k]).sourceId,
                                             Some(IdAt(once.entities, EntityEvent(b.entities[k]).sourceId)))
    {
      assert events[k] == EntityEvent(b.entities[k]);
      assert again.published[k] == mid'.published[|start'.published| + k];
    }
  }

  lemma EvolvedUnique(was: seq<Entity>, rows: seq<Entity>, latest: map<string, Content>)
    requires Evolved(was, rows, latest)
    ensures AtMostOneRow(rows)
  {
  }
}
