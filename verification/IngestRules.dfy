/** What one ingested event does to the tables, row by row. */
module IngestRules {
  import opened Prelude
  import opened Pipeline

  /** The event asks for its row to be found by source id, and has one. */
  predicate AsksForUpsert(e: Event)
    requires e.EntityAdded?
  {
    && e.sourceId != "" && "upsert_by_source_id" in e.metadata
    && e.metadata["upsert_by_source_id"] !in {Text(""), Flag(false), Dict(map[])}
  }

  lemma UpsertsExactly(e: Event)
    ensures Upserts(e) <==> e.EntityAdded? && AsksForUpsert(e)
  {
  }

  /** The content of an event: its kind and cluster, and its data with the metadata put under its own key. */
  ghost predicate IsContentOf(c: Content, e: Event)
    requires e.EntityAdded?
  {
    && c.kind == e.kind && c.clusterId == e.clusterId
    && "metadata" in c.data && c.data["metadata"] == Dict(e.metadata)
    && forall k :: k != "metadata" ==> (k in c.data <==> k in e.data) && (k in c.data ==> c.data[k] == e.data[k])
  }

  /** Row k is the first with this source id. */
  ghost predicate FirstOf(rows: seq<Entity>, sourceId: string, k: nat) {
    && k < |rows| && rows[k].sourceId == Some(sourceId)
    && forall j :: 0 <= j < k ==> rows[j].sourceId != Some(sourceId)
  }

  lemma FindSourceExactly(rows: seq<Entity>, sourceId: string)
    ensures var k := FindSource(rows, sourceId);
      if k < |rows| then FirstOf(rows, sourceId, k)
      else forall j :: 0 <= j < |rows| ==> rows[j].sourceId != Some(sourceId)
  {
  }

  /** The nicknames afterwards: the event's own, if it has one, names the row. */
  predicate Nicknamed(nicks: map<string, string>, was: map<string, string>, nick: Option<string>, id: string) {
    nicks == if nick == None || nick == Some("") then was else was[nick.value := id]
  }

  /** An upserting event with a row in place rewrites its content, keeps its id, and reports a modification. */
  lemma KnownEntityHandled(s: State, e: Event, newId: string, k: nat)
    requires e.EntityAdded? && AsksForUpsert(e) && FirstOf(s.entities, e.sourceId, k)
    ensures var t := Handled(s, e, newId); var id := s.entities[k].id;
      && |t.entities| == |s.entities| && t.edges == s.edges
      && t.entities[k] == Entity(id, Some(e.sourceId), t.entities[k].content) && IsContentOf(t.entities[k].content, e)
      && (forall j :: 0 <= j < |s.entities| && j != k ==> t.entities[j] == s.entities[j])
      && Nicknamed(t.nicks, s.nicks, e.nick, id)
      && t.published == s.published + [Envelope("entity_modified", e.sourceId, Some(id))]
  {
    UpsertsExactly(e);
    FindSourceExactly(s.entities, e.sourceId);
    hide FindSource, Upserts;
    assert FindSource(s.entities, e.sourceId) == k;
    ContentExactly(e);
    hide ContentOf, IsContentOf;
  }

  /** Every other entity event appends a row under the new id, and reports an addition. */
  lemma NewEntityHandled(s: State, e: Event, newId: string)
    requires e.EntityAdded?
    requires AsksForUpsert(e) ==> forall j :: 0 <= j < |s.entities| ==> s.entities[j].sourceId != Some(e.sourceId)
    ensures var t := Handled(s, e, newId); var n := |s.entities|;
      && |t.entities| == n + 1 && t.entities[..n] == s.entities && t.edges == s.edges
      && t.entities[n] == Entity(newId, Some(e.sourceId), t.entities[n].content)
      && IsContentOf(t.entities[n].content, e) && Nicknamed(t.nicks, s.nicks, e.nick, newId)
      && t.published == s.published + [Envelope("entity_added", e.sourceId, Some(newId))]
  {
    UpsertsExactly(e);
    FindSourceExactly(s.entities, e.sourceId);
    hide FindSource, Upserts;
    ContentExactly(e);
    hide ContentOf, IsContentOf;
  }

  lemma ContentExactly(e: Event)
    requires e.EntityAdded?
    ensures IsContentOf(ContentOf(e), e)
  {
  }

  predicate Joins(edge: EdgeRow, sourceId: string, targetId: string, relationship: string) {
    edge.sourceId == sourceId && edge.targetId == targetId && edge.relationship == relationship
  }

  /** Edge k is the first between these two with this relationship. */
  ghost predicate FirstEdge(edges: seq<EdgeRow>, a: string, b: string, r: string, k: nat) {
    k < |edges| && Joins(edges[k], a, b, r) && forall j :: 0 <= j < k ==> !Joins(edges[j], a, b, r)
  }

  lemma {:induction false} FindEdgeExactly(edges: seq<EdgeRow>, a: string, b: string, r: string)
    ensures var found := FindEdge(edges, a, b, r);
      if found.None? then forall j :: 0 <= j < |edges| ==> !Joins(edges[j], a, b, r)
      else exists k: nat :: FirstEdge(edges, a, b, r, k) && edges[k] == found.value
  {
    if edges == [] {
    } else if Joins(edges[0], a, b, r) {
      assert FirstEdge(edges, a, b, r, 0);
    } else {
      var rest := edges[1..];
      FindEdgeExactly(rest, a, b, r);
      assert forall j :: 0 < j < |edges| ==> edges[j] == rest[j - 1];
      if FindEdge(rest, a, b, r).Some? {
        var k: nat :| FirstEdge(rest, a, b, r, k) && rest[k] == FindEdge(rest, a, b, r).value;
        assert FirstEdge(edges, a, b, r, k + 1);
      }
    }
  }

  /** An edge event with an unknown end does nothing; a known edge is reported again, and a new one is added. */
  lemma EdgeEventHandled(s: State, e: Event, newId: string)
    requires e.EdgeAdded?
    ensures var t := Handled(s, e, newId);
      if e.sourceNick !in s.nicks || e.targetNick !in s.nicks then t == s
      else
        var a, b := s.nicks[e.sourceNick], s.nicks[e.targetNick];
        if forall j :: 0 <= j < |s.edges| ==> !Joins(s.edges[j], a, b, e.relationship) then
          t == s.(edges := s.edges + [EdgeRow(newId, a, b, e.relationship, e.data)],
                  published := s.published + [Envelope("edge_added", e.sourceId, Some(newId))])
        else
          exists k: nat :: FirstEdge(s.edges, a, b, e.relationship, k)
            && t == s.(published := s.published + [Envelope("edge_added", e.sourceId, Some(s.edges[k].id))])
  {
    hide FindEdge;
    if e.sourceNick in s.nicks && e.targetNick in s.nicks {
      FindEdgeExactly(s.edges, s.nicks[e.sourceNick], s.nicks[e.targetNick], e.relationship);
    }
  }

  /** The events of a batch: each entity under its source id, or "connector", with the request for an upsert. */
  lemma BatchEntityExactly(b: Batch, k: nat)
    requires k < |b.entities|
    ensures |EntityEvents(b)| == |b.entities|
    ensures var e, x := EntityEvents(b)[k], b.entities[k];
      && e.EntityAdded? && AsksForUpsert(e)
      && e.sourceId == (if x.sourceId == None || x.sourceId == Some("") then "connector" else x.sourceId.value)
      && e.nick == (if x.nick == None || x.nick == Some("") then Some(e.sourceId) else x.nick)
      && e.kind == x.kind && e.clusterId == x.clusterId && e.data == x.data
      && e.metadata == map["source_id" := Text(e.sourceId), "upsert_by_source_id" := Flag(true)]
  {
    BatchEventUpserts(b.entities[k]);
    UpsertsExactly(EntityEvents(b)[k]);
    hide AsksForUpsert, Upserts;
  }

  /** ... and each edge as it is. */
  lemma BatchEdgeExactly(b: Batch, k: nat)
    requires k < |b.edges|
    ensures |EdgeEvents(b)| == |b.edges|
    ensures var x := b.edges[k];
      EdgeEvents(b)[k] == EdgeAdded("connector", x.sourceNick, x.targetNick, x.relationship, x.data)
  {
  }
}
