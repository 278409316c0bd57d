/** What the two edge counters count, edge by edge. */
module EdgeMeaning {
  import opened Prelude
  import opened EdgeCounts

  /** The edge joins two different allowed clusters, and this is their key, smaller name first. */
  predicate Under(e: Edge, c: Clusters, allowed: set<string>, key: string) {
    && e.sourceId in c && e.targetId in c && c[e.sourceId].Some? && c[e.targetId].Some?
    && var a, b := c[e.sourceId].value, c[e.targetId].value;
       && a != b && a in allowed && b in allowed
       && key == if StrLt(a, b) then a + ":" + b else b + ":" + a
  }

  /** The positions of the edges under a key. */
  function PositionsUnder(edges: seq<Edge>, c: Clusters, allowed: set<string>, key: string): set<nat> {
    set i | 0 <= i < |edges| && Under(edges[i], c, allowed, key)
  }

  lemma CrossingUnder(e: Edge, c: Clusters, allowed: set<string>, key: string)
    ensures Under(e, c, allowed, key)
       <==> Crossing(e, c, allowed).Some? && Key(Crossing(e, c, allowed).value) == key
  {
    hide StrLe;
    var a, b := ClusterAt(c, e.sourceId), ClusterAt(c, e.targetId);
    if a.Some? && b.Some? {
      PairKeyIsKey(a.value, b.value);
      hide Key, Ordered;
    }
  }

  /** The pair of an edge lists its two clusters in order. */
  lemma CrossingExactly(e: Edge, c: Clusters, allowed: set<string>)
    ensures var p := Crossing(e, c, allowed);
      if exists key :: Under(e, c, allowed, key) then
        && p.Some? && StrLt(p.value.lo, p.value.hi)
        && {p.value.lo, p.value.hi} == {c[e.sourceId].value, c[e.targetId].value}
      else p.None?
  {
    var p := Crossing(e, c, allowed);
    if p.Some? {
      CrossingUnder(e, c, allowed, Key(p.value));
      StrLeTotal(p.value.lo, p.value.hi);
      var a, b := c[e.sourceId].value, c[e.targetId].value;
      StrLeTotal(a, b);
    }
    if key :| Under(e, c, allowed, key) { CrossingUnder(e, c, allowed, key); }
  }

  lemma PositionsSnoc(edges: seq<Edge>, c: Clusters, allowed: set<string>, key: string)
    requires edges != []
    ensures var n := |edges| - 1;
      |PositionsUnder(edges, c, allowed, key)|
      == |PositionsUnder(edges[..n], c, allowed, key)| + if Under(edges[n], c, allowed, key) then 1 else 0
  {
    hide Under;
    var n := |edges| - 1;
    var before, after := PositionsUnder(edges[..n], c, allowed, key), PositionsUnder(edges, c, allowed, key);
    assert n !in before;
    if Under(edges[n], c, allowed, key) {
      assert after == before + {n};
    } else {
      assert after == before;
    }
  }

  lemma CountSnoc(edges: seq<Edge>, c: Clusters, allowed: set<string>, key: string)
    requires edges != []
    ensures var n := |edges| - 1;
      KeyCount(Crossings(edges, c, allowed), key)
      == KeyCount(Crossings(edges[..n], c, allowed), key) + if Under(edges[n], c, allowed, key) then 1 else 0
  {
    hide Under, Key, Crossing, KeyCount;
    var init, last := edges[..|edges| - 1], edges[|edges| - 1];
    CrossingUnder(last, c, allowed, key);
    var p := Crossing(last, c, allowed);
    if p.Some? {
      KeyCountSnoc(Crossings(init, c, allowed), p.value, key);
    } else {
      assert Crossings(edges, c, allowed) == Crossings(init, c, allowed);
    }
  }

  /** The count under a key is the number of edges under it. */
  lemma {:induction false} KeyCountExactly(edges: seq<Edge>, c: Clusters, allowed: set<string>, key: string)
    ensures KeyCount(Crossings(edges, c, allowed), key) == |PositionsUnder(edges, c, allowed, key)|
  {
    hide Under;
    if edges == [] {
      assert PositionsUnder(edges, c, allowed, key) == {};
    } else {
      KeyCountExactly(edges[..|edges| - 1], c, allowed, key);
      PositionsSnoc(edges, c, allowed, key);
      CountSnoc(edges, c, allowed, key);
      hide KeyCount, Crossings, PositionsUnder;
    }
  }

  /** The layout's counter holds the keys that occur, each with its number of edges. */
  lemma TalliesExactly(edges: seq<Edge>, c: Clusters, allowed: set<string>, counts: map<string, nat>)
    requires Tallies(counts, Crossings(edges, c, allowed))
    ensures forall key :: key in counts <==> PositionsUnder(edges, c, allowed, key) != {}
    ensures forall key :: key in counts ==> counts[key] == |PositionsUnder(edges, c, allowed, key)|
  {
    hide PositionsUnder, KeyCount;
    forall key
      ensures KeyCount(Crossings(edges, c, allowed), key) == |PositionsUnder(edges, c, allowed, key)|
    {
      KeyCountExactly(edges, c, allowed, key);
    }
  }

  /** A link names its two clusters in order, joined by a colon, and weighs the number of edges under its key. */
  predicate IsLink(h: HubEdge, edges: seq<Edge>, c: Clusters, allowed: set<string>) {
    && h.key == h.sourceCluster + ":" + h.targetCluster && StrLt(h.sourceCluster, h.targetCluster)
    && h.weight == |PositionsUnder(edges, c, allowed, h.key)| > 0
  }

  /** The drawn links are those keys, each once, the heaviest first and ties in the locale's order. */
  lemma HubLinksExactly(edges: seq<Edge>, c: Clusters, centroids: set<string>, localeLe: Collation)
    requires LocaleOrder(localeLe)
    ensures var links, allowed := HubLinks(edges, c, centroids, localeLe), centroids - {""};
      && (forall h :: h in links ==> IsLink(h, edges, c, allowed))
      && (forall key :: PositionsUnder(edges, c, allowed, key) != {} ==> exists h :: h in links && h.key == key)
      && forall i, j :: 0 <= i < j < |links| ==>
           && links[i].key != links[j].key
           && (links[i].weight > links[j].weight
               || (links[i].weight == links[j].weight && localeLe(links[i].key, links[j].key)))
  {
    var links, allowed := HubLinks(edges, c, centroids, localeLe), centroids - {""};
    HubLinksCorrect(edges, c, centroids, localeLe);
    var ps := Crossings(edges, c, allowed);
    hide HubLinks, Crossings, LocaleOrder;
    forall h | h in links ensures IsLink(h, edges, c, allowed) {
      KeyCountExactly(edges, c, allowed, h.key);
      CrossingsInOrder(edges, c, allowed, Pair(h.sourceCluster, h.targetCluster));
      hide PositionsUnder, StrLe, KeyCount;
    }
    forall key | PositionsUnder(edges, c, allowed, key) != {} ensures exists h :: h in links && h.key == key {
      KeyCountExactly(edges, c, allowed, key);
      assert |PositionsUnder(edges, c, allowed, key)| > 0;
      KeyCountMember(ps, key);
    }
    hide Links, IsLink, PositionsUnder;
    forall i, j | 0 <= i < j < |links|
      ensures links[i].weight > links[j].weight
           || (links[i].weight == links[j].weight && localeLe(links[i].key, links[j].key))
    {
      assert HubOrder(localeLe)(links[i], links[j]);
    }
    assert forall i, j :: 0 <= i < j < |links| ==> links[i].key != links[j].key by { LinksDiffer(links, ps); }
  }

  lemma LinksDiffer(links: seq<HubEdge>, ps: seq<Pair>)
    requires Links(links, ps)
    ensures forall i, j :: 0 <= i < j < |links| ==> links[i].key != links[j].key
  {
    hide KeyCount, Key;
  }

  lemma {:induction false} CrossingsInOrder(edges: seq<Edge>, c: Clusters, allowed: set<string>, p: Pair)
    requires p in Crossings(edges, c, allowed)
    ensures StrLt(p.lo, p.hi)
  {
    hide Crossing, StrLt;
    var init, last := edges[..|edges| - 1], edges[|edges| - 1];
    if p in Crossings(init, c, allowed) {
      CrossingsInOrder(init, c, allowed, p);
    } else {
      CrossingExactly(last, c, allowed);
    }
  }
}
