/** Edges between clusters, counted twice: for the force layout and for the drawn hub links. */
module EdgeCounts {
  import opened Prelude

  datatype Edge = Edge(sourceId: string, targetId: string)

  /** The cluster of each known entity, if it has one. */
  type Clusters = map<string, Option<string>>

  datatype Pair = Pair(lo: string, hi: string)

  datatype HubEdge = HubEdge(key: string, sourceCluster: string, targetCluster: string, weight: nat)

  /** The locale's order of strings. */
  type Collation = (string, string) -> bool

  // ---------------------------------------------------------------------------
  // Which edges count
  // ---------------------------------------------------------------------------

  function ClusterAt(c: Clusters, id: string): Option<string> { if id in c then c[id] else None }

  function Ordered(a: string, b: string): Pair { if StrLe(a, b) then Pair(a, b) else Pair(b, a) }

  function Key(p: Pair): string { p.lo + ":" + p.hi }

  /** The clusters an edge joins, if it joins two different allowed ones. */
  function Crossing(e: Edge, c: Clusters, allowed: set<string>): Option<Pair> {
    var a, b := ClusterAt(c, e.sourceId), ClusterAt(c, e.targetId);
    if a.None? || b.None? || a == b || a.value !in allowed || b.value !in allowed then None
    else Some(Ordered(a.value, b.value))
  }

  function Crossings(edges: seq<Edge>, c: Clusters, allowed: set<string>): seq<Pair> {
    if edges == [] then []
    else
      var last := Crossing(edges[|edges| - 1], c, allowed);
      Crossings(edges[..|edges| - 1], c, allowed) + if last.Some? then [last.value] else []
  }

  lemma CrossingsStep(edges: seq<Edge>, i: nat, c: Clusters, allowed: set<string>)
    requires i < |edges|
    ensures Crossings(edges[..i + 1], c, allowed)
         == if Crossing(edges[i], c, allowed).None? then Crossings(edges[..i], c, allowed)
            else Crossings(edges[..i], c, allowed) + [Crossing(edges[i], c, allowed).value]
  {
    hide Crossing;
    assert edges[..i + 1][..i] == edges[..i];
  }

  /** How many pairs of a list have a given key. */
  function KeyCount(ps: seq<Pair>, key: string): nat {
    if ps == [] then 0 else KeyCount(ps[..|ps| - 1], key) + if Key(ps[|ps| - 1]) == key then 1 else 0
  }

  ghost predicate Tallies(counts: map<string, nat>, ps: seq<Pair>) {
    && (forall key :: key in counts <==> KeyCount(ps, key) > 0)
    && (forall key :: key in counts ==> counts[key] == KeyCount(ps, key))
  }

  // ---------------------------------------------------------------------------
  // The two counters
  // ---------------------------------------------------------------------------

  method ComputeInterClusterEdgeCounts(edges: seq<Edge>, entitiesById: Clusters, clusterIds: seq<string>)
    returns (counts: map<string, nat>)
    ensures Tallies(counts, Crossings(edges, entitiesById, set id | id in clusterIds))
  {
    hide KeyCount, Key, Tallies, Ordered, Crossings, StrLe;
    var allowed := set id | id in clusterIds;
    counts := map[];
    NoTally(edges, entitiesById, allowed);
    for i := 0 to |edges|
      invariant Tallies(counts, Crossings(edges[..i], entitiesById, allowed))
    {
      CrossingsStep(edges, i, entitiesById, allowed);
      var a, b := ClusterAt(entitiesById, edges[i].sourceId), ClusterAt(entitiesById, edges[i].targetId);
      if a.None? || b.None? || a == b || a.value !in allowed || b.value !in allowed {
        continue;
      }
      var key := PairKey(a.value, b.value);
      PairKeyIsKey(a.value, b.value);
      TalliesAdd(counts, Crossings(edges[..i], entitiesById, allowed), Ordered(a.value, b.value));
      counts := counts[key := (if key in counts then counts[key] else 0) + 1];
    }
    assert edges[..|edges|] == edges;
  }

  lemma NoTally(edges: seq<Edge>, c: Clusters, allowed: set<string>)
    ensures Tallies(map[], Crossings(edges[..0], c, allowed))
  {
  }

  lemma TalliesAdd(counts: map<string, nat>, ps: seq<Pair>, p: Pair)
    requires Tallies(counts, ps)
    ensures Tallies(counts[Key(p) := (if Key(p) in counts then counts[Key(p)] else 0) + 1], ps + [p])
  {
    hide Key, KeyCount;
    forall k ensures KeyCount(ps + [p], k) == KeyCount(ps, k) + if k == Key(p) then 1 else 0 {
      KeyCountSnoc(ps, p, k);
    }
  }

  function PairKey(a: string, b: string): string { if StrLt(a, b) then a + ":" + b else b + ":" + a }

  lemma PairKeyIsKey(a: string, b: string)
    ensures PairKey(a, b) == Key(Ordered(a, b))
  {
    StrLeTotal(a, b);
  }

  lemma KeyCountSnoc(ps: seq<Pair>, p: Pair, key: string)
    ensures KeyCount(ps + [p], key) == KeyCount(ps, key) + if Key(p) == key then 1 else 0
  {
    assert (ps + [p])[..|ps|] == ps;
  }

  /** Heavier links first, ties by key in the locale's order. */
  predicate HubLe(localeLe: Collation, a: HubEdge, b: HubEdge) {
    a.weight > b.weight || (a.weight == b.weight && localeLe(a.key, b.key))
  }

  function HubOrder(localeLe: Collation): (HubEdge, HubEdge) -> bool {
    (a, b) => HubLe(localeLe, a, b)
  }

  /** One link for each key, in the order of their first edges, counting the edges. */
  ghost predicate Links(hubs: seq<HubEdge>, ps: seq<Pair>) {
    && (forall i, j :: 0 <= i < j < |hubs| ==> hubs[i].key != hubs[j].key)
    && (forall h :: h in hubs ==>
          h.weight == KeyCount(ps, h.key) > 0 && Pair(h.sourceCluster, h.targetCluster) in ps
          && h.key == Key(Pair(h.sourceCluster, h.targetCluster)))
    && (forall p :: p in ps ==> exists h :: h in hubs && h.key == Key(p))
  }

  function IndexOfKey(hubs: seq<HubEdge>, key: string): (k: nat)
    ensures k <= |hubs|
    ensures k < |hubs| ==> hubs[k].key == key
    ensures forall i :: 0 <= i < k ==> hubs[i].key != key
  {
    if hubs == [] then 0
    else
      var k := IndexOfKey(hubs[..|hubs| - 1], key);
      if k < |hubs| - 1 then k else if hubs[|hubs| - 1].key == key then |hubs| - 1 else |hubs|
  }

  function Counted(hubs: seq<HubEdge>, p: Pair): seq<HubEdge> {
    var k := IndexOfKey(hubs, Key(p));
    if k < |hubs| then hubs[k := hubs[k].(weight := hubs[k].weight + 1)] else hubs + [HubEdge(Key(p), p.lo, p.hi, 1)]
  }

  /** The links in the order of their first edges, as a JavaScript Map keeps them. */
  function Grouped(ps: seq<Pair>): seq<HubEdge> {
    if ps == [] then [] else Counted(Grouped(ps[..|ps| - 1]), ps[|ps| - 1])
  }

  /** The links as they are drawn. */
  function HubLinks(edges: seq<Edge>, c: Clusters, centroids: set<string>, localeLe: Collation): seq<HubEdge> {
    Sort(HubOrder(localeLe), Grouped(Crossings(edges, c, centroids - {""})))
  }

  lemma {:induction false} GroupedLinks(ps: seq<Pair>)
    ensures Links(Grouped(ps), ps)
  {
    hide Links, Counted;
    if ps == [] {
      NoLinks();
    } else {
      var init, last := ps[..|ps| - 1], ps[|ps| - 1];
      GroupedLinks(init);
      CountedLinks(Grouped(init), init, last);
      assert ps == init + [last];
    }
  }

  lemma CountedLinks(hubs: seq<HubEdge>, ps: seq<Pair>, p: Pair)
    requires Links(hubs, ps)
    ensures Links(Counted(hubs, p), ps + [p])
  {
    hide Links, Key, IndexOfKey;
    var k := IndexOfKey(hubs, Key(p));
    if k < |hubs| { LinksCount(hubs, ps, k, p); } else { LinksAdd(hubs, ps, p); }
  }

  lemma NoLinks()
    ensures Links([], [])
  {
  }

  lemma GroupedSnoc(ps: seq<Pair>, p: Pair)
    ensures Grouped(ps + [p]) == Counted(Grouped(ps), p)
  {
    assert (ps + [p])[..|ps|] == ps;
  }

  method ComputeInterHubEdges(edges: seq<Edge>, entitiesById: Clusters, centroids: set<string>,
                              localeLe: Collation) returns (r: seq<HubEdge>)
    ensures r == HubLinks(edges, entitiesById, centroids, localeLe)
  {
    hide KeyCount, Key, Links, Ordered, Crossings, StrLe, Sort, HubOrder, Grouped, IndexOfKey;
    ghost var allowed := centroids - {""};
    var pairs: seq<HubEdge> := [];
    NothingGrouped(edges, entitiesById, allowed);
    for i := 0 to |edges|
      invariant pairs == Grouped(Crossings(edges[..i], entitiesById, allowed))
    {
      CrossingsStep(edges, i, entitiesById, allowed);
      var a, b := ClusterAt(entitiesById, edges[i].sourceId), ClusterAt(entitiesById, edges[i].targetId);
      if a.None? || a.value == "" || b.None? || b.value == "" || a == b {
        continue;
      }
      if a.value !in centroids || b.value !in centroids {
        continue;
      }
      var sorted := Ordered(a.value, b.value);
      GroupedSnoc(Crossings(edges[..i], entitiesById, allowed), sorted);
      var k := FindKey(pairs, Key(sorted));
      if k.Some? {
        pairs := pairs[k.value := pairs[k.value].(weight := pairs[k.value].weight + 1)];
      } else {
        pairs := pairs + [HubEdge(Key(sorted), sorted.lo, sorted.hi, 1)];
      }
    }
    assert edges[..|edges|] == edges;
    return Sort(HubOrder(localeLe), pairs);
  }

  lemma NothingGrouped(edges: seq<Edge>, c: Clusters, allowed: set<string>)
    ensures Grouped(Crossings(edges[..0], c, allowed)) == []
  {
  }

  method FindKey(hubs: seq<HubEdge>, key: string) returns (k: Option<nat>)
    ensures k.Some? ==> k.value < |hubs| && hubs[k.value].key == key
    ensures k.None? ==> forall i :: 0 <= i < |hubs| ==> hubs[i].key != key
    ensures k.Some? ==> k.value == IndexOfKey(hubs, key)
  {
    hide IndexOfKey;
    for i := 0 to |hubs|
      invariant forall j :: 0 <= j < i ==> hubs[j].key != key
    {
      if hubs[i].key == key {
        return Some(i);
      }
    }
    return None;
  }

  lemma {:induction false} KeyCountMember(ps: seq<Pair>, key: string)
    ensures KeyCount(ps, key) > 0 <==> exists p :: p in ps && Key(p) == key
  {
    hide Key;
    if ps == [] {
    } else {
      var init, last := ps[..|ps| - 1], ps[|ps| - 1];
      assert ps == init + [last];
      KeyCountMember(init, key);
      assert last in ps;
    }
  }

  lemma LinksCount(hubs: seq<HubEdge>, ps: seq<Pair>, k: nat, p: Pair)
    requires Links(hubs, ps) && k < |hubs| && hubs[k].key == Key(p)
    ensures Links(hubs[k := hubs[k].(weight := hubs[k].weight + 1)], ps + [p])
  {
    hide KeyCount, Key;
    var now := hubs[k := hubs[k].(weight := hubs[k].weight + 1)];
    forall i | 0 <= i < |now|
      ensures now[i].weight == KeyCount(ps + [p], now[i].key) > 0
    {
      KeyCountSnoc(ps, p, now[i].key);
      assert hubs[i] in hubs;
    }
    forall i | 0 <= i < |now|
      ensures Pair(now[i].sourceCluster, now[i].targetCluster) in ps + [p]
      ensures now[i].key == Key(Pair(now[i].sourceCluster, now[i].targetCluster))
    {
      assert hubs[i] in hubs;
    }
    forall q | q in ps + [p] ensures exists h :: h in now && h.key == Key(q) {
      if q in ps {
        var i :| 0 <= i < |hubs| && hubs[i].key == Key(q);
        assert now[i] in now;
      } else {
        assert now[k] in now;
      }
    }
  }

  lemma LinksAdd(hubs: seq<HubEdge>, ps: seq<Pair>, p: Pair)
    requires Links(hubs, ps) && forall i :: 0 <= i < |hubs| ==> hubs[i].key != Key(p)
    ensures Links(hubs + [HubEdge(Key(p), p.lo, p.hi, 1)], ps + [p])
  {
    hide KeyCount, Key;
    var added := HubEdge(Key(p), p.lo, p.hi, 1);
    var now := hubs + [added];
    KeyCountMember(ps, Key(p));
    assert KeyCount(ps, Key(p)) == 0;
    forall h | h in now
      ensures h.weight == KeyCount(ps + [p], h.key) > 0 && Pair(h.sourceCluster, h.targetCluster) in ps + [p]
      ensures h.key == Key(Pair(h.sourceCluster, h.targetCluster))
    {
      KeyCountSnoc(ps, p, h.key);
    }
    forall q | q in ps + [p] ensures exists h :: h in now && h.key == Key(q) {
      if q in ps {
        var h :| h in hubs && h.key == Key(q);
        assert h in now;
      } else {
        assert added in now;
      }
    }
  }

  // ---------------------------------------------------------------------------
  // The counters agree
  // ---------------------------------------------------------------------------

  ghost predicate Agree(counts: map<string, nat>, hubs: seq<HubEdge>) {
    && (forall h :: h in hubs ==> h.key in counts && counts[h.key] == h.weight)
    && (forall key :: key in counts ==> exists h :: h in hubs && h.key == key)
  }

  /** Sorting changes neither the links nor what they say. */
  lemma SortedLinks(localeLe: Collation, inserted: seq<HubEdge>, ps: seq<Pair>)
    requires LocaleOrder(localeLe) && Links(inserted, ps)
    ensures Links(Sort(HubOrder(localeLe), inserted), ps)
  {
    hide Links, LocaleOrder;
    HubOrderIsPreorder(localeLe);
    SortCorrect(HubOrder(localeLe), inserted);
    PermutedLinks(inserted, Sort(HubOrder(localeLe), inserted), ps);
  }

  lemma PermutedLinks(hubs: seq<HubEdge>, r: seq<HubEdge>, ps: seq<Pair>)
    requires Links(hubs, ps) && multiset(r) == multiset(hubs)
    ensures Links(r, ps)
  {
    hide KeyCount, Key;
    SameBag(r, hubs);
    PermutedKeys(hubs, r);
  }

  lemma PermutedKeys(hubs: seq<HubEdge>, r: seq<HubEdge>)
    requires multiset(r) == multiset(hubs)
    requires forall i, j :: 0 <= i < j < |hubs| ==> hubs[i].key != hubs[j].key
    ensures forall i, j :: 0 <= i < j < |r| ==> r[i].key != r[j].key
  {
    SameBag(r, hubs);
    forall i, j | 0 <= i < j < |r| ensures r[i].key != r[j].key {
      if r[i] == r[j] { TwiceInSeq(r, i, j); OnceInSeq(hubs, r[i]); }
      assert r[i] in hubs && r[j] in hubs;
    }
  }

  ghost predicate LocaleOrder(localeLe: Collation) { TotalPreorder(localeLe) }

  lemma HubOrderIsPreorder(localeLe: Collation)
    requires LocaleOrder(localeLe)
    ensures TotalPreorder(HubOrder(localeLe))
  {
    var le := HubOrder(localeLe);
    forall x: HubEdge, y: HubEdge ensures le(x, y) || le(y, x) {
      assert localeLe(x.key, y.key) || localeLe(y.key, x.key);
    }
    forall x: HubEdge, y: HubEdge, z: HubEdge | le(x, y) && le(y, z) ensures le(x, z) {
      assert localeLe(x.key, y.key) && localeLe(y.key, z.key) ==> localeLe(x.key, z.key);
    }
  }

  lemma TwiceInSeq<T>(s: seq<T>, i: nat, j: nat)
    requires i < j < |s| && s[i] == s[j]
    ensures multiset(s)[s[i]] >= 2
  {
    assert s == s[..j] + [s[j]] + s[j + 1..];
    assert s[i] in s[..j];
    assert s[i] in multiset(s[..j]);
  }

  lemma {:induction false} OnceInSeq<T>(s: seq<T>, x: T)
    requires forall i, j :: 0 <= i < j < |s| ==> s[i] != s[j]
    ensures multiset(s)[x] == if x in s then 1 else 0
  {
    if s == [] {
    } else {
      OnceInSeq(s[..|s| - 1], x);
      assert s == s[..|s| - 1] + [s[|s| - 1]];
    }
  }

  /** The drawn links are the pairs that occur, each once, with their number of edges, in order. */
  lemma {:induction false} HubLinksCorrect(edges: seq<Edge>, c: Clusters, centroids: set<string>, localeLe: Collation)
    requires LocaleOrder(localeLe)
    ensures Links(HubLinks(edges, c, centroids, localeLe), Crossings(edges, c, centroids - {""}))
    ensures Sorted(HubOrder(localeLe), HubLinks(edges, c, centroids, localeLe))
  {
    hide Links, Sort, Sorted, Crossings, HubOrder, Grouped, LocaleOrder;
    var ps := Crossings(edges, c, centroids - {""});
    GroupedLinks(ps);
    SortedLinks(localeLe, Grouped(ps), ps);
    HubOrderIsPreorder(localeLe);
    SortCorrect(HubOrder(localeLe), Grouped(ps));
  }

  lemma LinksAgree(counts: map<string, nat>, hubs: seq<HubEdge>, ps: seq<Pair>)
    requires Tallies(counts, ps) && Links(hubs, ps)
    ensures Agree(counts, hubs)
  {
    hide KeyCount, Key;
    forall key | key in counts ensures exists h :: h in hubs && h.key == key {
      KeyCountMember(ps, key);
    }
  }

  /** Where no allowed cluster has the empty name, the hub links carry exactly the layout's counts. */
  lemma {:induction false} CountersAgree(edges: seq<Edge>, c: Clusters, allowed: set<string>, counts: map<string, nat>,
                      localeLe: Collation)
    requires LocaleOrder(localeLe) && "" !in allowed
    requires Tallies(counts, Crossings(edges, c, allowed))
    ensures Agree(counts, HubLinks(edges, c, allowed, localeLe))
  {
    hide Tallies, Links, Agree, Crossings, Grouped, Sort, HubOrder, LocaleOrder;
    var ps := Crossings(edges, c, allowed);
    assert allowed - {""} == allowed;
    GroupedLinks(ps);
    SortedLinks(localeLe, Grouped(ps), ps);
    LinksAgree(counts, HubLinks(edges, c, allowed, localeLe), ps);
  }

  ghost predicate AgreeAlways(allowed: set<string>, localeLe: Collation) {
    forall edges: seq<Edge>, c: Clusters, counts: map<string, nat> ::
      Tallies(counts, Crossings(edges, c, allowed)) ==> Agree(counts, HubLinks(edges, c, allowed, localeLe))
  }

  /** The counters agree on every graph exactly when the empty name is not an end of an allowed pair. */
  lemma {:induction false} AgreeExactly(allowed: set<string>, localeLe: Collation)
    requires LocaleOrder(localeLe)
    ensures AgreeAlways(allowed, localeLe) <==> "" !in allowed || allowed == {""}
  {
    hide Tallies, Agree, Crossings, HubLinks, LocaleOrder;
    if "" !in allowed {
      forall edges: seq<Edge>, c: Clusters, counts: map<string, nat> | Tallies(counts, Crossings(edges, c, allowed))
        ensures Agree(counts, HubLinks(edges, c, allowed, localeLe))
      {
        CountersAgree(edges, c, allowed, counts, localeLe);
      }
    } else if allowed == {""} {
      forall edges: seq<Edge>, c: Clusters, counts: map<string, nat> | Tallies(counts, Crossings(edges, c, allowed))
        ensures Agree(counts, HubLinks(edges, c, allowed, localeLe))
      {
        NoPairs(edges, c, allowed);
        NothingAgrees(edges, c, allowed, counts, localeLe);
      }
    } else {
      var other :| other in allowed && other != "";
      EmptyNameDiffers(allowed, other, localeLe);
    }
  }

  lemma NothingAgrees(edges: seq<Edge>, c: Clusters, allowed: set<string>, counts: map<string, nat>,
                      localeLe: Collation)
    requires Crossings(edges, c, allowed) == [] && allowed <= {""} && Tallies(counts, [])
    ensures Agree(counts, HubLinks(edges, c, allowed, localeLe))
  {
    hide Crossings;
    NoPairs(edges, c, allowed - {""});
    assert HubLinks(edges, c, allowed, localeLe) == [];
  }

  lemma {:induction false} NoPairs(edges: seq<Edge>, c: Clusters, allowed: set<string>)
    requires allowed <= {""}
    ensures Crossings(edges, c, allowed) == []
  {
    if edges == [] {
    } else {
      NoPairs(edges[..|edges| - 1], c, allowed);
    }
  }

  lemma EmptyNameDiffers(allowed: set<string>, other: string, localeLe: Collation)
    requires "" in allowed && other in allowed && other != ""
    ensures !AgreeAlways(allowed, localeLe)
  {
    var e := Edge("x", "y");
    var c: Clusters := map["x" := Some(""), "y" := Some(other)];
    var p := Ordered("", other);
    var counts := map[Key(p) := 1];
    assert [e][..0] == [];
    assert Crossings([], c, allowed) == [] && Crossings([], c, allowed - {""}) == [];
    assert Crossings([e], c, allowed) == [p];
    assert Crossings([e], c, allowed - {""}) == [];
    hide Crossings, Crossing, Ordered, HubOrder;
    assert HubLinks([e], c, allowed, localeLe) == [];
    assert Tallies(counts, [p]) by { OneTally(p); }
    assert Key(p) in counts;
    assert !Agree(counts, []);
  }

  lemma OneTally(p: Pair)
    ensures Tallies(map[Key(p) := 1], [p])
  {
    hide Key;
    forall key ensures KeyCount([p], key) == if key == Key(p) then 1 else 0 {
      KeyCountSnoc([], p, key);
      assert [] + [p] == [p];
    }
  }

  // ---------------------------------------------------------------------------
  // Weights, pairs, and the order of edges
  // ---------------------------------------------------------------------------

  function TotalWeight(hubs: seq<HubEdge>): nat {
    if hubs == [] then 0 else TotalWeight(hubs[..|hubs| - 1]) + hubs[|hubs| - 1].weight
  }

  /** The pairs whose key is not the given one. */
  function Others(ps: seq<Pair>, key: string): seq<Pair> {
    if ps == [] then []
    else Others(ps[..|ps| - 1], key) + if Key(ps[|ps| - 1]) == key then [] else [ps[|ps| - 1]]
  }

  lemma {:induction false} OthersCount(ps: seq<Pair>, key: string, k: string)
    ensures |Others(ps, key)| + KeyCount(ps, key) == |ps|
    ensures KeyCount(Others(ps, key), k) == if k == key then 0 else KeyCount(ps, k)
  {
    hide Key;
    if ps == [] {
    } else {
      OthersCount(ps[..|ps| - 1], key, k);
      assert Others(ps[..|ps| - 1], key) + [] == Others(ps[..|ps| - 1], key);
      KeyCountSnoc(Others(ps[..|ps| - 1], key), ps[|ps| - 1], k);
    }
  }

  ghost predicate Weighs(hubs: seq<HubEdge>, ps: seq<Pair>) {
    && (forall i, j :: 0 <= i < j < |hubs| ==> hubs[i].key != hubs[j].key)
    && (forall i :: 0 <= i < |hubs| ==> hubs[i].weight == KeyCount(ps, hubs[i].key))
    && (forall p :: p in ps ==> exists i :: 0 <= i < |hubs| && hubs[i].key == Key(p))
  }

  lemma {:induction false} WeightsSum(hubs: seq<HubEdge>, ps: seq<Pair>)
    requires Weighs(hubs, ps)
    ensures TotalWeight(hubs) == |ps|
    decreases |hubs|
  {
    hide KeyCount, Key;
    assert ps != [] ==> ps[0] in ps;
    if hubs == [] {
    } else {
      var init, h := hubs[..|hubs| - 1], hubs[|hubs| - 1];
      var rest := Others(ps, h.key);
      OthersCount(ps, h.key, h.key);
      forall i | 0 <= i < |init| ensures init[i].weight == KeyCount(rest, init[i].key) {
        OthersCount(ps, h.key, init[i].key);
      }
      forall p | p in rest ensures exists i :: 0 <= i < |init| && init[i].key == Key(p) {
        OthersMember(ps, h.key, p);
        var i :| 0 <= i < |hubs| && hubs[i].key == Key(p);
        assert init[i].key == Key(p);
      }
      WeightsSum(init, rest);
    }
  }

  lemma {:induction false} OthersMember(ps: seq<Pair>, key: string, p: Pair)
    requires p in Others(ps, key)
    ensures p in ps && Key(p) != key
  {
    hide Key;
    if ps == [] {
    } else {
      assert ps == ps[..|ps| - 1] + [ps[|ps| - 1]];
      if p in Others(ps[..|ps| - 1], key) { OthersMember(ps[..|ps| - 1], key, p); }
    }
  }

  /** No qualifying edge is dropped or counted twice: the weights add up to their number. */
  lemma {:induction false} HubWeightsSum(edges: seq<Edge>, c: Clusters, centroids: set<string>, localeLe: Collation)
    requires LocaleOrder(localeLe)
    ensures TotalWeight(HubLinks(edges, c, centroids, localeLe)) == |Crossings(edges, c, centroids - {""})|
  {
    hide Links, Weighs, Sort, Crossings, HubOrder, Grouped, LocaleOrder, TotalWeight;
    var ps := Crossings(edges, c, centroids - {""});
    var r := HubLinks(edges, c, centroids, localeLe);
    GroupedLinks(ps);
    SortedLinks(localeLe, Grouped(ps), ps);
    LinksWeigh(r, ps);
    WeightsSum(r, ps);
  }

  lemma LinksWeigh(hubs: seq<HubEdge>, ps: seq<Pair>)
    requires Links(hubs, ps)
    ensures Weighs(hubs, ps)
  {
    hide KeyCount, Key;
    forall p | p in ps ensures exists i :: 0 <= i < |hubs| && hubs[i].key == Key(p) {
      var h :| h in hubs && h.key == Key(p);
    }
  }

  /** A pair of two different names, in order. */
  predicate PairOf(p: Pair, names: set<string>) { p.lo in names && p.hi in names && StrLt(p.lo, p.hi) }

  ghost predicate PairsOf(ps: seq<Pair>, names: set<string>) { forall p :: p in ps ==> PairOf(p, names) }

  lemma {:induction false} CrossingsArePairs(edges: seq<Edge>, c: Clusters, allowed: set<string>)
    ensures PairsOf(Crossings(edges, c, allowed), allowed)
  {
    if edges == [] {
    } else {
      CrossingsArePairs(edges[..|edges| - 1], c, allowed);
      var e := edges[|edges| - 1];
      if Crossing(e, c, allowed).Some? {
        StrLeTotal(ClusterAt(c, e.sourceId).value, ClusterAt(c, e.targetId).value);
      }
    }
  }

  /** No two pairs of different names have the same key. */
  ghost predicate KeysTell(names: set<string>) {
    forall p: Pair, q: Pair :: PairOf(p, names) && PairOf(q, names) && Key(p) == Key(q) ==> p == q
  }

  predicate Plain(id: string) { ':' !in id }

  /** Without colons in the names, a key determines its pair. */
  lemma KeyInjective(p: Pair, q: Pair)
    requires Plain(p.lo) && Plain(q.lo) && Key(p) == Key(q)
    ensures p == q
  {
    var s := Key(p);
    assert s[|p.lo|] == ':' && s[|q.lo|] == ':';
    assert |p.lo| == |q.lo|;
    assert p.lo == s[..|p.lo|] && q.lo == s[..|q.lo|];
    assert p.hi == s[|p.lo| + 1..] && q.hi == s[|q.lo| + 1..];
  }

  lemma PlainNamesTell(names: set<string>)
    requires forall id :: id in names ==> Plain(id)
    ensures KeysTell(names)
  {
    hide Key, Plain, StrLt;
    forall p: Pair, q: Pair | PairOf(p, names) && PairOf(q, names) && Key(p) == Key(q) ensures p == q {
      KeyInjective(p, q);
    }
  }

  /** With colons, two pairs of four names can share a key. */
  lemma ColonsMerge()
    ensures !KeysTell({"a", "b:c", "a:b", "c"})
  {
    var p, q := Pair("a", "b:c"), Pair("a:b", "c");
    assert StrLt("a", "b:c") && StrLt("a:b", "c");
    assert Key(p) == Key(q);
    assert p.lo != q.lo;
  }

  predicate HasOwnLink(hubs: seq<HubEdge>, p: Pair) {
    exists h :: h in hubs && h.sourceCluster == p.lo && h.targetCluster == p.hi
  }

  ghost predicate OwnLinksAlways(centroids: set<string>, localeLe: Collation) {
    forall edges: seq<Edge>, c: Clusters, p: Pair ::
      p in Crossings(edges, c, centroids - {""}) ==> HasOwnLink(HubLinks(edges, c, centroids, localeLe), p)
  }

  /** On every graph each pair of clusters with an edge has a link of its own exactly when keys tell pairs apart. */
  lemma {:induction false} OwnLinksExactly(centroids: set<string>, localeLe: Collation)
    requires LocaleOrder(localeLe)
    ensures OwnLinksAlways(centroids, localeLe) <==> KeysTell(centroids - {""})
  {
    hide Crossings, HubLinks, LocaleOrder, Key, PairOf, HasOwnLink, Links;
    var names := centroids - {""};
    if KeysTell(names) {
      forall edges: seq<Edge>, c: Clusters, p: Pair | p in Crossings(edges, c, names)
        ensures HasOwnLink(HubLinks(edges, c, centroids, localeLe), p)
      {
        HubLinksCorrect(edges, c, centroids, localeLe);
        CrossingsArePairs(edges, c, names);
        TellingKeyOwns(HubLinks(edges, c, centroids, localeLe), Crossings(edges, c, names), names, p);
      }
    } else {
      var p: Pair, q: Pair :| PairOf(p, names) && PairOf(q, names) && Key(p) == Key(q) && p != q;
      TwoEdgesCross(p, q, names);
      HubLinksCorrect([Edge("1", "2"), Edge("3", "4")], TwoEdges(p, q), centroids, localeLe);
      SharedKeyLosesOne(HubLinks([Edge("1", "2"), Edge("3", "4")], TwoEdges(p, q), centroids, localeLe), p, q);
    }
  }

  lemma TellingKeyOwns(hubs: seq<HubEdge>, ps: seq<Pair>, names: set<string>, p: Pair)
    requires Links(hubs, ps) && PairsOf(ps, names) && KeysTell(names) && p in ps
    ensures HasOwnLink(hubs, p)
  {
    hide Key, KeyCount, PairOf;
    var h :| h in hubs && h.key == Key(p);
    assert PairOf(p, names) && PairOf(Pair(h.sourceCluster, h.targetCluster), names);
  }

  /** Four entities, one in each cluster of two pairs. */
  function TwoEdges(p: Pair, q: Pair): Clusters {
    map["1" := Some(p.lo), "2" := Some(p.hi), "3" := Some(q.lo), "4" := Some(q.hi)]
  }

  lemma EachCrosses(p: Pair, q: Pair, names: set<string>)
    requires PairOf(p, names) && PairOf(q, names)
    ensures Crossing(Edge("1", "2"), TwoEdges(p, q), names) == Some(p)
    ensures Crossing(Edge("3", "4"), TwoEdges(p, q), names) == Some(q)
  {
    hide StrLe;
  }

  lemma TwoEdgesCross(p: Pair, q: Pair, names: set<string>)
    requires PairOf(p, names) && PairOf(q, names)
    ensures Crossings([Edge("1", "2"), Edge("3", "4")], TwoEdges(p, q), names) == [p, q]
    ensures Crossings([Edge("3", "4"), Edge("1", "2")], TwoEdges(p, q), names) == [q, p]
  {
    EachCrosses(p, q, names);
    hide Crossing, Crossings, TwoEdges, PairOf;
    CrossingsOfTwo(Edge("1", "2"), Edge("3", "4"), TwoEdges(p, q), names, p, q);
    CrossingsOfTwo(Edge("3", "4"), Edge("1", "2"), TwoEdges(p, q), names, q, p);
  }

  lemma CrossingsOfTwo(a: Edge, b: Edge, c: Clusters, names: set<string>, p: Pair, q: Pair)
    requires Crossing(a, c, names) == Some(p) && Crossing(b, c, names) == Some(q)
    ensures Crossings([a, b], c, names) == [p, q]
  {
    hide Crossing, Crossings;
    CrossingsOfOne(a, c, names, p);
    CrossingsOfOne(b, c, names, q);
    CrossingsConcat([a], [b], c, names);
    assert [a] + [b] == [a, b] && [p] + [q] == [p, q];
  }

  lemma CrossingsOfOne(e: Edge, c: Clusters, names: set<string>, p: Pair)
    requires Crossing(e, c, names) == Some(p)
    ensures Crossings([e], c, names) == [p]
  {
    hide Crossing;
    assert [e][..0] == [] && Crossings([], c, names) == [];
    assert [] + [p] == [p];
  }

  lemma SharedKeyLosesOne(hubs: seq<HubEdge>, p: Pair, q: Pair)
    requires Links(hubs, [p, q]) && Key(p) == Key(q) && p != q
    ensures !HasOwnLink(hubs, p) || !HasOwnLink(hubs, q)
  {
    hide Key, KeyCount;
  }

  /** Each unordered pair of clusters appears in one link at most, whatever the names. */
  lemma {:induction false} EachPairOnce(edges: seq<Edge>, c: Clusters, centroids: set<string>, localeLe: Collation,
                                         i: nat, j: nat)
    requires LocaleOrder(localeLe)
    requires i < j < |HubLinks(edges, c, centroids, localeLe)|
    ensures var hubs := HubLinks(edges, c, centroids, localeLe);
      {hubs[i].sourceCluster, hubs[i].targetCluster} != {hubs[j].sourceCluster, hubs[j].targetCluster}
  {
    hide HubLinks, Links, Sorted, Crossings, LocaleOrder;
    HubLinksCorrect(edges, c, centroids, localeLe);
    CrossingsArePairs(edges, c, centroids - {""});
    var names := centroids - {""};
    LinkedPairOnce(HubLinks(edges, c, centroids, localeLe), Crossings(edges, c, names), names, i, j);
  }

  lemma LinkedPairOnce(hubs: seq<HubEdge>, ps: seq<Pair>, names: set<string>, i: nat, j: nat)
    requires Links(hubs, ps) && PairsOf(ps, names) && i < j < |hubs|
    ensures {hubs[i].sourceCluster, hubs[i].targetCluster} != {hubs[j].sourceCluster, hubs[j].targetCluster}
  {
    hide Key, KeyCount;
    var p, q := Pair(hubs[i].sourceCluster, hubs[i].targetCluster), Pair(hubs[j].sourceCluster, hubs[j].targetCluster);
    assert hubs[i] in hubs && hubs[j] in hubs;
    assert p in ps && q in ps;
    SameEnds(p, q);
  }

  /** Where keys tell pairs apart, the links are exactly the pairs with an edge, weighted by their edges. */
  lemma {:induction false} OneLinkPerPair(edges: seq<Edge>, c: Clusters, centroids: set<string>, localeLe: Collation,
                                          h: HubEdge)
    requires LocaleOrder(localeLe) && KeysTell(centroids - {""})
    ensures var ps := Crossings(edges, c, centroids - {""}); var p := Pair(h.sourceCluster, h.targetCluster);
      h in HubLinks(edges, c, centroids, localeLe) <==> p in ps && h.key == Key(p) && h.weight == multiset(ps)[p]
    ensures multiset(HubLinks(edges, c, centroids, localeLe))[h] <= 1
  {
    hide HubLinks, Links, Sorted, Crossings, LocaleOrder, KeysTell;
    var ps := Crossings(edges, c, centroids - {""});
    HubLinksCorrect(edges, c, centroids, localeLe);
    CrossingsArePairs(edges, c, centroids - {""});
    LinkMembers(HubLinks(edges, c, centroids, localeLe), ps, centroids - {""}, h);
    LinksOnce(HubLinks(edges, c, centroids, localeLe), ps, h);
  }

  lemma SameEnds(p: Pair, q: Pair)
    requires StrLt(p.lo, p.hi) && StrLt(q.lo, q.hi)
    ensures {p.lo, p.hi} == {q.lo, q.hi} ==> p == q
  {
    hide StrLe;
    StrLeTotal(p.lo, p.hi);
    assert {p.lo, p.hi} == {q.lo, q.hi} ==> p.lo in {q.lo, q.hi} && p.hi in {q.lo, q.hi};
  }

  // Permuting the edges

  lemma {:induction false} CrossingsConcat(a: seq<Edge>, b: seq<Edge>, c: Clusters, allowed: set<string>)
    ensures Crossings(a + b, c, allowed) == Crossings(a, c, allowed) + Crossings(b, c, allowed)
    decreases |b|
  {
    if b == [] {
      assert a + b == a;
    } else {
      assert (a + b)[..|a + b| - 1] == a + b[..|b| - 1];
      CrossingsConcat(a, b[..|b| - 1], c, allowed);
    }
  }

  lemma {:induction false} CrossingsPermute(a: seq<Edge>, b: seq<Edge>, c: Clusters, allowed: set<string>)
    requires multiset(a) == multiset(b)
    ensures multiset(Crossings(a, c, allowed)) == multiset(Crossings(b, c, allowed))
    decreases |a|
  {
    SameBag(a, b);
    if a == [] {
    } else {
      hide Crossings;
      var init, e := a[..|a| - 1], a[|a| - 1];
      assert a == init + [e];
      assert e in b;
      var k :| 0 <= k < |b| && b[k] == e;
      var rest := b[..k] + b[k + 1..];
      assert b == (b[..k] + [e]) + b[k + 1..];
      assert multiset(rest) == multiset(b) - multiset{e};
      assert multiset(init) == multiset(a) - multiset{e};
      CrossingsPermute(init, rest, c, allowed);
      CrossingsConcat(init, [e], c, allowed);
      MiddleCrossing(b[..k], e, b[k + 1..], c, allowed);
    }
  }

  lemma MiddleCrossing(front: seq<Edge>, e: Edge, back: seq<Edge>, c: Clusters, allowed: set<string>)
    ensures multiset(Crossings(front + [e] + back, c, allowed))
         == multiset(Crossings(front + back, c, allowed)) + multiset(Crossings([e], c, allowed))
  {
    hide Crossings;
    CrossingsConcat(front + [e], back, c, allowed);
    CrossingsConcat(front, [e], c, allowed);
    CrossingsConcat(front, back, c, allowed);
  }

  lemma {:induction false} KeyCountIsMultiplicity(ps: seq<Pair>, names: set<string>, p: Pair)
    requires PairsOf(ps, names) && KeysTell(names) && PairOf(p, names)
    ensures KeyCount(ps, Key(p)) == multiset(ps)[p]
  {
    hide Key, PairOf;
    if ps == [] {
    } else {
      var init, last := ps[..|ps| - 1], ps[|ps| - 1];
      assert ps == init + [last];
      assert PairOf(last, names);
      KeyCountIsMultiplicity(init, names, p);
    }
  }

  /** What the links are, whatever order they were inserted in. */
  lemma LinkMembers(hubs: seq<HubEdge>, ps: seq<Pair>, names: set<string>, h: HubEdge)
    requires Links(hubs, ps) && PairsOf(ps, names) && KeysTell(names)
    ensures h in hubs <==>
      var p := Pair(h.sourceCluster, h.targetCluster);
      p in ps && h.key == Key(p) && h.weight == multiset(ps)[p]
  {
    hide Key, KeyCount, PairOf;
    var p := Pair(h.sourceCluster, h.targetCluster);
    if p in ps {
      KeyCountIsMultiplicity(ps, names, p);
      var g :| g in hubs && g.key == Key(p);
      assert PairOf(p, names) && PairOf(Pair(g.sourceCluster, g.targetCluster), names);
    }
  }

  lemma SameLinks(a: seq<HubEdge>, b: seq<HubEdge>, ps: seq<Pair>, qs: seq<Pair>, names: set<string>)
    requires Links(a, ps) && Links(b, qs) && PairsOf(ps, names) && KeysTell(names) && multiset(ps) == multiset(qs)
    ensures multiset(a) == multiset(b)
  {
    hide Key, KeyCount, Links, KeysTell;
    SameBag(ps, qs);
    forall h: HubEdge ensures multiset(a)[h] == multiset(b)[h] {
      LinkMembers(a, ps, names, h);
      LinkMembers(b, qs, names, h);
      LinksOnce(a, ps, h);
      LinksOnce(b, qs, h);
    }
  }

  lemma LinksOnce(hubs: seq<HubEdge>, ps: seq<Pair>, h: HubEdge)
    requires Links(hubs, ps)
    ensures multiset(hubs)[h] == if h in hubs then 1 else 0
  {
    hide Key, KeyCount;
    OnceInSeq(hubs, h);
  }

  /** Keys that the locale ranks as equal belong to one pair. */
  ghost predicate KeysRanked(names: set<string>, localeLe: Collation) {
    forall p: Pair, q: Pair | PairOf(p, names) && PairOf(q, names) ::
      localeLe(Key(p), Key(q)) && localeLe(Key(q), Key(p)) ==> p == q
  }

  ghost predicate OrderNeverMatters(centroids: set<string>, localeLe: Collation) {
    forall edges: seq<Edge>, edges': seq<Edge>, c: Clusters :: multiset(edges) == multiset(edges') ==>
      HubLinks(edges, c, centroids, localeLe) == HubLinks(edges', c, centroids, localeLe)
  }

  /** The sorted links never depend on the order of the edges exactly when the locale ranks keys of pairs apart. */
  lemma {:induction false} EdgeOrderIrrelevantExactly(centroids: set<string>, localeLe: Collation)
    requires LocaleOrder(localeLe)
    ensures OrderNeverMatters(centroids, localeLe) <==> KeysRanked(centroids - {""}, localeLe)
  {
    hide HubLinks, LocaleOrder, Key, PairOf;
    var names := centroids - {""};
    if KeysRanked(names, localeLe) {
      forall edges: seq<Edge>, edges': seq<Edge>, c: Clusters | multiset(edges) == multiset(edges')
        ensures HubLinks(edges, c, centroids, localeLe) == HubLinks(edges', c, centroids, localeLe)
      {
        EdgeOrderIrrelevant(edges, edges', c, centroids, localeLe);
      }
    } else {
      var p: Pair, q: Pair :| PairOf(p, names) && PairOf(q, names)
        && localeLe(Key(p), Key(q)) && localeLe(Key(q), Key(p)) && p != q;
      TiedKeysKeepInsertionOrder(p, q, centroids, localeLe);
      SameTwo(Edge("1", "2"), Edge("3", "4"));
    }
  }

  lemma SameTwo(a: Edge, b: Edge)
    ensures multiset([a, b]) == multiset([b, a])
  {
  }

  lemma TiedKeysKeepInsertionOrder(p: Pair, q: Pair, centroids: set<string>, localeLe: Collation)
    requires PairOf(p, centroids - {""}) && PairOf(q, centroids - {""}) && p != q
    requires localeLe(Key(p), Key(q)) && localeLe(Key(q), Key(p))
    ensures HubLinks([Edge("1", "2"), Edge("3", "4")], TwoEdges(p, q), centroids, localeLe)
         != HubLinks([Edge("3", "4"), Edge("1", "2")], TwoEdges(p, q), centroids, localeLe)
  {
    TwoEdgesCross(p, q, centroids - {""});
    hide Crossings, Key, PairOf;
    GroupedTwo(p, q);
    GroupedTwo(q, p);
    var le := HubOrder(localeLe);
    var g, h := HubEdge(Key(p), p.lo, p.hi, 1), HubEdge(Key(q), q.lo, q.hi, 1);
    if Key(p) == Key(q) {
      SortOne(le, g.(weight := 2));
      SortOne(le, h.(weight := 2));
    } else {
      SortTwo(le, g, h);
      SortTwo(le, h, g);
      assert [g, h][0] != [h, g][0];
    }
  }

  lemma GroupedTwo(p: Pair, q: Pair)
    ensures Grouped([p, q]) == if Key(p) == Key(q) then [HubEdge(Key(p), p.lo, p.hi, 2)]
                               else [HubEdge(Key(p), p.lo, p.hi, 1), HubEdge(Key(q), q.lo, q.hi, 1)]
  {
    hide Key;
    assert [p, q][..1] == [p] && [p][..0] == [];
    assert Grouped([]) == [];
    var g := HubEdge(Key(p), p.lo, p.hi, 1);
    assert Grouped([p]) == [g] by { assert [] + [g] == [g]; }
  }

  lemma SortOne<T>(le: (T, T) -> bool, x: T)
    ensures Sort(le, [x]) == [x]
  {
    assert [x][..0] == [] && Sort(le, []) == [];
  }

  lemma SortTwo<T>(le: (T, T) -> bool, x: T, y: T)
    requires le(x, y)
    ensures Sort(le, [x, y]) == [x, y]
  {
    SortOne(le, x);
    assert [x, y][..1] == [x] && [x] + [y] == [x, y];
  }

  /** Where the locale ranks keys of pairs apart, permuting the edges changes nothing. */
  lemma {:induction false} EdgeOrderIrrelevant(edges: seq<Edge>, edges': seq<Edge>, c: Clusters, centroids: set<string>,
                            localeLe: Collation)
    requires LocaleOrder(localeLe) && KeysRanked(centroids - {""}, localeLe)
    requires multiset(edges) == multiset(edges')
    ensures HubLinks(edges, c, centroids, localeLe) == HubLinks(edges', c, centroids, localeLe)
  {
    hide Crossings, Grouped, Sort, HubOrder, Links, LocaleOrder, KeysRanked, KeysTell, PairsOf;
    var names := centroids - {""};
    var ps, qs := Crossings(edges, c, names), Crossings(edges', c, names);
    var le := HubOrder(localeLe);
    CrossingsPermute(edges, edges', c, names);
    CrossingsArePairs(edges, c, names);
    RankedKeysTell(names, localeLe);
    GroupedLinks(ps);
    GroupedLinks(qs);
    SameLinks(Grouped(ps), Grouped(qs), ps, qs, names);
    HubOrderIsPreorder(localeLe);
    SortCorrect(le, Grouped(ps));
    SortCorrect(le, Grouped(qs));
    SortedLinks(localeLe, Grouped(ps), ps);
    NoTies(localeLe, Sort(le, Grouped(ps)), ps, names);
    SortedListingUnique(le, Sort(le, Grouped(ps)), Sort(le, Grouped(qs)));
  }

  lemma RankedKeysTell(names: set<string>, localeLe: Collation)
    requires LocaleOrder(localeLe) && KeysRanked(names, localeLe)
    ensures KeysTell(names)
  {
    hide Key, PairOf;
    forall p: Pair, q: Pair | PairOf(p, names) && PairOf(q, names) && Key(p) == Key(q) ensures p == q {
      assert localeLe(Key(p), Key(q));
    }
  }

  lemma NoTies(localeLe: Collation, hubs: seq<HubEdge>, ps: seq<Pair>, names: set<string>)
    requires KeysRanked(names, localeLe) && PairsOf(ps, names) && Links(hubs, ps)
    ensures TiesAreEqual(HubOrder(localeLe), hubs)
  {
    hide Key, KeyCount, PairOf;
    forall i, j | 0 <= i < |hubs| && 0 <= j < |hubs|
      && HubLe(localeLe, hubs[i], hubs[j]) && HubLe(localeLe, hubs[j], hubs[i])
      ensures hubs[i] == hubs[j]
    {
      var p, q := Pair(hubs[i].sourceCluster, hubs[i].targetCluster), Pair(hubs[j].sourceCluster,
          hubs[j].targetCluster);
      assert hubs[i] in hubs && hubs[j] in hubs;
      assert PairOf(p, names) && PairOf(q, names) && hubs[i].key == Key(p) && hubs[j].key == Key(q);
    }
  }
}
