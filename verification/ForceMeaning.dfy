/** What the forces, one step, the weights and the scaling are, coordinate by coordinate. */
module ForceMeaning {
  import opened Prelude
  import EdgeCounts
  import opened ForceLayout
  import opened LayoutBounds

  // ---------------------------------------------------------------------------
  // Forces
  // ---------------------------------------------------------------------------

  /** One coordinate f of the force at displacement d: inverse-square repulsion, and a spring's pull if linked. */
  predicate ForceAlong(q: Params, f: real, d: real, dist: real, distSq: real, weight: real) {
    var spring := if weight > 0.0 then q.attractionStrength * weight * d else 0.0;
    (f - spring) * dist * distSq == -(q.repulsionStrength * d)
  }

  lemma RepulsionTimes(d: real, dist: real, distSq: real, strength: real)
    requires dist != 0.0 && distSq != 0.0
    ensures Repulsion(d, dist, distSq, strength) * dist * distSq == strength * d
  {
    var u, v := d / dist, strength / distSq;
    assert u * dist == d && v * distSq == strength;
    assert (u * v) * dist * distSq == (u * dist) * (v * distSq);
  }

  lemma ForceParts(q: Params, f: real, push: real, d: real, dist: real, distSq: real, weight: real)
    requires dist != 0.0 && distSq != 0.0 && push == Repulsion(d, dist, distSq, q.repulsionStrength)
    requires f == if weight > 0.0 then -push + q.attractionStrength * weight * d else -push
    ensures ForceAlong(q, f, d, dist, distSq, weight)
  {
    RepulsionTimes(d, dist, distSq, q.repulsionStrength);
    var spring := if weight > 0.0 then q.attractionStrength * weight * d else 0.0;
    hide Repulsion;
    assert f - spring == -push;
    assert (-push) * dist == -(push * dist);
    assert (-(push * dist)) * distSq == -((push * dist) * distSq);
  }

  /** One cluster repels another with the inverse square, and attracts it linearly by the weight of their link. */
  lemma PullExactly(q: Params, d: Vec3, weight: real)
    requires PositiveRoots(q)
    ensures var f := Pull(q, d, weight);
      var distSq := d.x * d.x + d.y * d.y + d.z * d.z + 0.000001; var dist := q.sqrt(distSq);
      && distSq > 0.0 && dist > 0.0
      && ForceAlong(q, f.x, d.x, dist, distSq, weight)
      && ForceAlong(q, f.y, d.y, dist, distSq, weight)
      && ForceAlong(q, f.z, d.z, dist, distSq, weight)
  {
    DistSqPositive(d);
    hide DistSq, Repulsion, ForceAlong;
    var distSq := DistSq(d);
    assert distSq == d.x * d.x + d.y * d.y + d.z * d.z + 0.000001 by { DistSqIs(d); }
    var dist, f, s := q.sqrt(distSq), Pull(q, d, weight), q.repulsionStrength;
    ForceParts(q, f.x, Repulsion(d.x, dist, distSq, s), d.x, dist, distSq, weight);
    ForceParts(q, f.y, Repulsion(d.y, dist, distSq, s), d.y, dist, distSq, weight);
    ForceParts(q, f.z, Repulsion(d.z, dist, distSq, s), d.z, dist, distSq, weight);
  }

  lemma DistSqIs(d: Vec3)
    ensures DistSq(d) == d.x * d.x + d.y * d.y + d.z * d.z + 0.000001
  {
  }

  /** Without a link a cluster is pushed away from the other, on every axis on which they differ. */
  lemma UnlinkedArePushedApart(q: Params, d: Vec3, weight: real)
    requires PositiveRoots(q) && q.repulsionStrength > 0.0 && weight <= 0.0
    ensures var f := Pull(q, d, weight);
      && (d.x > 0.0 ==> f.x < 0.0) && (d.x < 0.0 ==> f.x > 0.0)
      && (d.y > 0.0 ==> f.y < 0.0) && (d.y < 0.0 ==> f.y > 0.0)
      && (d.z > 0.0 ==> f.z < 0.0) && (d.z < 0.0 ==> f.z > 0.0)
  {
    PullExactly(q, d, weight);
    var f, distSq := Pull(q, d, weight), d.x * d.x + d.y * d.y + d.z * d.z + 0.000001;
    hide Pull, PositiveRoots;
    Opposed(q, f.x, d.x, q.sqrt(distSq), distSq, weight);
    Opposed(q, f.y, d.y, q.sqrt(distSq), distSq, weight);
    Opposed(q, f.z, d.z, q.sqrt(distSq), distSq, weight);
  }

  lemma Opposed(q: Params, f: real, d: real, dist: real, distSq: real, weight: real)
    requires dist > 0.0 && distSq > 0.0 && q.repulsionStrength > 0.0 && weight <= 0.0
    requires ForceAlong(q, f, d, dist, distSq, weight)
    ensures (d > 0.0 ==> f < 0.0) && (d < 0.0 ==> f > 0.0)
  {
    var s := q.repulsionStrength;
    assert f - 0.0 == f && f * dist * distSq == -(s * d);
    SignOfProduct(s, d);
    SignOfProduct(distSq, f * dist);
    SignOfProduct(dist, f);
  }

  lemma SignOfProduct(u: real, v: real)
    requires u > 0.0
    ensures (v > 0.0 <==> u * v > 0.0) && (v < 0.0 <==> u * v < 0.0) && v * u == u * v
  {
  }

  /** The net force on cluster k is added up over all other clusters, each by its displacement and their link. */
  lemma NetExactly(q: Params, w: Weights, pos: seq<Vec3>, k: nat, m: nat)
    requires PositiveRoots(q) && k < |pos| && m < |pos|
    ensures NetUpTo(q, w, pos, k, 0) == Vec3(0.0, 0.0, 0.0)
    ensures var before, after := NetUpTo(q, w, pos, k, m), NetUpTo(q, w, pos, k, m + 1);
      var f := Pull(q, Vec3(pos[m].x - pos[k].x, pos[m].y - pos[k].y, pos[m].z - pos[k].z), w(k, m));
      after == if m == k then before else Vec3(before.x + f.x, before.y + f.y, before.z + f.z)
  {
    hide Pull, PositiveRoots;
    NetStep(q, w, pos, k, m);
  }

  // ---------------------------------------------------------------------------
  // One iteration
  // ---------------------------------------------------------------------------

  predicate StepsAlong(q: Params, net: real, pos: real, vel: real, pos': real, vel': real) {
    vel' == q.damping * (vel + q.dt * (net + -q.gravityStrength * pos)) && pos' == pos + q.dt * vel'
  }

  /** Each cluster gets the net force on it and gravity, damped, and moves with the velocity that results. */
  lemma StepExactly(q: Params, w: Weights, s: State, k: nat)
    requires PositiveRoots(q) && |s.vel| == |s.pos| && k < |s.pos|
    ensures var t := Step(q, w, s); var net := NetUpTo(q, w, s.pos, k, |s.pos|);
      && |t.pos| == |t.vel| == |s.pos|
      && StepsAlong(q, net.x, s.pos[k].x, s.vel[k].x, t.pos[k].x, t.vel[k].x)
      && StepsAlong(q, net.y, s.pos[k].y, s.vel[k].y, t.pos[k].y, t.vel[k].y)
      && StepsAlong(q, net.z, s.pos[k].z, s.vel[k].z, t.pos[k].z, t.vel[k].z)
  {
    hide NetUpTo, PositiveRoots;
    var n := |s.pos|;
    assert Nets(q, w, s.pos, n, n)[k] == NetUpTo(q, w, s.pos, k, n);
  }

  /** The simulation starts at rest. */
  lemma StartsAtRest(q: Params, w: Weights, start: seq<Vec3>, k: nat)
    requires PositiveRoots(q) && k < |start|
    ensures var s := After(q, w, start, 0); s.pos == start && s.vel[k] == Vec3(0.0, 0.0, 0.0)
  {
    hide PositiveRoots;
  }

  /** The weight of a pair is the number counted under its key, smaller name first, and at most 200. */
  lemma WeightExactly(ids: seq<string>, counts: map<string, nat>, i: nat, j: nat)
    requires i < |ids| && j < |ids|
    ensures var key := if StrLt(ids[i], ids[j]) then ids[i] + ":" + ids[j] else ids[j] + ":" + ids[i];
      WeightFrom(ids, counts)(i, j)
      == if key !in counts then 0.0 else if counts[key] <= 200 then counts[key] as real else 200.0
  {
  }

  // ---------------------------------------------------------------------------
  // The scaling
  // ---------------------------------------------------------------------------

  /** Lowest and highest value of a coordinate over all points. */
  ghost predicate Spans(low: real, high: real, vs: seq<real>) {
    low in vs && high in vs && forall k :: 0 <= k < |vs| ==> low <= vs[k] <= high
  }

  /** Half the span of a coordinate, but never nothing. */
  function HalfSpan(low: real, high: real): real {
    if (high - low) / 2.0 >= 0.000001 then (high - low) / 2.0 else 0.000001
  }

  lemma HalfSpanIsHalf(box: Box, axis: Axis)
    requires Coord(box.low, axis) <= Coord(box.high, axis)
    ensures box.Half(axis) == HalfSpan(Coord(box.low, axis), Coord(box.high, axis))
  {
  }

  lemma BoxSpans(points: seq<Vec3>, axis: Axis)
    requires points != []
    ensures Spans(Coord(BoxOf(points).low, axis), Coord(BoxOf(points).high, axis), Coords(points, axis))
  {
    hide Lowest, Highest;
    Extremes(Coords(points, axis));
  }

  /** One coordinate of the layout: centred on its span, and scaled so that half the span fits the bound. */
  ghost predicate Fits(vs: seq<real>, low: real, high: real, scale: real, bound: real) {
    Spans(low, high, vs) && Times(scale, HalfSpan(low, high)) <= bound
  }

  predicate Fills(low: real, high: real, scale: real, bound: real) { Times(scale, HalfSpan(low, high)) == bound }

  function Centred(v: real, low: real, high: real, scale: real): real { Times(v - (low + high) / 2.0, scale) }

  /** All coordinates are scaled by one factor about the middle; it fits every bound and fills some. */
  lemma NormalizedExactly(points: seq<Vec3>, bounds: Vec3)
    requires points != [] && bounds.x >= 0.0 && bounds.y >= 0.0 && bounds.z >= 0.0
    ensures var b := BoxOf(points); var scale := b.Fit(bounds);
      && Fits(Coords(points, X), b.low.x, b.high.x, scale, bounds.x)
      && Fits(Coords(points, Y), b.low.y, b.high.y, scale, bounds.y)
      && Fits(Coords(points, Z), b.low.z, b.high.z, scale, bounds.z)
      && (|| Fills(b.low.x, b.high.x, scale, bounds.x) || Fills(b.low.y, b.high.y, scale, bounds.y)
          || Fills(b.low.z, b.high.z, scale, bounds.z))
      && forall k :: 0 <= k < |points| ==>
           b.Place(points[k], bounds)
           == Vec3(Centred(points[k].x, b.low.x, b.high.x, scale), Centred(points[k].y, b.low.y, b.high.y, scale),
                   Centred(points[k].z, b.low.z, b.high.z, scale))
  {
    hide Box.Fit, Box.Place, BoxOf, Fits, Fills, Centred, Coords;
    AxisFits(points, bounds, X);
    AxisFits(points, bounds, Y);
    AxisFits(points, bounds, Z);
    var axis := SomeAxisFills(points, bounds);
    forall k | 0 <= k < |points| { PlacedCentred(points, bounds, k); }
  }

  lemma AxisFits(points: seq<Vec3>, bounds: Vec3, axis: Axis)
    requires points != [] && bounds.x >= 0.0 && bounds.y >= 0.0 && bounds.z >= 0.0
    ensures var b := BoxOf(points);
      Fits(Coords(points, axis), Coord(b.low, axis), Coord(b.high, axis), b.Fit(bounds), Coord(bounds, axis))
  {
    var b := BoxOf(points);
    hide BoxOf, Box.Fit, Box.Half, Ratio, Times, HalfSpan;
    FitBounds(b, bounds);
    BoxSpans(points, axis);
    InBox(points, 0, axis);
    HalfSpanIsHalf(b, axis);
    RatioTimes(Coord(bounds, axis), b.Half(axis));
    TimesMonotonic(b.Fit(bounds), Ratio(Coord(bounds, axis), b.Half(axis)), b.Half(axis));
  }

  lemma TimesIsProduct(v: real, scale: real)
    ensures Times(v, scale) == v * scale
  {
  }

  lemma SomeAxisFills(points: seq<Vec3>, bounds: Vec3) returns (axis: Axis)
    requires points != []
    ensures var b := BoxOf(points); Fills(Coord(b.low, axis), Coord(b.high, axis), b.Fit(bounds), Coord(bounds, axis))
  {
    var b := BoxOf(points);
    hide BoxOf, Box.Fit, Box.Half, Times, HalfSpan;
    FitIsTight(b, bounds);
    axis :| Times(b.Fit(bounds), b.Half(axis)) == Coord(bounds, axis);
    InBox(points, 0, axis);
    HalfSpanIsHalf(b, axis);
  }

  lemma PlacedCentred(points: seq<Vec3>, bounds: Vec3, k: nat)
    requires k < |points| && bounds.x >= 0.0 && bounds.y >= 0.0 && bounds.z >= 0.0
    ensures var b := BoxOf(points); var scale := b.Fit(bounds);
      b.Place(points[k], bounds)
      == Vec3(Centred(points[k].x, b.low.x, b.high.x, scale), Centred(points[k].y, b.low.y, b.high.y, scale),
              Centred(points[k].z, b.low.z, b.high.z, scale))
  {
    var b := BoxOf(points);
    hide Box.Fit, Box.Place, BoxOf, Times;
    UniformInsideBounds(points, bounds, k);
  }
}
