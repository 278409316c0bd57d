/** Scaling the simulated positions into the layout's bounds, over the reals. */
module LayoutBounds {
  import EdgeCounts
  import opened ForceLayout
  import opened Prelude

  datatype Axis = X | Y | Z

  function Coord(p: Vec3, axis: Axis): real {
    match axis
    case X => p.x
    case Y => p.y
    case Z => p.z
  }

  function Coords(points: seq<Vec3>, axis: Axis): seq<real> {
    seq(|points|, k requires 0 <= k < |points| => Coord(points[k], axis))
  }

  function Lowest(vs: seq<real>): real
    requires vs != []
  {
    if |vs| == 1 then vs[0] else Min(Lowest(vs[..|vs| - 1]), vs[|vs| - 1])
  }

  function Highest(vs: seq<real>): real
    requires vs != []
  {
    if |vs| == 1 then vs[0] else Max(Highest(vs[..|vs| - 1]), vs[|vs| - 1])
  }

  const TINY := 0.000001

  function Centre(low: real, high: real): real { (low + high) / 2.0 }

  function HalfExtent(low: real, high: real): (h: real)
    ensures h >= TINY
  {
    Max(Max(Abs(low - Centre(low, high)), Abs(high - Centre(low, high))), TINY)
  }

  function Times(v: real, scale: real): real { v * scale }

  function Ratio(bound: real, half: real): real
    requires half > 0.0
  {
    bound / half
  }

  /** The box around some points. */
  datatype Box = Box(low: Vec3, high: Vec3) {
    function Middle(): Vec3 { Vec3(Centre(low.x, high.x), Centre(low.y, high.y), Centre(low.z, high.z)) }

    function Half(axis: Axis): (h: real)
      ensures h >= TINY
    {
      HalfExtent(Coord(low, axis), Coord(high, axis))
    }

    /** The largest scale that no axis forbids. */
    function Fit(bounds: Vec3): real {
      Min(Min(Ratio(bounds.x, Half(X)), Ratio(bounds.y, Half(Y))), Ratio(bounds.z, Half(Z)))
    }

    function Place(p: Vec3, bounds: Vec3): Vec3 {
      Vec3(Times(p.x - Middle().x, Fit(bounds)), Times(p.y - Middle().y, Fit(bounds)),
           Clamp(Times(p.z - Middle().z, Fit(bounds)), -bounds.z, bounds.z))
    }
  }

  function BoxOf(points: seq<Vec3>): Box
    requires points != []
  {
    Box(Vec3(Lowest(Coords(points, X)), Lowest(Coords(points, Y)), Lowest(Coords(points, Z))),
        Vec3(Highest(Coords(points, X)), Highest(Coords(points, Y)), Highest(Coords(points, Z))))
  }

  /** The two loops of the source. */
  method NormalizeToBounds(points: seq<Vec3>, bounds: Vec3) returns (out: seq<Vec3>)
    ensures |out| == |points|
    ensures forall k :: 0 <= k < |points| ==> out[k] == BoxOf(points).Place(points[k], bounds)
  {
    hide Box.Place, Lowest, Highest;
    out := [];
    if points == [] {
      return;
    }
    var low, high := points[0], points[0];
    assert Box(low, high) == BoxOf(points[..1]) by { BoxOfOne(points); }
    for i := 1 to |points|
      invariant Box(low, high) == BoxOf(points[..i])
    {
      hide BoxOf;
      BoxGrows(points, i);
      var p := points[i];
      low := Vec3(Min(low.x, p.x), Min(low.y, p.y), Min(low.z, p.z));
      high := Vec3(Max(high.x, p.x), Max(high.y, p.y), Max(high.z, p.z));
    }
    assert points[..|points|] == points;
    for k := 0 to |points|
      invariant |out| == k
      invariant forall m :: 0 <= m < k ==> out[m] == Box(low, high).Place(points[m], bounds)
    {
      out := out + [Box(low, high).Place(points[k], bounds)];
    }
  }

  lemma BoxOfOne(points: seq<Vec3>)
    requires points != []
    ensures BoxOf(points[..1]) == Box(points[0], points[0])
  {
  }

  lemma BoxGrows(points: seq<Vec3>, i: nat)
    requires 0 < i < |points|
    ensures var was, now, p := BoxOf(points[..i]), BoxOf(points[..i + 1]), points[i];
      && now.low == Vec3(Min(was.low.x, p.x), Min(was.low.y, p.y), Min(was.low.z, p.z))
      && now.high == Vec3(Max(was.high.x, p.x), Max(was.high.y, p.y), Max(was.high.z, p.z))
  {
    hide Min, Max;
    forall axis: Axis ensures Coords(points[..i + 1], axis)[..i] == Coords(points[..i], axis) {
    }
  }

  // ---------------------------------------------------------------------------
  // The box
  // ---------------------------------------------------------------------------

  lemma {:induction false} Extremes(vs: seq<real>)
    requires vs != []
    ensures forall k :: 0 <= k < |vs| ==> Lowest(vs) <= vs[k] <= Highest(vs)
    ensures Lowest(vs) in vs && Highest(vs) in vs
  {
    if |vs| > 1 {
      Extremes(vs[..|vs| - 1]);
      assert vs == vs[..|vs| - 1] + [vs[|vs| - 1]];
    }
  }

  lemma InBox(points: seq<Vec3>, k: nat, axis: Axis)
    requires k < |points|
    ensures var b := BoxOf(points);
      Coord(b.low, axis) <= Coord(points[k], axis) <= Coord(b.high, axis)
  {
    hide Lowest, Highest;
    Extremes(Coords(points, axis));
    assert Coords(points, axis)[k] == Coord(points[k], axis);
  }

  /** No point is further from the middle than half the box. */
  lemma WithinHalf(low: real, high: real, v: real)
    requires low <= v <= high
    ensures Abs(v - Centre(low, high)) <= HalfExtent(low, high)
  {
  }

  // ---------------------------------------------------------------------------
  // The scale
  // ---------------------------------------------------------------------------

  lemma RatioTimes(b: real, h: real)
    requires h > 0.0
    ensures Times(Ratio(b, h), h) == b && (b >= 0.0 ==> Ratio(b, h) >= 0.0) && (b > 0.0 ==> Ratio(b, h) > 0.0)
  {
    var u := b / h;
    assert u * h == b;
    if u < 0.0 { assert u * h < 0.0; }
    if u == 0.0 { assert u * h == 0.0; }
  }

  lemma TimesMonotonic(u: real, v: real, h: real)
    requires u <= v && h > 0.0
    ensures Times(u, h) <= Times(v, h)
  {
    assert (v - u) * h >= 0.0;
  }

  lemma Squeeze(v: real, h: real, scale: real)
    requires Abs(v) <= h && scale >= 0.0
    ensures -Times(scale, h) <= Times(v, scale) <= Times(scale, h)
  {
    assert (h - v) * scale >= 0.0;
    assert (h + v) * scale >= 0.0;
  }

  lemma ScaledInside(v: real, h: real, b: real, scale: real)
    requires h > 0.0 && b >= 0.0 && Abs(v) <= h && 0.0 <= scale <= Ratio(b, h)
    ensures -b <= Times(v, scale) <= b
  {
    hide Times, Ratio, Abs;
    RatioTimes(b, h);
    TimesMonotonic(scale, Ratio(b, h), h);
    Squeeze(v, h, scale);
  }

  lemma FitBounds(box: Box, bounds: Vec3)
    requires bounds.x >= 0.0 && bounds.y >= 0.0 && bounds.z >= 0.0
    ensures 0.0 <= box.Fit(bounds)
    ensures forall axis :: box.Fit(bounds) <= Ratio(Coord(bounds, axis), box.Half(axis))
    ensures bounds.x > 0.0 && bounds.y > 0.0 && bounds.z > 0.0 ==> box.Fit(bounds) > 0.0
  {
    hide Box.Half, Ratio, Times;
    RatioTimes(bounds.x, box.Half(X));
    RatioTimes(bounds.y, box.Half(Y));
    RatioTimes(bounds.z, box.Half(Z));
  }

  /**
   * Normalisation scales uniformly about the middle of the box, keeps every point inside the bounds on all
   * axes, and never uses its clamp.
   */
  lemma UniformInsideBounds(points: seq<Vec3>, bounds: Vec3, k: nat)
    requires k < |points| && bounds.x >= 0.0 && bounds.y >= 0.0 && bounds.z >= 0.0
    ensures var b := BoxOf(points); var placed := b.Place(points[k], bounds);
      && placed == Vec3(Times(points[k].x - b.Middle().x, b.Fit(bounds)),
                        Times(points[k].y - b.Middle().y, b.Fit(bounds)),
                        Times(points[k].z - b.Middle().z, b.Fit(bounds)))
      && -bounds.x <= placed.x <= bounds.x
      && -bounds.y <= placed.y <= bounds.y
      && -bounds.z <= placed.z <= bounds.z
  {
    var b := BoxOf(points);
    hide BoxOf, Box.Fit, Centre, HalfExtent, Times;
    CoordinateInside(points, bounds, k, X);
    CoordinateInside(points, bounds, k, Y);
    CoordinateInside(points, bounds, k, Z);
  }

  lemma CoordinateInside(points: seq<Vec3>, bounds: Vec3, k: nat, axis: Axis)
    requires k < |points| && bounds.x >= 0.0 && bounds.y >= 0.0 && bounds.z >= 0.0
    ensures var b := BoxOf(points); var at := Times(Coord(points[k], axis) - Coord(b.Middle(), axis), b.Fit(bounds));
      -Coord(bounds, axis) <= at <= Coord(bounds, axis)
  {
    var b := BoxOf(points);
    hide BoxOf, Box.Fit, Centre, HalfExtent, Times, Ratio, Abs;
    InBox(points, k, axis);
    FitBounds(b, bounds);
    WithinHalf(Coord(b.low, axis), Coord(b.high, axis), Coord(points[k], axis));
    ScaledInside(Coord(points[k], axis) - Coord(b.Middle(), axis), b.Half(axis), Coord(bounds, axis), b.Fit(bounds));
  }

  /** The layout is as large as the bounds allow: on some axis the scaled half box is the bound. */
  lemma FitIsTight(box: Box, bounds: Vec3)
    ensures exists axis :: Times(box.Fit(bounds), box.Half(axis)) == Coord(bounds, axis)
  {
    hide Box.Half, Times, Ratio;
    RatioTimes(bounds.x, box.Half(X));
    RatioTimes(bounds.y, box.Half(Y));
    RatioTimes(bounds.z, box.Half(Z));
    assert Times(box.Fit(bounds), box.Half(X)) == Coord(bounds, X)
        || Times(box.Fit(bounds), box.Half(Y)) == Coord(bounds, Y)
        || Times(box.Fit(bounds), box.Half(Z)) == Coord(bounds, Z);
  }

  /** Where that axis is not degenerate, some cluster touches the bound. */
  lemma SomeClusterTouches(points: seq<Vec3>, bounds: Vec3, axis: Axis) returns (k: nat)
    requires points != []
    requires var b := BoxOf(points);
      && Times(b.Fit(bounds), b.Half(axis)) == Coord(bounds, axis)
      && Coord(b.high, axis) - Coord(b.low, axis) >= 2.0 * TINY
    ensures k < |points|
    ensures var b := BoxOf(points);
      Times(Coord(points[k], axis) - Coord(b.Middle(), axis), b.Fit(bounds)) == Coord(bounds, axis)
  {
    hide Lowest, Highest, Box.Fit;
    var b := BoxOf(points);
    Extremes(Coords(points, axis));
    k :| 0 <= k < |points| && Coords(points, axis)[k] == Highest(Coords(points, axis));
    assert Coord(points[k], axis) == Coord(b.high, axis);
    assert b.Half(axis) == Coord(b.high, axis) - Coord(b.Middle(), axis);
  }

  // ---------------------------------------------------------------------------
  // The whole layout
  // ---------------------------------------------------------------------------

  predicate Inside(p: Vec3, bounds: Vec3) {
    -bounds.x <= p.x <= bounds.x && -bounds.y <= p.y <= bounds.y && -bounds.z <= p.z <= bounds.z
  }

  /** Counts, simulation, normalisation; `start` is where the seeded positions begin. */
  method ComputeClusterForceCentroids(
      clusterIds: seq<string>, entitiesById: EdgeCounts.Clusters, edges: seq<EdgeCounts.Edge>,
      start: seq<Vec3>, bounds: Vec3, iterations: nat, q: Params)
    returns (centroids: seq<Vec3>, edgeCounts: map<string, nat>)
    requires PositiveRoots(q) && |start| == |clusterIds|
    requires forall i, j :: 0 <= i < j < |clusterIds| ==> clusterIds[i] != clusterIds[j]
    ensures EdgeCounts.Tallies(edgeCounts, EdgeCounts.Crossings(edges, entitiesById, set id | id in clusterIds))
    ensures |centroids| == |clusterIds|
    ensures var pos := After(q, WeightFrom(clusterIds, edgeCounts), start, iterations).pos;
      forall k :: 0 <= k < |clusterIds| ==> centroids[k] == BoxOf(pos).Place(pos[k], bounds)
    ensures bounds.x >= 0.0 && bounds.y >= 0.0 && bounds.z >= 0.0 ==>
      forall k :: 0 <= k < |clusterIds| ==> Inside(centroids[k], bounds)
  {
    hide EdgeCounts.Tallies, EdgeCounts.Crossings, PositiveRoots, Symmetric, BoxOf, Box.Place, WeightFrom;
    edgeCounts := EdgeCounts.ComputeInterClusterEdgeCounts(edges, entitiesById, clusterIds);
    var w := WeightFrom(clusterIds, edgeCounts);
    WeightsAreSymmetric(clusterIds, edgeCounts);
    var pos, _ := Simulate(q, w, start, iterations);
    centroids := NormalizeToBounds(pos[..], bounds);
    if bounds.x >= 0.0 && bounds.y >= 0.0 && bounds.z >= 0.0 {
      forall k | 0 <= k < |clusterIds| ensures Inside(centroids[k], bounds) {
        UniformInsideBounds(pos[..], bounds, k);
      }
    }
  }
}
