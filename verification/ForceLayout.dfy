/** The force simulation that places clusters, and the scaling of its result, over the reals. */
module ForceLayout {
  import opened Prelude
  import EdgeCounts

  // ---------------------------------------------------------------------------
  // Vectors
  // ---------------------------------------------------------------------------

  datatype Vec3 = Vec3(x: real, y: real, z: real)

  const ZERO := Vec3(0.0, 0.0, 0.0)

  function Add(a: Vec3, b: Vec3): Vec3 { Vec3(a.x + b.x, a.y + b.y, a.z + b.z) }

  function Scale(k: real, a: Vec3): Vec3 { Vec3(k * a.x, k * a.y, k * a.z) }

  function Neg(a: Vec3): Vec3 { Vec3(-a.x, -a.y, -a.z) }

  function Minus(a: Vec3, b: Vec3): Vec3 { Vec3(a.x - b.x, a.y - b.y, a.z - b.z) }

  function Sum(vs: seq<Vec3>): Vec3 {
    if vs == [] then ZERO else Add(Sum(vs[..|vs| - 1]), vs[|vs| - 1])
  }

  // ---------------------------------------------------------------------------
  // Forces
  // ---------------------------------------------------------------------------

  const EPS := 0.000001

  datatype Params = Params(
    dt: real, damping: real, repulsionStrength: real, attractionStrength: real, gravityStrength: real,
    sqrt: real -> real)

  ghost predicate PositiveRoots(q: Params) { forall v: real :: v > 0.0 ==> q.sqrt(v) > 0.0 }

  function DistSq(d: Vec3): real { d.x * d.x + d.y * d.y + d.z * d.z + EPS }

  lemma DistSqPositive(d: Vec3)
    ensures DistSq(d) > 0.0 && DistSq(Neg(d)) == DistSq(d)
  {
    SquareNonNegative(d.x);
    SquareNonNegative(d.y);
    SquareNonNegative(d.z);
  }

  lemma SquareNonNegative(x: real)
    ensures x * x >= 0.0 && (-x) * (-x) == x * x
  {
  }

  /** Repulsion along one coordinate: the unit vector's share of the inverse square. */
  function Repulsion(d: real, dist: real, distSq: real, strength: real): real
    requires dist != 0.0 && distSq != 0.0
  {
    (d / dist) * (strength / distSq)
  }

  /** The acceleration of a cluster due to another at displacement d: pushed away, and pulled if linked. */
  function Pull(q: Params, d: Vec3, weight: real): Vec3
    requires PositiveRoots(q)
  {
    DistSqPositive(d);
    var distSq := DistSq(d);
    var dist := q.sqrt(distSq);
    var away := Vec3(-Repulsion(d.x, dist, distSq, q.repulsionStrength),
                     -Repulsion(d.y, dist, distSq, q.repulsionStrength),
                     -Repulsion(d.z, dist, distSq, q.repulsionStrength));
    if weight > 0.0 then Add(away, Scale(q.attractionStrength * weight, d)) else away
  }

  type Weights = (nat, nat) -> real

  ghost predicate Symmetric(w: Weights) { forall i: nat, j: nat :: w(i, j) == w(j, i) }

  /** The pull of cluster m on cluster k. */
  function PullOf(q: Params, w: Weights, pos: seq<Vec3>, k: nat, m: nat): Vec3
    requires PositiveRoots(q) && k < |pos| && m < |pos|
  {
    Pull(q, Minus(pos[m], pos[k]), w(k, m))
  }

  /** The pulls of the first m clusters on cluster k; with all of them, the net force, however the loops pair them. */
  function NetUpTo(q: Params, w: Weights, pos: seq<Vec3>, k: nat, m: nat): Vec3
    requires PositiveRoots(q) && k < |pos| && m <= |pos|
  {
    if m == 0 then ZERO
    else Add(NetUpTo(q, w, pos, k, m - 1), if m - 1 == k then ZERO else PullOf(q, w, pos, k, m - 1))
  }

  lemma RepulsionOdd(d: real, dist: real, distSq: real, strength: real)
    requires dist != 0.0 && distSq != 0.0
    ensures Repulsion(-d, dist, distSq, strength) == -Repulsion(d, dist, distSq, strength)
  {
    assert (-d) / dist == -(d / dist) by { assert (-(d / dist)) * dist == -d; }
  }

  lemma MulNeg(k: real, x: real)
    ensures k * (-x) == -(k * x)
  {
  }

  /** Every force has its equal and opposite. */
  lemma PullOdd(q: Params, d: Vec3, weight: real)
    requires PositiveRoots(q)
    ensures Pull(q, Neg(d), weight) == Neg(Pull(q, d, weight))
  {
    hide DistSq, Repulsion;
    DistSqPositive(d);
    var distSq := DistSq(d);
    var dist := q.sqrt(distSq);
    RepulsionOdd(d.x, dist, distSq, q.repulsionStrength);
    RepulsionOdd(d.y, dist, distSq, q.repulsionStrength);
    RepulsionOdd(d.z, dist, distSq, q.repulsionStrength);
    var k := q.attractionStrength * weight;
    MulNeg(k, d.x);
    MulNeg(k, d.y);
    MulNeg(k, d.z);
  }

  lemma PullOfOdd(q: Params, w: Weights, pos: seq<Vec3>, k: nat, m: nat)
    requires PositiveRoots(q) && Symmetric(w) && k < |pos| && m < |pos|
    ensures PullOf(q, w, pos, m, k) == Neg(PullOf(q, w, pos, k, m))
  {
    hide Pull;
    assert Minus(pos[k], pos[m]) == Neg(Minus(pos[m], pos[k]));
    PullOdd(q, Minus(pos[m], pos[k]), w(k, m));
  }

  // ---------------------------------------------------------------------------
  // Internal forces cancel
  // ---------------------------------------------------------------------------

  function Nets(q: Params, w: Weights, pos: seq<Vec3>, n: nat, m: nat): seq<Vec3>
    requires PositiveRoots(q) && n <= |pos| && m <= |pos|
  {
    seq(n, k requires 0 <= k < n => NetUpTo(q, w, pos, k, m))
  }

  /** The pulls of cluster m on each of the first n. */
  function Column(q: Params, w: Weights, pos: seq<Vec3>, n: nat, m: nat): seq<Vec3>
    requires PositiveRoots(q) && n <= |pos| && m < |pos|
  {
    seq(n, k requires 0 <= k < n => PullOf(q, w, pos, k, m))
  }

  lemma {:induction false} ColumnAdds(q: Params, w: Weights, pos: seq<Vec3>, n: nat, m: nat)
    requires PositiveRoots(q) && n <= m < |pos|
    ensures Sum(Nets(q, w, pos, n, m + 1)) == Add(Sum(Nets(q, w, pos, n, m)), Sum(Column(q, w, pos, n, m)))
  {
    hide PullOf, PositiveRoots, Sum, NetUpTo, Nets, Column, Add;
    if n > 0 {
      ColumnAdds(q, w, pos, n - 1, m);
      NetsSnoc(q, w, pos, n, m + 1);
      NetsSnoc(q, w, pos, n, m);
      ColumnSnoc(q, w, pos, n, m);
      NetStep(q, w, pos, n - 1, m);
      AddSwap(Sum(Nets(q, w, pos, n - 1, m)), Sum(Column(q, w, pos, n - 1, m)),
              NetUpTo(q, w, pos, n - 1, m), PullOf(q, w, pos, n - 1, m));
    } else {
      NoSums(q, w, pos, m);
    }
  }

  lemma NetsSnoc(q: Params, w: Weights, pos: seq<Vec3>, n: nat, m: nat)
    requires PositiveRoots(q) && 0 < n <= |pos| && m <= |pos|
    ensures Sum(Nets(q, w, pos, n, m)) == Add(Sum(Nets(q, w, pos, n - 1, m)), NetUpTo(q, w, pos, n - 1, m))
  {
    hide PullOf, PositiveRoots, NetUpTo;
    assert Nets(q, w, pos, n, m)[..n - 1] == Nets(q, w, pos, n - 1, m);
  }

  lemma ColumnSnoc(q: Params, w: Weights, pos: seq<Vec3>, n: nat, m: nat)
    requires PositiveRoots(q) && 0 < n <= |pos| && m < |pos|
    ensures Sum(Column(q, w, pos, n, m)) == Add(Sum(Column(q, w, pos, n - 1, m)), PullOf(q, w, pos, n - 1, m))
  {
    hide PullOf, PositiveRoots;
    assert Column(q, w, pos, n, m)[..n - 1] == Column(q, w, pos, n - 1, m);
  }

  lemma NetStep(q: Params, w: Weights, pos: seq<Vec3>, k: nat, m: nat)
    requires PositiveRoots(q) && k < |pos| && m < |pos|
    ensures NetUpTo(q, w, pos, k, m + 1)
         == if k == m then NetUpTo(q, w, pos, k, m) else Add(NetUpTo(q, w, pos, k, m), PullOf(q, w, pos, k, m))
  {
    hide PullOf, PositiveRoots;
    assert k != m ==> NetUpTo(q, w, pos, k, m + 1) == Add(NetUpTo(q, w, pos, k, m), PullOf(q, w, pos, k, m));
    if k == m { AddZero(NetUpTo(q, w, pos, k, m)); }
  }

  lemma NoSums(q: Params, w: Weights, pos: seq<Vec3>, m: nat)
    requires PositiveRoots(q) && m < |pos|
    ensures Sum(Nets(q, w, pos, 0, m + 1)) == Sum(Nets(q, w, pos, 0, m)) == Sum(Column(q, w, pos, 0, m)) == ZERO
    ensures Add(ZERO, ZERO) == ZERO
  {
    hide PullOf, PositiveRoots, NetUpTo;
  }

  lemma AddSwap(a: Vec3, b: Vec3, c: Vec3, d: Vec3)
    ensures Add(Add(a, b), Add(c, d)) == Add(Add(a, c), Add(b, d))
  {
  }

  lemma {:induction false} RowIsNegColumn(q: Params, w: Weights, pos: seq<Vec3>, m: nat, j: nat)
    requires PositiveRoots(q) && Symmetric(w) && j <= m < |pos|
    ensures NetUpTo(q, w, pos, m, j) == Neg(Sum(Column(q, w, pos, j, m)))
  {
    hide PullOf, PositiveRoots, Symmetric, Sum, NetUpTo, Column, Add, Neg;
    if j > 0 {
      RowIsNegColumn(q, w, pos, m, j - 1);
      PullOfOdd(q, w, pos, j - 1, m);
      ColumnSnoc(q, w, pos, j, m);
      NetStep(q, w, pos, m, j - 1);
      NegAdd(Sum(Column(q, w, pos, j - 1, m)), PullOf(q, w, pos, j - 1, m));
    } else {
      NothingToNegate(q, w, pos, m);
    }
  }

  lemma NothingToNegate(q: Params, w: Weights, pos: seq<Vec3>, m: nat)
    requires PositiveRoots(q) && m < |pos|
    ensures NetUpTo(q, w, pos, m, 0) == Neg(Sum(Column(q, w, pos, 0, m)))
  {
    hide PullOf, PositiveRoots;
  }

  lemma NegAdd(a: Vec3, b: Vec3)
    ensures Add(Neg(a), Neg(b)) == Neg(Add(a, b))
    ensures Add(Add(ZERO, a), Neg(a)) == ZERO
  {
  }

  lemma {:induction false} PrefixCancels(q: Params, w: Weights, pos: seq<Vec3>, n: nat)
    requires PositiveRoots(q) && Symmetric(w) && n <= |pos|
    ensures Sum(Nets(q, w, pos, n, n)) == ZERO
  {
    if n > 0 {
      hide PullOf, PositiveRoots, Symmetric, Column, Nets, Sum, NetUpTo, Add, Neg;
      PrefixCancels(q, w, pos, n - 1);
      ColumnAdds(q, w, pos, n - 1, n - 1);
      RowIsNegColumn(q, w, pos, n - 1, n - 1);
      NetsSnoc(q, w, pos, n, n);
      NetStep(q, w, pos, n - 1, n - 1);
      NegAdd(Sum(Column(q, w, pos, n - 1, n - 1)), ZERO);
    } else {
      assert Sum(Nets(q, w, pos, 0, 0)) == ZERO;
    }
  }

  /** The accelerations of the pair loops sum to zero, whatever the links are. */
  lemma InternalForcesCancel(q: Params, w: Weights, pos: seq<Vec3>)
    requires PositiveRoots(q) && Symmetric(w)
    ensures Sum(Nets(q, w, pos, |pos|, |pos|)) == ZERO
  {
    PrefixCancels(q, w, pos, |pos|);
  }

  /** The weights of the source: shared edges up to 200, under a key that ignores the order of the pair. */
  function WeightFrom(ids: seq<string>, counts: map<string, nat>): Weights {
    (i: nat, j: nat) =>
      if i < |ids| && j < |ids| && EdgeCounts.PairKey(ids[i], ids[j]) in counts
      then Clamp(counts[EdgeCounts.PairKey(ids[i], ids[j])] as real, 0.0, 200.0) else 0.0
  }

  function Clamp(value: real, min: real, max: real): real { Min(max, Max(min, value)) }

  function Min(a: real, b: real): real { if a <= b then a else b }

  function Max(a: real, b: real): real { if a >= b then a else b }

  lemma WeightsAreSymmetric(ids: seq<string>, counts: map<string, nat>)
    ensures Symmetric(WeightFrom(ids, counts))
  {
    forall i: nat, j: nat ensures WeightFrom(ids, counts)(i, j) == WeightFrom(ids, counts)(j, i) {
      if i < |ids| && j < |ids| {
        StrLeTotal(ids[i], ids[j]);
      }
    }
  }

  // ---------------------------------------------------------------------------
  // The simulation
  // ---------------------------------------------------------------------------

  datatype State = State(pos: seq<Vec3>, vel: seq<Vec3>)

  function Scaled(k: real, vs: seq<Vec3>): seq<Vec3> { seq(|vs|, i requires 0 <= i < |vs| => Scale(k, vs[i])) }

  function Added(us: seq<Vec3>, vs: seq<Vec3>): seq<Vec3>
    requires |us| == |vs|
  {
    seq(|us|, i requires 0 <= i < |us| => Add(us[i], vs[i]))
  }

  function Zeros(n: nat): seq<Vec3> { seq(n, _ => ZERO) }

  /** Internal forces and gravity. */
  function Accelerations(q: Params, w: Weights, pos: seq<Vec3>): seq<Vec3>
    requires PositiveRoots(q)
  {
    Added(Nets(q, w, pos, |pos|, |pos|), Scaled(-q.gravityStrength, pos))
  }

  function Step(q: Params, w: Weights, s: State): State
    requires PositiveRoots(q) && |s.vel| == |s.pos|
  {
    var vel := Scaled(q.damping, Added(s.vel, Scaled(q.dt, Accelerations(q, w, s.pos))));
    State(Added(s.pos, Scaled(q.dt, vel)), vel)
  }

  function After(q: Params, w: Weights, start: seq<Vec3>, n: nat): (s: State)
    requires PositiveRoots(q)
    ensures |s.pos| == |s.vel| == |start|
  {
    if n == 0 then State(start, Zeros(|start|)) else Step(q, w, After(q, w, start, n - 1))
  }

  /** How far the sum over cluster k has come once the pairs before (i, j) are done. */
  function Done(n: nat, k: nat, i: nat, j: nat): nat {
    if k < i then n else if k == i then j else if k < j then i + 1 else i
  }

  ghost predicate PartialNets(q: Params, w: Weights, pos: seq<Vec3>, acc: seq<Vec3>, i: nat, j: nat)
    requires PositiveRoots(q) && |acc| == |pos| && i < j <= |pos|
  {
    forall k :: 0 <= k < |pos| ==> acc[k] == NetUpTo(q, w, pos, k, Done(|pos|, k, i, j))
  }

  lemma PairDone(q: Params, w: Weights, pos: seq<Vec3>, acc: seq<Vec3>, i: nat, j: nat)
    requires PositiveRoots(q) && |acc| == |pos| && i < j < |pos| && PartialNets(q, w, pos, acc, i, j)
    ensures PartialNets(q, w, pos, acc[i := Add(acc[i], PullOf(q, w, pos, i, j))]
                                      [j := Add(acc[j], PullOf(q, w, pos, j, i))], i, j + 1)
  {
    hide PullOf, PositiveRoots;
  }

  lemma RowDone(q: Params, w: Weights, pos: seq<Vec3>, acc: seq<Vec3>, i: nat)
    requires PositiveRoots(q) && |acc| == |pos| && i < |pos| && PartialNets(q, w, pos, acc, i, |pos|)
    ensures if i + 1 < |pos| then PartialNets(q, w, pos, acc, i + 1, i + 2) else acc == Nets(q, w, pos, |pos|, |pos|)
  {
    hide PullOf, PositiveRoots;
    if i + 1 < |pos| {
      forall k | 0 <= k < |pos| ensures acc[k] == NetUpTo(q, w, pos, k, Done(|pos|, k, i + 1, i + 2)) {
        assert acc[k] == NetUpTo(q, w, pos, k, Done(|pos|, k, i, |pos|));
      }
    }
  }

  /** Pairwise repulsion and attraction, each pair once, both ends at a time. */
  method AccumulateForces(q: Params, w: Weights, pos: array<Vec3>, acc: array<Vec3>)
    requires PositiveRoots(q) && Symmetric(w) && acc != pos && acc.Length == pos.Length
    requires acc[..] == Zeros(acc.Length)
    modifies acc
    ensures acc[..] == Nets(q, w, pos[..], pos.Length, pos.Length)
  {
    hide PullOf, PositiveRoots, Symmetric, NetUpTo, PartialNets, Nets, Zeros;
    var n := pos.Length;
    ghost var at := pos[..];
    FirstRow(q, w, at);
    for i := 0 to n
      invariant pos[..] == at
      invariant if i < n then PartialNets(q, w, at, acc[..], i, i + 1) else acc[..] == Nets(q, w, at, n, n)
    {
      for j := i + 1 to n
        invariant pos[..] == at
        invariant PartialNets(q, w, at, acc[..], i, j)
      {
        PairDone(q, w, at, acc[..], i, j);
        ApplyPair(q, w, pos, acc, i, j);
      }
      RowDone(q, w, at, acc[..], i);
    }
  }

  lemma FirstRow(q: Params, w: Weights, pos: seq<Vec3>)
    requires PositiveRoots(q)
    ensures if |pos| > 0 then PartialNets(q, w, pos, Zeros(|pos|), 0, 1) else Zeros(|pos|) == Nets(q, w, pos, 0, 0)
  {
    hide PullOf, PositiveRoots;
    forall k | 0 <= k < |pos| ensures NetUpTo(q, w, pos, k, 0) == ZERO {
    }
    assert |pos| > 0 ==> NetUpTo(q, w, pos, 0, 1) == Add(ZERO, ZERO);
  }

  method ApplyPair(q: Params, w: Weights, pos: array<Vec3>, acc: array<Vec3>, i: nat, j: nat)
    requires PositiveRoots(q) && Symmetric(w) && acc != pos && acc.Length == pos.Length && i < j < pos.Length
    modifies acc
    ensures acc[..] == old(acc[..])[i := Add(old(acc[i]), PullOf(q, w, pos[..], i, j))]
                                   [j := Add(old(acc[j]), PullOf(q, w, pos[..], j, i))]
  {
    hide Repulsion, DistSq;
    PullOfOdd(q, w, pos[..], i, j);
    var d := Minus(pos[j], pos[i]);
    DistSqPositive(d);
    var distSq := DistSq(d);
    var dist := q.sqrt(distSq);
    var push := Vec3(Repulsion(d.x, dist, distSq, q.repulsionStrength),
                     Repulsion(d.y, dist, distSq, q.repulsionStrength),
                     Repulsion(d.z, dist, distSq, q.repulsionStrength));
    acc[i] := Minus(acc[i], push);
    acc[j] := Add(acc[j], push);
    if w(i, j) > 0.0 {
      var pull := Scale(q.attractionStrength * w(i, j), d);
      acc[i] := Add(acc[i], pull);
      acc[j] := Minus(acc[j], pull);
    }
    assert acc[i] == Add(old(acc[i]), PullOf(q, w, pos[..], i, j));
    assert acc[j] == Minus(old(acc[j]), PullOf(q, w, pos[..], i, j));
    assert acc[..] == old(acc[..])[i := acc[i]][j := acc[j]];
  }

  /** The loops of the source: forces, gravity, integration. */
  method Simulate(q: Params, w: Weights, start: seq<Vec3>, iterations: nat)
    returns (pos: array<Vec3>, vel: array<Vec3>)
    requires PositiveRoots(q) && Symmetric(w)
    ensures State(pos[..], vel[..]) == After(q, w, start, iterations)
  {
    hide PositiveRoots, Symmetric, Nets;
    var n := |start|;
    pos := new Vec3[n](i requires 0 <= i < n => start[i]);
    vel := new Vec3[n](_ => ZERO);
    var acc := new Vec3[n](_ => ZERO);
    assert pos[..] == start;
    assert vel[..] == Zeros(n);
    for iter := 0 to iterations
      invariant State(pos[..], vel[..]) == After(q, w, start, iter)
    {
      hide Step, After;
      ghost var s := State(pos[..], vel[..]);
      AfterStep(q, w, start, iter);
      Clear(acc);
      AccumulateForces(q, w, pos, acc);
      Integrate(q, w, pos, vel, acc);
    }
  }

  lemma AfterStep(q: Params, w: Weights, start: seq<Vec3>, n: nat)
    requires PositiveRoots(q)
    ensures After(q, w, start, n + 1) == Step(q, w, After(q, w, start, n))
  {
  }

  method Clear(acc: array<Vec3>)
    modifies acc
    ensures acc[..] == Zeros(acc.Length)
  {
    for k := 0 to acc.Length
      invariant forall m :: 0 <= m < k ==> acc[m] == ZERO
    {
      acc[k] := ZERO;
    }
  }

  method Integrate(q: Params, w: Weights, pos: array<Vec3>, vel: array<Vec3>, acc: array<Vec3>)
    requires PositiveRoots(q) && pos != vel && acc != pos && acc != vel
    requires pos.Length == vel.Length == acc.Length
    requires acc[..] == Nets(q, w, pos[..], pos.Length, pos.Length)
    modifies pos, vel, acc
    ensures State(pos[..], vel[..]) == Step(q, w, State(old(pos[..]), old(vel[..])))
  {
    hide PositiveRoots, Nets;
    var n := pos.Length;
    for k := 0 to n
      invariant pos[..] == old(pos[..]) && vel[..] == old(vel[..])
      invariant forall m :: 0 <= m < k ==> acc[m] == Add(old(acc[m]), Scale(-q.gravityStrength, pos[m]))
      invariant forall m :: k <= m < n ==> acc[m] == old(acc[m])
    {
      acc[k] := Add(acc[k], Scale(-q.gravityStrength, pos[k]));
    }
    assert acc[..] == Accelerations(q, w, old(pos[..]));
    label Pulled:
    for k := 0 to n
      invariant acc[..] == old@Pulled(acc[..])
      invariant forall m :: 0 <= m < k ==> vel[m] == Scale(q.damping, Add(old(vel[m]), Scale(q.dt, acc[m])))
      invariant forall m :: 0 <= m < k ==> pos[m] == Add(old(pos[m]), Scale(q.dt, vel[m]))
      invariant forall m :: k <= m < n ==> vel[m] == old(vel[m]) && pos[m] == old(pos[m])
    {
      vel[k] := Scale(q.damping, Add(vel[k], Scale(q.dt, acc[k])));
      pos[k] := Add(pos[k], Scale(q.dt, vel[k]));
    }
    assert vel[..] == Step(q, w, State(old(pos[..]), old(vel[..]))).vel;
  }

  // ---------------------------------------------------------------------------
  // Total position and velocity
  // ---------------------------------------------------------------------------

  lemma {:induction false} SumScaled(k: real, vs: seq<Vec3>)
    ensures Sum(Scaled(k, vs)) == Scale(k, Sum(vs))
  {
    if vs == [] {
    } else {
      SumScaled(k, vs[..|vs| - 1]);
      assert Scaled(k, vs)[..|vs| - 1] == Scaled(k, vs[..|vs| - 1]);
      ScaleAdds(k, Sum(vs[..|vs| - 1]), vs[|vs| - 1]);
    }
  }

  lemma ScaleAdds(k: real, a: Vec3, b: Vec3)
    ensures Scale(k, Add(a, b)) == Add(Scale(k, a), Scale(k, b))
  {
    Distribute(k, a.x, b.x);
    Distribute(k, a.y, b.y);
    Distribute(k, a.z, b.z);
  }

  lemma Distribute(k: real, x: real, y: real)
    ensures k * (x + y) == k * x + k * y
  {
  }

  lemma {:induction false} SumAdded(us: seq<Vec3>, vs: seq<Vec3>)
    requires |us| == |vs|
    ensures Sum(Added(us, vs)) == Add(Sum(us), Sum(vs))
  {
    if us == [] {
    } else {
      SumAdded(us[..|us| - 1], vs[..|vs| - 1]);
      assert Added(us, vs)[..|us| - 1] == Added(us[..|us| - 1], vs[..|vs| - 1]);
    }
  }

  lemma {:induction false} SumZeros(n: nat)
    ensures Sum(Zeros(n)) == ZERO
  {
    if n == 0 {
    } else {
      SumZeros(n - 1);
      assert Zeros(n)[..n - 1] == Zeros(n - 1);
    }
  }

  /** One iteration for the totals: gravity, dt and damping, and no force between clusters. */
  function Drift(q: Params, total: (Vec3, Vec3)): (Vec3, Vec3) {
    var vel := Scale(q.damping, Add(total.1, Scale(q.dt, Scale(-q.gravityStrength, total.0))));
    (Add(total.0, Scale(q.dt, vel)), vel)
  }

  function DriftFor(q: Params, total: (Vec3, Vec3), n: nat): (Vec3, Vec3) {
    if n == 0 then total else Drift(q, DriftFor(q, total, n - 1))
  }

  lemma StepDrifts(q: Params, w: Weights, s: State)
    requires PositiveRoots(q) && Symmetric(w) && |s.vel| == |s.pos|
    ensures (Sum(Step(q, w, s).pos), Sum(Step(q, w, s).vel)) == Drift(q, (Sum(s.pos), Sum(s.vel)))
  {
    hide Nets, Scaled, Added, Sum, Add, Scale, PositiveRoots, Symmetric;
    ScaledLength(q, w, s);
    var nets := Nets(q, w, s.pos, |s.pos|, |s.pos|);
    var acc := Accelerations(q, w, s.pos);
    var vel := Scaled(q.damping, Added(s.vel, Scaled(q.dt, acc)));
    InternalForcesCancel(q, w, s.pos);
    SumAdded(nets, Scaled(-q.gravityStrength, s.pos));
    SumScaled(-q.gravityStrength, s.pos);
    AddZero(Scale(-q.gravityStrength, Sum(s.pos)));
    SumScaled(q.dt, acc);
    SumAdded(s.vel, Scaled(q.dt, acc));
    SumScaled(q.damping, Added(s.vel, Scaled(q.dt, acc)));
    SumScaled(q.dt, vel);
    SumAdded(s.pos, Scaled(q.dt, vel));
  }

  lemma ScaledLength(q: Params, w: Weights, s: State)
    requires PositiveRoots(q) && |s.vel| == |s.pos|
    ensures |Nets(q, w, s.pos, |s.pos|, |s.pos|)| == |Scaled(-q.gravityStrength, s.pos)| == |s.pos|
    ensures |Accelerations(q, w, s.pos)| == |Scaled(q.dt, Accelerations(q, w, s.pos))| == |s.pos|
    ensures |Scaled(q.dt, Step(q, w, s).vel)| == |s.pos|
  {
  }

  lemma AddZero(a: Vec3)
    ensures Add(ZERO, a) == Add(a, ZERO) == a
  {
  }

  /** For every start, links and number of iterations the totals follow the recurrence. */
  lemma {:induction false} TotalsDrift(q: Params, w: Weights, start: seq<Vec3>, n: nat)
    requires PositiveRoots(q) && Symmetric(w)
    ensures (Sum(After(q, w, start, n).pos), Sum(After(q, w, start, n).vel)) == DriftFor(q, (Sum(start), ZERO), n)
  {
    hide Step, Drift, Sum, PositiveRoots, Symmetric;
    if n == 0 {
      SumZeros(|start|);
    } else {
      TotalsDrift(q, w, start, n - 1);
      StepDrifts(q, w, After(q, w, start, n - 1));
    }
  }

  /** In particular under the weights of any counted edges. */
  lemma {:induction false} LayoutDrifts(q: Params, ids: seq<string>, counts: map<string, nat>, start: seq<Vec3>, n: nat)
    requires PositiveRoots(q)
    ensures var s := After(q, WeightFrom(ids, counts), start, n);
      (Sum(s.pos), Sum(s.vel)) == DriftFor(q, (Sum(start), ZERO), n)
  {
    hide After, Sum, PositiveRoots, Symmetric, DriftFor, WeightFrom;
    WeightsAreSymmetric(ids, counts);
    TotalsDrift(q, WeightFrom(ids, counts), start, n);
  }

  /** Without gravity the centre of the clusters stays where it started. */
  lemma NoGravityNoDrift(q: Params, w: Weights, start: seq<Vec3>, n: nat)
    requires PositiveRoots(q) && Symmetric(w) && q.gravityStrength == 0.0
    ensures Sum(After(q, w, start, n).pos) == Sum(start) && Sum(After(q, w, start, n).vel) == ZERO
  {
    hide After, Sum, PositiveRoots, Symmetric, DriftFor;
    TotalsDrift(q, w, start, n);
    AtRestStays(q, Sum(start), n);
  }

  lemma {:induction false} AtRestStays(q: Params, at: Vec3, n: nat)
    requires q.gravityStrength == 0.0
    ensures DriftFor(q, (at, ZERO), n) == (at, ZERO)
  {
    if n == 0 {
    } else {
      AtRestStays(q, at, n - 1);
      RestingDrift(q, at);
    }
  }

  lemma RestingDrift(q: Params, at: Vec3)
    requires q.gravityStrength == 0.0
    ensures Drift(q, (at, ZERO)) == (at, ZERO)
  {
    assert Scale(-q.gravityStrength, at) == ZERO;
    assert Scale(q.dt, ZERO) == ZERO;
    assert Scale(q.damping, ZERO) == ZERO;
    hide Scale;
    AddZero(at);
    AddZero(ZERO);
  }
}
