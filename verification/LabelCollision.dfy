/** Pushing overlapping labels apart, over the reals. */
module LabelCollision {
  import opened Prelude

  datatype LabelBox = LabelBox(
    id: string, x: real, y: real, width: real, height: real, dx: Option<real>, dy: Option<real>)

  /** A label with its recorded offset. */
  datatype Label = Label(id: string, x: real, y: real, width: real, height: real, dx: real, dy: real) {
    function Moved(alongX: real, alongY: real): Label {
      this.(x := x + alongX, y := y + alongY, dx := dx + alongX, dy := dy + alongY)
    }
  }

  type Hypot = (real, real) -> real

  /** A length is never shorter than either coordinate. */
  ghost predicate IsLength(hypot: Hypot) {
    forall x: real, y: real :: hypot(x, y) >= Abs(x) && hypot(x, y) >= Abs(y)
  }

  function Start(l: LabelBox): Label {
    Label(l.id, l.x, l.y, l.width, l.height,
          if l.dx.Some? then l.dx.value else 0.0, if l.dy.Some? then l.dy.value else 0.0)
  }

  function Starts(labels: seq<LabelBox>): seq<Label> {
    seq(|labels|, i requires 0 <= i < |labels| => Start(labels[i]))
  }

  predicate Intersects(a: Label, b: Label) {
    Abs(a.x - b.x) * 2.0 < a.width + b.width && Abs(a.y - b.y) * 2.0 < a.height + b.height
  }

  /** One coordinate of a push along a vector of the given length; equal centres are not pushed. */
  function Along(x: real, length: real, max: real): real {
    x / (if length == 0.0 then 1.0 else length) * max
  }

  /** One push: how far, and how lengths are measured. */
  datatype Push = Push(max: real, hypot: Hypot) {
    /** How far the pair drives its first label; the second goes the other way. */
    function Shift(a: Label, b: Label): (real, real) {
      if !Intersects(a, b) then (0.0, 0.0)
      else
        var x, y := a.x - b.x, a.y - b.y;
        (Along(x, hypot(x, y), max), Along(y, hypot(x, y), max))
    }

    function Pair(s: seq<Label>, i: nat, j: nat): seq<Label>
      requires i < j < |s|
    {
      var d := Shift(s[i], s[j]);
      s[i := s[i].Moved(d.0, d.1)][j := s[j].Moved(-d.0, -d.1)]
    }

    /** The pairs (i, i + 1) up to (i, j - 1). */
    function Row(s: seq<Label>, i: nat, j: nat): (r: seq<Label>)
      requires i < j <= |s|
      ensures |r| == |s|
    {
      if j == i + 1 then s else Pair(Row(s, i, j - 1), i, j - 1)
    }

    function Rows(s: seq<Label>, i: nat): (r: seq<Label>)
      requires i <= |s|
      ensures |r| == |s|
    {
      if i == 0 then s else Row(Rows(s, i - 1), i - 1, |s|)
    }

    function Passes(s: seq<Label>, n: nat): (r: seq<Label>)
      ensures |r| == |s|
    {
      if n == 0 then s else Rows(Passes(s, n - 1), |s|)
    }
  }

  /** The triple loop of the source, on its own copy of the labels. */
  method ResolveLabelCollisions(labels: seq<LabelBox>, passes: nat, p: Push) returns (out: array<Label>)
    ensures fresh(out) && out[..] == p.Passes(Starts(labels), passes)
  {
    hide Intersects, Abs;
    out := new Label[|labels|](i requires 0 <= i < |labels| => Start(labels[i]));
    ghost var start := Starts(labels);
    assert out[..] == start;
    var n := out.Length;
    for pass := 0 to passes
      invariant out[..] == p.Passes(start, pass)
    {
      ghost var before := out[..];
      for i := 0 to n
        invariant out[..] == p.Rows(before, i)
      {
        ghost var row := out[..];
        for j := i + 1 to n
          invariant out[..] == p.Row(row, i, j)
        {
          PushPair(out, i, j, p);
        }
      }
    }
  }

  method PushPair(out: array<Label>, i: nat, j: nat, p: Push)
    requires i < j < out.Length
    modifies out
    ensures out[..] == p.Pair(old(out[..]), i, j)
  {
    hide Abs, Intersects;
    var a, b := out[i], out[j];
    ghost var d := p.Shift(a, b);
    if Intersects(a, b) {
      var x, y := a.x - b.x, a.y - b.y;
      var length := p.hypot(x, y);
      if length == 0.0 {
        length := 1.0;
      }
      x, y := x / length, y / length;
      out[i] := a.(x := a.x + x * p.max, y := a.y + y * p.max, dx := a.dx + x * p.max, dy := a.dy + y * p.max);
      out[j] := b.(x := b.x - x * p.max, y := b.y - y * p.max, dx := b.dx - x * p.max, dy := b.dy - y * p.max);
      assert out[i] == a.Moved(d.0, d.1) && out[j] == b.Moved(-d.0, -d.1);
    }
    assert out[..] == old(out[..])[i := out[i]][j := out[j]];
  }

  // ---------------------------------------------------------------------------
  // One pair
  // ---------------------------------------------------------------------------

  function Product(u: real, length: real): real { u * length }

  lemma ProductOfQuotient(x: real, length: real)
    requires length > 0.0
    ensures Product(x / length, length) == x
  {
  }

  lemma Scales(u: real, length: real)
    requires length > 0.0
    ensures u > 0.0 ==> u * length > 0.0
  {
  }

  lemma UnitFactor(u: real, length: real)
    requires length > 0.0 && -length <= Product(u, length) <= length
    ensures -1.0 <= u <= 1.0
  {
    assert (u - 1.0) * length == u * length - length;
    assert (-1.0 - u) * length == -length - u * length;
    Scales(u - 1.0, length);
    Scales(-1.0 - u, length);
  }

  lemma UnitBound(x: real, length: real)
    requires length > 0.0 && Abs(x) <= length
    ensures Abs(x / length) <= 1.0
  {
    hide Product;
    ProductOfQuotient(x, length);
    UnitFactor(x / length, length);
  }

  lemma ScaledBound(u: real, max: real)
    requires Abs(u) <= 1.0
    ensures Abs(u * max) <= Abs(max)
  {
    if max >= 0.0 {
      assert u * max <= 1.0 * max && u * max >= -1.0 * max;
    } else {
      assert u * max >= 1.0 * max && u * max <= -1.0 * max;
    }
  }

  /** No push is longer than the maximum. */
  lemma ShiftBound(p: Push, a: Label, b: Label)
    requires IsLength(p.hypot)
    ensures Abs(p.Shift(a, b).0) <= Abs(p.max) && Abs(p.Shift(a, b).1) <= Abs(p.max)
  {
    hide Intersects, Abs, Along;
    var x, y := a.x - b.x, a.y - b.y;
    assert p.hypot(x, y) >= Abs(x) && p.hypot(x, y) >= Abs(y);
    AlongBound(x, p.hypot(x, y), p.max);
    AlongBound(y, p.hypot(x, y), p.max);
    ZeroBound(p.max);
  }

  lemma ZeroBound(max: real)
    ensures Abs(0.0) <= Abs(max)
  {
  }

  lemma AlongBound(x: real, h: real, max: real)
    requires h >= Abs(x)
    ensures Abs(Along(x, h, max)) <= Abs(max)
  {
    var length := if h == 0.0 then 1.0 else h;
    UnitBound(x, length);
    ScaledBound(x / length, max);
  }

  /** Two overlapping labels move apart along the line through their centres, twice the maximum in all. */
  lemma PushSeparates(p: Push, s: seq<Label>, i: nat, j: nat)
    requires i < j < |s| && Intersects(s[i], s[j])
    requires p.hypot(s[i].x - s[j].x, s[i].y - s[j].y) != 0.0
    ensures var t := p.Pair(s, i, j); var h := p.hypot(s[i].x - s[j].x, s[i].y - s[j].y);
      && (t[i].x - t[j].x) * h == (s[i].x - s[j].x) * (h + 2.0 * p.max)
      && (t[i].y - t[j].y) * h == (s[i].y - s[j].y) * (h + 2.0 * p.max)
  {
    hide Intersects;
    var h := p.hypot(s[i].x - s[j].x, s[i].y - s[j].y);
    Stretch(s[i].x - s[j].x, h, p.max);
    Stretch(s[i].y - s[j].y, h, p.max);
  }

  lemma Stretch(x: real, h: real, max: real)
    requires h != 0.0
    ensures (x + 2.0 * (x / h * max)) * h == x * (h + 2.0 * max)
  {
    var u := x / h;
    assert u * h == x;
    assert (x + 2.0 * (u * max)) * h == x * h + 2.0 * max * (u * h);
  }

  // ---------------------------------------------------------------------------
  // Conservation
  // ---------------------------------------------------------------------------

  function Sum(values: seq<real>): real {
    if values == [] then 0.0 else Sum(values[..|values| - 1]) + values[|values| - 1]
  }

  function Xs(s: seq<Label>): seq<real> { seq(|s|, i requires 0 <= i < |s| => s[i].x) }

  function Ys(s: seq<Label>): seq<real> { seq(|s|, i requires 0 <= i < |s| => s[i].y) }

  lemma {:induction false} SumUpdate(values: seq<real>, k: nat, v: real)
    requires k < |values|
    ensures Sum(values[k := v]) == Sum(values) - values[k] + v
  {
    var init := values[..|values| - 1];
    if k == |values| - 1 {
      assert values[k := v][..|values| - 1] == init;
    } else {
      assert values[k := v][..|values| - 1] == init[k := v];
      SumUpdate(init, k, v);
    }
  }

  /** What any sequence of pushes keeps: both sums, each label's identity and size, and position minus offset. */
  ghost predicate Conserved(s: seq<Label>, t: seq<Label>) {
    && |t| == |s| && Sum(Xs(t)) == Sum(Xs(s)) && Sum(Ys(t)) == Sum(Ys(s))
    && forall k :: 0 <= k < |s| ==> SameLabel(s[k], t[k])
  }

  predicate SameLabel(a: Label, b: Label) {
    && b.id == a.id && b.width == a.width && b.height == a.height
    && b.x - b.dx == a.x - a.dx && b.y - b.dy == a.y - a.dy
  }

  lemma PairConserves(p: Push, s: seq<Label>, i: nat, j: nat)
    requires i < j < |s|
    ensures Conserved(s, p.Pair(s, i, j))
  {
    var d := p.Shift(s[i], s[j]);
    hide Push.Shift;
    var t := p.Pair(s, i, j);
    assert Xs(t) == Xs(s)[i := s[i].x + d.0][j := s[j].x - d.0];
    SumUpdate(Xs(s), i, s[i].x + d.0);
    SumUpdate(Xs(s)[i := s[i].x + d.0], j, s[j].x - d.0);
    assert Ys(t) == Ys(s)[i := s[i].y + d.1][j := s[j].y - d.1];
    SumUpdate(Ys(s), i, s[i].y + d.1);
    SumUpdate(Ys(s)[i := s[i].y + d.1], j, s[j].y - d.1);
  }

  lemma ConservedTrans(s: seq<Label>, t: seq<Label>, u: seq<Label>)
    requires Conserved(s, t) && Conserved(t, u)
    ensures Conserved(s, u)
  {
    hide Sum, Xs, Ys;
    assert forall k :: 0 <= k < |s| ==> SameLabel(s[k], t[k]) && SameLabel(t[k], u[k]);
  }

  lemma NothingPushed(p: Push, s: seq<Label>, i: nat)
    requires i < |s|
    ensures Conserved(s, p.Row(s, i, i + 1))
  {
  }

  lemma RowStep(p: Push, s: seq<Label>, i: nat, j: nat)
    requires i + 1 < j <= |s|
    ensures p.Row(s, i, j) == p.Pair(p.Row(s, i, j - 1), i, j - 1)
  {
    hide Push.Pair;
  }

  lemma {:induction false} RowConserves(p: Push, s: seq<Label>, i: nat, j: nat)
    requires i < j <= |s|
    ensures Conserved(s, p.Row(s, i, j))
  {
    hide Conserved, Push.Pair, Push.Row, Push.Shift;
    if j == i + 1 {
      NothingPushed(p, s, i);
    } else {
      RowStep(p, s, i, j);
      RowConserves(p, s, i, j - 1);
      PairConserves(p, p.Row(s, i, j - 1), i, j - 1);
      ConservedTrans(s, p.Row(s, i, j - 1), p.Row(s, i, j));
    }
  }

  lemma ConservedSelf(s: seq<Label>)
    ensures Conserved(s, s)
  {
  }

  lemma RowsStep(p: Push, s: seq<Label>, i: nat)
    requires 0 < i <= |s|
    ensures p.Rows(s, i) == p.Row(p.Rows(s, i - 1), i - 1, |s|)
  {
    hide Push.Row;
  }

  lemma RowsNone(p: Push, s: seq<Label>)
    ensures p.Rows(s, 0) == s
  {
    hide Push.Row;
  }

  lemma {:induction false} RowsConserve(p: Push, s: seq<Label>, i: nat)
    requires i <= |s|
    ensures Conserved(s, p.Rows(s, i))
  {
    hide Conserved, Push.Row, Push.Rows, Push.Pair, Push.Shift;
    if i == 0 {
      ConservedSelf(s);
      RowsNone(p, s);
    } else {
      RowsStep(p, s, i);
      RowsConserve(p, s, i - 1);
      RowConserves(p, p.Rows(s, i - 1), i - 1, |s|);
      ConservedTrans(s, p.Rows(s, i - 1), p.Rows(s, i));
    }
  }

  /** For any labels and any number of passes. */
  lemma {:induction false} PassesConserve(p: Push, s: seq<Label>, n: nat)
    ensures Conserved(s, p.Passes(s, n))
  {
    hide Push.Rows;
    if n == 0 {
      ConservedSelf(s);
    } else {
      hide Conserved;
      PassesConserve(p, s, n - 1);
      RowsConserve(p, p.Passes(s, n - 1), |s|);
      ConservedTrans(s, p.Passes(s, n - 1), p.Passes(s, n));
    }
  }

  // ---------------------------------------------------------------------------
  // How far a label moves
  // ---------------------------------------------------------------------------

  /** Neither coordinate has moved by more than m pushes. */
  predicate Within(p: Push, a: Label, b: Label, m: nat) {
    Abs(b.x - a.x) <= m as real * Abs(p.max) && Abs(b.y - a.y) <= m as real * Abs(p.max)
  }

  lemma WithinAdd(p: Push, a: Label, b: Label, c: Label, m: nat, n: nat)
    requires Within(p, a, b, m) && Within(p, b, c, n)
    ensures Within(p, a, c, m + n)
  {
    hide Abs;
    Further(a.x, b.x, c.x, m as real, n as real, Abs(p.max));
    Further(a.y, b.y, c.y, m as real, n as real, Abs(p.max));
  }

  lemma Further(a: real, b: real, c: real, m: real, n: real, max: real)
    requires Abs(b - a) <= m * max && Abs(c - b) <= n * max
    ensures Abs(c - a) <= (m + n) * max
  {
    assert (m + n) * max == m * max + n * max;
  }

  lemma PairMoves(p: Push, s: seq<Label>, i: nat, j: nat, k: nat)
    requires IsLength(p.hypot) && i < j < |s| && k < |s|
    ensures Within(p, s[k], p.Pair(s, i, j)[k], if k == i || k == j then 1 else 0)
  {
    ShiftBound(p, s[i], s[j]);
    hide Push.Shift;
  }

  /** In a row, its own label is pushed once by each later label, and those once each. */
  lemma {:induction false} RowMoves(p: Push, s: seq<Label>, i: nat, j: nat, k: nat)
    requires IsLength(p.hypot) && i < j <= |s| && k < |s|
    ensures Within(p, s[k], p.Row(s, i, j)[k], if k == i then j - i - 1 else if i < k < j then 1 else 0)
  {
    hide Within, Push.Pair, IsLength;
    if j == i + 1 {
      StaysPut(p, s[k]);
    } else {
      var t := p.Row(s, i, j - 1);
      RowMoves(p, s, i, j - 1, k);
      PairMoves(p, t, i, j - 1, k);
      WithinAdd(p, s[k], t[k], p.Row(s, i, j)[k], if k == i then j - i - 2 else if i < k < j - 1 then 1 else 0,
                if k == i || k == j - 1 then 1 else 0);
    }
  }

  lemma StaysPut(p: Push, a: Label)
    ensures Within(p, a, a, 0)
  {
  }

  lemma {:induction false} RowsMove(p: Push, s: seq<Label>, i: nat, k: nat)
    requires IsLength(p.hypot) && i <= |s| && k < |s|
    ensures Within(p, s[k], p.Rows(s, i)[k], if k < i then |s| - 1 else i)
  {
    hide Within, Push.Row, IsLength;
    if i == 0 {
      StaysPut(p, s[k]);
    } else {
      var t := p.Rows(s, i - 1);
      RowsMove(p, s, i - 1, k);
      RowMoves(p, t, i - 1, |s|, k);
      WithinAdd(p, s[k], t[k], p.Rows(s, i)[k], if k < i - 1 then |s| - 1 else i - 1,
                if k == i - 1 then |s| - i else if i - 1 < k then 1 else 0);
    }
  }

  /** No coordinate moves more than passes * (n - 1) pushes. */
  lemma {:induction false} PassesMove(p: Push, s: seq<Label>, n: nat, k: nat)
    requires IsLength(p.hypot) && k < |s|
    ensures Within(p, s[k], p.Passes(s, n)[k], n * (|s| - 1))
  {
    hide Within, Push.Rows, IsLength;
    if n == 0 {
      StaysPut(p, s[k]);
    } else {
      var t := p.Passes(s, n - 1);
      PassesMove(p, s, n - 1, k);
      RowsMove(p, t, |s|, k);
      WithinAdd(p, s[k], t[k], p.Passes(s, n)[k], (n - 1) * (|s| - 1), |s| - 1);
      assert (n - 1) * (|s| - 1) + (|s| - 1) == n * (|s| - 1);
    }
  }
}
