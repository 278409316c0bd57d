/** Which labels overlap, and what a push does to them. */
module LabelOverlap {
  import opened Prelude
  import opened LabelCollision

  /** The point lies inside the label's box, centred at its position. */
  predicate Inside(l: Label, x: real, y: real) {
    && l.x - l.width / 2.0 < x < l.x + l.width / 2.0
    && l.y - l.height / 2.0 < y < l.y + l.height / 2.0
  }

  /** A point in the overlap of two intervals, given by centre and width, where there is one. */
  function Shared(a: real, wide: real, b: real, width: real): real {
    var left := if a - wide / 2.0 < b - width / 2.0 then b - width / 2.0 else a - wide / 2.0;
    var right := if a + wide / 2.0 < b + width / 2.0 then a + wide / 2.0 else b + width / 2.0;
    (left + right) / 2.0
  }

  lemma SharedIsInBoth(a: real, wide: real, b: real, width: real)
    requires wide > 0.0 && width > 0.0 && Abs(a - b) * 2.0 < wide + width
    ensures var x := Shared(a, wide, b, width);
      a - wide / 2.0 < x < a + wide / 2.0 && b - width / 2.0 < x < b + width / 2.0
  {
  }

  /** Two labels of positive size intersect exactly when some point lies inside both. */
  lemma IntersectsExactly(a: Label, b: Label)
    requires a.width > 0.0 && a.height > 0.0 && b.width > 0.0 && b.height > 0.0
    ensures Intersects(a, b) <==> exists x, y :: Inside(a, x, y) && Inside(b, x, y)
  {
    if Intersects(a, b) {
      SharedIsInBoth(a.x, a.width, b.x, b.width);
      SharedIsInBoth(a.y, a.height, b.y, b.height);
      hide Shared, Intersects, Abs;
      assert Inside(a, Shared(a.x, a.width, b.x, b.width), Shared(a.y, a.height, b.y, b.height));
    }
  }

  /** What one push does: the pair moves in opposite directions, the offsets record it, and nobody else moves. */
  lemma PushExactly(p: Push, s: seq<Label>, i: nat, j: nat)
    requires i < j < |s| && Intersects(s[i], s[j]) && p.hypot(s[i].x - s[j].x, s[i].y - s[j].y) != 0.0
    ensures var t := p.Pair(s, i, j); var h := p.hypot(s[i].x - s[j].x, s[i].y - s[j].y);
      && |t| == |s| && (forall k :: 0 <= k < |s| && k != i && k != j ==> t[k] == s[k])
      && (t[i].x - s[i].x) * h == (s[i].x - s[j].x) * p.max && (t[i].y - s[i].y) * h == (s[i].y - s[j].y) * p.max
      && t[i].dx - s[i].dx == t[i].x - s[i].x == -(t[j].x - s[j].x) == -(t[j].dx - s[j].dx)
      && t[i].dy - s[i].dy == t[i].y - s[i].y == -(t[j].y - s[j].y) == -(t[j].dy - s[j].dy)
  {
    hide Intersects;
    var h := p.hypot(s[i].x - s[j].x, s[i].y - s[j].y);
    AlongTimesLength(s[i].x - s[j].x, h, p.max);
    AlongTimesLength(s[i].y - s[j].y, h, p.max);
    hide Along;
  }

  lemma AlongTimesLength(x: real, h: real, max: real)
    requires h != 0.0
    ensures Along(x, h, max) * h == x * max
  {
    var u := x / h;
    assert u * h == x;
    assert u * max * h == u * h * max;
  }

  /** Labels that do not overlap, or lie exactly on each other, are left where they are. */
  lemma ApartPairStays(p: Push, s: seq<Label>, i: nat, j: nat)
    requires i < j < |s| && (Intersects(s[i], s[j]) ==> s[i].x == s[j].x && s[i].y == s[j].y)
    ensures p.Pair(s, i, j) == s
  {
    hide Intersects, Along;
    AlongNothing(p.hypot(s[i].x - s[j].x, s[i].y - s[j].y), p.max);
    assert s[i].Moved(0.0, 0.0) == s[i] && s[j].Moved(-0.0, -0.0) == s[j];
  }

  lemma AlongNothing(h: real, max: real)
    ensures Along(0.0, h, max) == 0.0
  {
    var length := if h == 0.0 then 1.0 else h;
    assert 0.0 / length == 0.0;
  }

  /** No two labels overlap, except exactly on each other. */
  ghost predicate Settled(s: seq<Label>) {
    forall i, j :: 0 <= i < j < |s| ==> (Intersects(s[i], s[j]) ==> s[i].x == s[j].x && s[i].y == s[j].y)
  }

  lemma {:induction false} SettledRowStays(p: Push, s: seq<Label>, i: nat, j: nat)
    requires Settled(s) && i < j <= |s|
    ensures p.Row(s, i, j) == s
  {
    hide Push.Pair, Intersects;
    if j > i + 1 {
      SettledRowStays(p, s, i, j - 1);
      ApartPairStays(p, s, i, j - 1);
    }
  }

  lemma {:induction false} SettledRowsStay(p: Push, s: seq<Label>, i: nat)
    requires Settled(s) && i <= |s|
    ensures p.Rows(s, i) == s
  {
    hide Push.Row, Settled;
    if i > 0 {
      SettledRowsStay(p, s, i - 1);
      SettledRowStays(p, s, i - 1, |s|);
    }
  }

  /** Labels that do not overlap stay where they are, whatever the number of passes. */
  lemma {:induction false} SettledStays(p: Push, s: seq<Label>, n: nat)
    requires Settled(s)
    ensures p.Passes(s, n) == s
  {
    hide Push.Rows, Settled;
    if n > 0 {
      SettledStays(p, s, n - 1);
      SettledRowsStay(p, s, |s|);
    }
  }

  /** A label starts at its own place and with its own offset, which is zero where none is recorded. */
  lemma StartsExactly(labels: seq<LabelBox>, i: nat)
    requires i < |labels|
    ensures var l, was := Starts(labels)[i], labels[i];
      && |Starts(labels)| == |labels|
      && l.id == was.id && l.x == was.x && l.y == was.y && l.width == was.width && l.height == was.height
      && l.dx == (if was.dx == None then 0.0 else was.dx.value)
      && l.dy == (if was.dy == None then 0.0 else was.dy.value)
  {
  }
}
