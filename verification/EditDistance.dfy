/** Title search: the two-row edit distance of `_levenshtein`. */
module EditDistance {

  // ---------------------------------------------------------------------------
  // What the distance means: shortest scripts of single-character edits
  // ---------------------------------------------------------------------------

  /** One edit, at any position of the string it is applied to. */
  datatype Edit =
    | Insert(at: nat, c: char)
    | Delete(at: nat)
    | Replace(at: nat, c: char)

  predicate Applicable(e: Edit, s: string) {
    match e
    case Insert(at, _) => at <= |s|
    case Delete(at) => at < |s|
    case Replace(at, _) => at < |s|
  }

  function Apply(e: Edit, s: string): string
    requires Applicable(e, s)
  {
    match e
    case Insert(at, c) => s[..at] + [c] + s[at..]
    case Delete(at) => s[..at] + s[at + 1..]
    case Replace(at, c) => s[at := c]
  }

  /** Carrying out `script` from left to right turns `a` into `b`. */
  predicate Transforms(script: seq<Edit>, a: string, b: string) {
    if script == [] then a == b
    else Applicable(script[0], a) && Transforms(script[1..], Apply(script[0], a), b)
  }

  ghost predicate IsShortestLength(a: string, b: string, d: nat) {
    && (exists script :: Transforms(script, a, b) && |script| == d)
    && (forall script :: Transforms(script, a, b) ==> d <= |script|)
  }

  // ---------------------------------------------------------------------------
  // The recurrence the table is filled with
  // ---------------------------------------------------------------------------

  function Min(x: nat, y: nat): nat { if x <= y then x else y }

  function Init(s: string): string
    requires s != []
  {
    s[..|s| - 1]
  }

  function Last(s: string): char
    requires s != []
  {
    s[|s| - 1]
  }

  function Dist(a: string, b: string): nat
    decreases |a| + |b|
  {
    if a == [] then |b|
    else if b == [] then |a|
    else Min(Min(Dist(Init(a), b) + 1, Dist(a, Init(b)) + 1),
             Dist(Init(a), Init(b)) + if Last(a) == Last(b) then 0 else 1)
  }

  // ---------------------------------------------------------------------------
  // No script is shorter than Dist
  // ---------------------------------------------------------------------------

  lemma {:induction false} DropLastCostsOne(s: string, c: char, b: string)
    ensures Dist(s, b) <= Dist(s + [c], b) + 1
    decreases |b|
  {
    var t := s + [c];
    if b == [] {
    } else {
      assert Init(t) == s;
      DropLastCostsOne(s, c, Init(b));
    }
  }

  lemma {:induction false} ReplaceLastCostsOne(p: string, x: char, y: char, b: string)
    ensures Dist(p + [x], b) <= Dist(p + [y], b) + 1
    decreases |b|
  {
    if b == [] {
    } else {
      assert Init(p + [x]) == p && Init(p + [y]) == p;
      ReplaceLastCostsOne(p, x, y, Init(b));
    }
  }

  /** An edit before the last character is an edit of the prefix. */
  lemma EditOfPrefix(e: Edit, s: string)
    requires Applicable(e, s)
    requires s != [] && Applicable(e, Init(s))
    requires e.Insert? ==> e.at < |s|
    ensures Apply(e, s) == Apply(e, Init(s)) + [Last(s)]
  {
    var p := Init(s);
    match e
    case Insert(at, c) =>
      assert s[..at] == p[..at] && s[at..] == p[at..] + [Last(s)];
    case Delete(at) =>
      assert s[..at] == p[..at] && s[at + 1..] == p[at + 1..] + [Last(s)];
    case Replace(at, c) =>
      assert s[at := c] == p[at := c] + [Last(s)];
  }

  lemma UnderCommonLast(s: string, t: string, x: char, b: string)
    requires b != []
    requires Dist(s, b) <= Dist(t, b) + 1
    requires Dist(s + [x], Init(b)) <= Dist(t + [x], Init(b)) + 1
    requires Dist(s, Init(b)) <= Dist(t, Init(b)) + 1
    ensures Dist(s + [x], b) <= Dist(t + [x], b) + 1
  {
    assert Init(s + [x]) == s && Init(t + [x]) == t;
  }

  /** Undoing one edit, wherever it is, costs at most one more step. */
  lemma {:induction false} EditCostsOne(e: Edit, s: string, b: string)
    requires Applicable(e, s)
    ensures Dist(s, b) <= Dist(Apply(e, s), b) + 1
    decreases |s| + |b|, 1
  {
    if e.Insert? && e.at == |s| {
      assert Apply(e, s) == s + [e.c];
      DropLastCostsOne(s, e.c, b);
    } else if e.Delete? && e.at == |s| - 1 {
      assert Apply(e, s) == Init(s);
      AddLastCostsOne(s, b);
    } else if e.Replace? && e.at == |s| - 1 {
      assert s == Init(s) + [Last(s)] && Apply(e, s) == Init(s) + [e.c];
      ReplaceLastCostsOne(Init(s), Last(s), e.c, b);
    } else {
      EditOfPrefixCostsOne(e, s, b);
    }
  }

  lemma {:induction false} EditOfPrefixCostsOne(e: Edit, s: string, b: string)
    requires Applicable(e, s)
    requires s != [] && Applicable(e, Init(s))
    requires e.Insert? ==> e.at < |s|
    ensures Dist(s, b) <= Dist(Apply(e, s), b) + 1
    decreases |s| + |b|, 0
  {
    if b != [] {
      var p := Init(s);
      assert p + [Last(s)] == s;
      EditOfPrefix(e, s);
      EditCostsOne(e, p, b);
      EditCostsOne(e, s, Init(b));
      EditCostsOne(e, p, Init(b));
      UnderCommonLast(p, Apply(e, p), Last(s), b);
    }
  }

  lemma AddLastCostsOne(s: string, b: string)
    requires s != []
    ensures Dist(s, b) <= Dist(Init(s), b) + 1
  {
  }

  lemma {:induction false} ScriptsAreNotShorter(script: seq<Edit>, a: string, b: string)
    requires Transforms(script, a, b)
    ensures Dist(a, b) <= |script|
    decreases |script|
  {
    if script == [] {
      SelfDistance(a);
    } else {
      ScriptsAreNotShorter(script[1..], Apply(script[0], a), b);
      EditCostsOne(script[0], a, b);
    }
  }

  lemma {:induction false} SelfDistance(a: string)
    ensures Dist(a, a) == 0
  {
    if a == [] {
    } else {
      SelfDistance(Init(a));
    }
  }

  // ---------------------------------------------------------------------------
  // Some script is as short as Dist
  // ---------------------------------------------------------------------------

  lemma {:induction false} TransformsThen(s1: seq<Edit>, s2: seq<Edit>, a: string, b: string, c: string)
    requires Transforms(s1, a, b) && Transforms(s2, b, c)
    ensures Transforms(s1 + s2, a, c)
    decreases |s1|
  {
    if s1 == [] {
      assert s1 + s2 == s2;
    } else {
      TransformsThen(s1[1..], s2, Apply(s1[0], a), b, c);
      assert (s1 + s2)[1..] == s1[1..] + s2;
    }
  }

  /** Edits of a prefix leave the character after it alone. */
  lemma {:induction false} TransformsUnderLast(script: seq<Edit>, p: string, q: string, x: char)
    requires Transforms(script, p, q)
    ensures Transforms(script, p + [x], q + [x])
    decreases |script|
  {
    if script == [] {
    } else {
      assert Apply(script[0], p + [x]) == Apply(script[0], p) + [x];
      TransformsUnderLast(script[1..], Apply(script[0], p), q, x);
    }
  }

  lemma {:induction false} OneEdit(e: Edit, a: string)
    requires Applicable(e, a)
    ensures Transforms([e], a, Apply(e, a))
  {
    assert [e][1..] == [];
  }

  lemma ThenEdit(script: seq<Edit>, e: Edit, a: string, b: string)
    requires Transforms(script, a, b) && Applicable(e, b)
    ensures Transforms(script + [e], a, Apply(e, b))
  {
    hide Transforms, Apply, Applicable;
    OneEdit(e, b);
    TransformsThen(script, [e], a, b, Apply(e, b));
  }

  lemma DeleteLastThen(script: seq<Edit>, a: string, b: string)
    requires a != [] && Transforms(script, Init(a), b)
    ensures Transforms([Delete(|a| - 1)] + script, a, b)
  {
    hide Transforms;
    var e := Delete(|a| - 1);
    assert Apply(e, a) == Init(a);
    OneEdit(e, a);
    TransformsThen([e], script, a, Init(a), b);
  }

  lemma ThenInsertLast(script: seq<Edit>, a: string, b: string)
    requires b != [] && Transforms(script, a, Init(b))
    ensures Transforms(script + [Insert(|b| - 1, Last(b))], a, b)
  {
    hide Transforms;
    var e := Insert(|b| - 1, Last(b));
    assert Apply(e, Init(b)) == b;
    ThenEdit(script, e, a, Init(b));
  }

  lemma ThenFixLast(script: seq<Edit>, a: string, b: string)
    requires a != [] && b != [] && Transforms(script, Init(a), Init(b))
    ensures Last(a) == Last(b) ==> Transforms(script, a, b)
    ensures Transforms(script + [Replace(|b| - 1, Last(b))], a, b)
  {
    hide Transforms;
    TransformsUnderLast(script, Init(a), Init(b), Last(a));
    assert Init(a) + [Last(a)] == a;
    var mid := Init(b) + [Last(a)];
    assert Last(a) == Last(b) ==> mid == b;
    var e := Replace(|b| - 1, Last(b));
    assert Apply(e, mid) == b;
    ThenEdit(script, e, a, mid);
  }

  lemma {:induction false} ScriptExists(a: string, b: string) returns (script: seq<Edit>)
    ensures Transforms(script, a, b) && |script| == Dist(a, b)
    decreases |a| + |b|
  {
    if a == [] && b == [] {
      script := [];
    } else if b == [] || (a != [] && Dist(a, b) == Dist(Init(a), b) + 1) {
      script := ScriptExists(Init(a), b);
      DeleteLastThen(script, a, b);
      script := [Delete(|a| - 1)] + script;
    } else if a == [] || Dist(a, b) == Dist(a, Init(b)) + 1 {
      script := ScriptExists(a, Init(b));
      ThenInsertLast(script, a, b);
      script := script + [Insert(|b| - 1, Last(b))];
    } else {
      script := ScriptExists(Init(a), Init(b));
      ThenFixLast(script, a, b);
      if Last(a) != Last(b) {
        script := script + [Replace(|b| - 1, Last(b))];
      }
    }
  }

  lemma DistIsShortest(a: string, b: string)
    ensures IsShortestLength(a, b, Dist(a, b))
  {
    var script := ScriptExists(a, b);
    forall s | Transforms(s, a, b) ensures Dist(a, b) <= |s| {
      ScriptsAreNotShorter(s, a, b);
    }
  }

  // ---------------------------------------------------------------------------
  // The method of the source
  // ---------------------------------------------------------------------------

  lemma DistStep(a: string, b: string)
    requires a != [] && b != []
    ensures Dist(a, b) == Min(Min(Dist(Init(a), b) + 1, Dist(a, Init(b)) + 1),
                              Dist(Init(a), Init(b)) + if Last(a) == Last(b) then 0 else 1)
  {
    hide Init, Last, Min;
  }

  /** The cell (i, j) of the table from its three neighbours. */
  lemma Cell(a: string, b: string, i: nat, j: nat)
    requires 0 < i <= |a| && 0 < j <= |b|
    ensures Dist(a[..i], b[..j])
         == Min(Min(Dist(a[..i - 1], b[..j]) + 1, Dist(a[..i], b[..j - 1]) + 1),
                Dist(a[..i - 1], b[..j - 1]) + if a[i - 1] == b[j - 1] then 0 else 1)
  {
    hide Dist;
    assert Init(a[..i]) == a[..i - 1] && Init(b[..j]) == b[..j - 1];
    DistStep(a[..i], b[..j]);
  }

  /** Row i of the table, up to column j. */
  ghost predicate IsRow(row: seq<nat>, a: string, b: string, i: nat, j: nat)
    requires i <= |a| && j <= |b|
  {
    && |row| == j + 1
    && forall k :: 0 <= k <= j ==> row[k] == Dist(a[..i], b[..k])
  }

  lemma FirstRow(a: string, b: string)
    ensures IsRow(seq(|b| + 1, j => j), a, b, 0, |b|)
  {
    forall k | 0 <= k <= |b| ensures k == Dist(a[..0], b[..k]) {
      assert a[..0] == [];
    }
  }

  lemma FirstColumn(a: string, b: string, i: nat)
    requires i <= |a|
    ensures IsRow([i], a, b, i, 0)
  {
    assert b[..0] == [];
  }

  lemma RowLength(row: seq<nat>, a: string, b: string, i: nat, j: nat)
    requires i <= |a| && j <= |b| && IsRow(row, a, b, i, j)
    ensures |row| == j + 1 && row[j] == Dist(a[..i], b[..j])
  {
  }

  lemma EmptyDist(a: string, b: string)
    ensures a == [] ==> Dist(a, b) == |b|
    ensures b == [] ==> Dist(a, b) == |a|
  {
  }

  lemma NextCell(previous: seq<nat>, current: seq<nat>, a: string, b: string, i: nat, j: nat)
    requires 0 < i <= |a| && 0 < j <= |b|
    requires IsRow(previous, a, b, i - 1, |b|) && IsRow(current, a, b, i, j - 1)
    ensures |previous| == |b| + 1 && |current| == j
    ensures IsRow(current + [Min(Min(previous[j] + 1, current[j - 1] + 1),
                                 previous[j - 1] + if a[i - 1] == b[j - 1] then 0 else 1)], a, b, i, j)
  {
    hide Dist;
    Cell(a, b, i, j);
  }

  /** The number returned is the length of a shortest edit script from a to b. */
  method Levenshtein(a: string, b: string) returns (d: nat)
    ensures IsShortestLength(a, b, d)
  {
    hide Dist, IsShortestLength, IsRow;
    DistIsShortest(a, b);
    EmptyDist(a, b);
    if a == b {
      SelfDistance(a);
      return 0;
    }
    if a == [] {
      return |b|;
    }
    if b == [] {
      return |a|;
    }
    var previous: seq<nat> := seq(|b| + 1, j => j);
    FirstRow(a, b);
    for i := 1 to |a| + 1
      invariant IsRow(previous, a, b, i - 1, |b|)
    {
      var current: seq<nat> := [i];
      FirstColumn(a, b, i);
      for j := 1 to |b| + 1
        invariant IsRow(current, a, b, i, j - 1)
      {
        RowLength(previous, a, b, i - 1, |b|);
        RowLength(current, a, b, i, j - 1);
        NextCell(previous, current, a, b, i, j);
        current := current
          + [Min(Min(previous[j] + 1, current[j - 1] + 1),
                 previous[j - 1] + if a[i - 1] == b[j - 1] then 0 else 1)];
      }
      previous := current;
    }
    RowLength(previous, a, b, |a|, |b|);
    assert a[..|a|] == a && b[..|b|] == b;
    return previous[|b|];
  }

  // ---------------------------------------------------------------------------
  // Consequences for every number the method can return
  // ---------------------------------------------------------------------------

  lemma ShortestLengthIsDist(a: string, b: string, d: nat)
    requires IsShortestLength(a, b, d)
    ensures d == Dist(a, b)
  {
    DistIsShortest(a, b);
    var s :| Transforms(s, a, b) && |s| == d;
    ScriptsAreNotShorter(s, a, b);
    var script := ScriptExists(a, b);
  }

  lemma ZeroOnlyWhenEqual(a: string, b: string, d: nat)
    requires IsShortestLength(a, b, d)
    ensures d == 0 <==> a == b
  {
    ShortestLengthIsDist(a, b, d);
    if a == b { SelfDistance(a); }
    if d == 0 {
      var script := ScriptExists(a, b);
    }
  }

  lemma {:induction false} DistSymmetric(a: string, b: string)
    ensures Dist(a, b) == Dist(b, a)
    decreases |a| + |b|
  {
    if a != [] && b != [] {
      DistSymmetric(Init(a), b);
      DistSymmetric(a, Init(b));
      DistSymmetric(Init(a), Init(b));
    }
  }

  lemma {:induction false} Symmetric(a: string, b: string, d: nat)
    ensures IsShortestLength(a, b, d) <==> IsShortestLength(b, a, d)
  {
    hide IsShortestLength, Dist;
    DistSymmetric(a, b);
    DistIsShortest(a, b);
    DistIsShortest(b, a);
    if IsShortestLength(a, b, d) { ShortestLengthIsDist(a, b, d); }
    if IsShortestLength(b, a, d) { ShortestLengthIsDist(b, a, d); }
  }

  lemma {:induction false} DistTriangle(a: string, b: string, c: string)
    ensures Dist(a, c) <= Dist(a, b) + Dist(b, c)
  {
    hide Dist, Transforms;
    var s1 := ScriptExists(a, b);
    var s2 := ScriptExists(b, c);
    TransformsThen(s1, s2, a, b, c);
    ScriptsAreNotShorter(s1 + s2, a, c);
  }

  lemma {:induction false} Triangle(a: string, b: string, c: string, ab: nat, bc: nat, ac: nat)
    ensures IsShortestLength(a, b, ab) && IsShortestLength(b, c, bc) && IsShortestLength(a, c, ac) ==> ac <= ab + bc
  {
    hide IsShortestLength, Dist;
    if IsShortestLength(a, b, ab) && IsShortestLength(b, c, bc) && IsShortestLength(a, c, ac) {
      ShortestLengthIsDist(a, b, ab);
      ShortestLengthIsDist(b, c, bc);
      ShortestLengthIsDist(a, c, ac);
      DistTriangle(a, b, c);
    }
  }

  lemma {:induction false} DistBetween(a: string, b: string)
    ensures |a| - |b| <= Dist(a, b) && |b| - |a| <= Dist(a, b)
    ensures Dist(a, b) <= if |a| < |b| then |b| else |a|
    decreases |a| + |b|
  {
    if a != [] && b != [] {
      DistBetween(Init(a), b);
      DistBetween(a, Init(b));
      DistBetween(Init(a), Init(b));
    }
  }

  lemma BetweenLengthDifferenceAndLongerLength(a: string, b: string, d: nat)
    requires IsShortestLength(a, b, d)
    ensures |a| - |b| <= d && |b| - |a| <= d
    ensures d <= |a| || d <= |b|
  {
    ShortestLengthIsDist(a, b, d);
    DistBetween(a, b);
  }
}
