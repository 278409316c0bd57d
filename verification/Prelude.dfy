/** Values shared by the other modules: options, string order, and sorting by a total order. */
module Prelude {

  datatype Option<+T> = None | Some(value: T)

  function Abs(x: real): real { if x < 0.0 then -x else x }

  // ---------------------------------------------------------------------------
  // Strings in code point order
  // ---------------------------------------------------------------------------

  predicate StrLe(a: string, b: string) {
    if a == [] then true
    else if b == [] then false
    else a[0] < b[0] || (a[0] == b[0] && StrLe(a[1..], b[1..]))
  }

  predicate StrLt(a: string, b: string) { StrLe(a, b) && a != b }

  lemma {:induction false} StrLeTotal(a: string, b: string)
    ensures StrLe(a, b) || StrLe(b, a)
    ensures StrLe(a, b) && StrLe(b, a) ==> a == b
  {
    if a != [] && b != [] && a[0] == b[0] {
      StrLeTotal(a[1..], b[1..]);
      assert a == [a[0]] + a[1..] && b == [b[0]] + b[1..];
    }
  }

  lemma {:induction false} StrLeTransitive(a: string, b: string, c: string)
    requires StrLe(a, b) && StrLe(b, c)
    ensures StrLe(a, c)
  {
    if a != [] && a[0] == b[0] && b[0] == c[0] {
      StrLeTransitive(a[1..], b[1..], c[1..]);
    }
  }

  /** The strings agree up to position n, where a ends or has the smaller character. */
  predicate SmallerAt(a: string, b: string, n: nat) {
    n <= |a| && n < |b| && a[..n] == b[..n] && (n == |a| || a[n] < b[n])
  }

  /** The order is that of a dictionary. */
  lemma {:induction false} StrLtExactly(a: string, b: string)
    ensures StrLt(a, b) <==> exists n: nat :: SmallerAt(a, b, n)
  {
    if a == [] {
      assert b != [] ==> SmallerAt(a, b, 0);
    } else if b == [] || a[0] != b[0] {
      assert b != [] && a[0] < b[0] ==> SmallerAt(a, b, 0);
      assert forall n: nat :: SmallerAt(a, b, n) ==> n == 0 || a[..n][0] == b[..n][0];
    } else {
      StrLtExactly(a[1..], b[1..]);
      assert a == [a[0]] + a[1..] && b == [b[0]] + b[1..];
      forall n: nat | SmallerAt(a[1..], b[1..], n) ensures SmallerAt(a, b, n + 1) {
        assert a[..n + 1] == [a[0]] + a[1..][..n] && b[..n + 1] == [b[0]] + b[1..][..n];
      }
      forall n: nat | SmallerAt(a, b, n) ensures n > 0 && SmallerAt(a[1..], b[1..], n - 1) {
        assert n > 0 ==> a[1..][..n - 1] == a[..n][1..] && b[1..][..n - 1] == b[..n][1..];
      }
    }
  }

  // ---------------------------------------------------------------------------
  // Stable sorting
  // ---------------------------------------------------------------------------

  ghost predicate TotalPreorder<T(!new)>(le: (T, T) -> bool) {
    && (forall x, y :: le(x, y) || le(y, x))
    && (forall x, y, z :: le(x, y) && le(y, z) ==> le(x, z))
  }

  ghost predicate Sorted<T>(le: (T, T) -> bool, s: seq<T>) {
    forall i, j :: 0 <= i < j < |s| ==> le(s[i], s[j])
  }

  function InsertSorted<T>(le: (T, T) -> bool, s: seq<T>, x: T): seq<T> {
    if s == [] then [x]
    else if le(s[|s| - 1], x) then s + [x]
    else InsertSorted(le, s[..|s| - 1], x) + [s[|s| - 1]]
  }

  function Sort<T>(le: (T, T) -> bool, s: seq<T>): seq<T> {
    if s == [] then []
    else InsertSorted(le, Sort(le, s[..|s| - 1]), s[|s| - 1])
  }

  lemma {:induction false} InsertSortedKeeps<T(!new)>(le: (T, T) -> bool, s: seq<T>, x: T)
    requires TotalPreorder(le) && Sorted(le, s)
    ensures Sorted(le, InsertSorted(le, s, x))
    ensures multiset(InsertSorted(le, s, x)) == multiset(s) + multiset{x}
  {
    if s == [] {
    } else if le(s[|s| - 1], x) {
      SortedSnoc(le, s, x);
    } else {
      var p, y := s[..|s| - 1], s[|s| - 1];
      assert s == p + [y];
      InsertSortedKeeps(le, p, x);
      var r := InsertSorted(le, p, x);
      forall z | z in r ensures le(z, y) {
        assert z in multiset(r);
        assert z in p || z == x;
      }
      SortedAbove(le, r, y);
    }
  }

  lemma SortedAbove<T>(le: (T, T) -> bool, s: seq<T>, x: T)
    requires Sorted(le, s) && forall z :: z in s ==> le(z, x)
    ensures Sorted(le, s + [x])
  {
  }

  lemma SortedSnoc<T(!new)>(le: (T, T) -> bool, s: seq<T>, x: T)
    requires TotalPreorder(le) && Sorted(le, s) && s != [] && le(s[|s| - 1], x)
    ensures Sorted(le, s + [x])
  {
    forall z | z in s ensures le(z, x) {
      LastIsLargest(le, s, z);
    }
    SortedAbove(le, s, x);
  }

  lemma {:induction false} SortCorrect<T(!new)>(le: (T, T) -> bool, s: seq<T>)
    requires TotalPreorder(le)
    ensures Sorted(le, Sort(le, s))
    ensures multiset(Sort(le, s)) == multiset(s)
  {
    if s == [] {
    } else {
      var p := s[..|s| - 1];
      assert s == p + [s[|s| - 1]];
      SortCorrect(le, p);
      InsertSortedKeeps(le, Sort(le, p), s[|s| - 1]);
    }
  }

  lemma SortMembers<T(!new)>(le: (T, T) -> bool, s: seq<T>)
    requires TotalPreorder(le)
    ensures |Sort(le, s)| == |s|
    ensures forall x :: x in Sort(le, s) <==> x in s
  {
    SortCorrect(le, s);
    assert |multiset(Sort(le, s))| == |multiset(s)|;
    forall x ensures x in Sort(le, s) <==> x in s {
      assert x in multiset(Sort(le, s)) <==> x in multiset(s);
    }
  }

  /** A new largest element goes to the end and disturbs nothing. */
  lemma SortSnocLargest<T(!new)>(le: (T, T) -> bool, s: seq<T>, x: T)
    requires TotalPreorder(le)
    requires forall y :: y in s ==> le(y, x)
    ensures Sort(le, s + [x]) == Sort(le, s) + [x]
  {
    SortMembers(le, s);
    assert (s + [x])[..|s|] == s;
    var t := Sort(le, s);
    if t != [] {
      assert t[|t| - 1] in t;
    }
  }

  lemma {:induction false} SortOfSorted<T(!new)>(le: (T, T) -> bool, s: seq<T>)
    requires TotalPreorder(le) && Sorted(le, s)
    ensures Sort(le, s) == s
  {
    if s == [] {
    } else {
      var p := s[..|s| - 1];
      assert s == p + [s[|s| - 1]];
      SortOfSorted(le, p);
      SortSnocLargest(le, p, s[|s| - 1]);
    }
  }

  lemma LastIsLargest<T>(le: (T, T) -> bool, s: seq<T>, x: T)
    requires Sorted(le, s) && x in s
    ensures x == s[|s| - 1] || le(x, s[|s| - 1])
  {
    var i :| 0 <= i < |s| && s[i] == x;
  }

  lemma SameBag<T>(s: seq<T>, t: seq<T>)
    requires multiset(s) == multiset(t)
    ensures |s| == |t|
    ensures forall x :: x in s <==> x in t
  {
    assert |multiset(s)| == |multiset(t)|;
    forall x ensures x in s <==> x in t {
      assert x in multiset(s) <==> x in multiset(t);
    }
  }

  lemma DropLastOfBag<T>(s: seq<T>)
    requires s != []
    ensures multiset(s[..|s| - 1]) == multiset(s) - multiset{s[|s| - 1]}
  {
    assert s == s[..|s| - 1] + [s[|s| - 1]];
  }

  ghost predicate TiesAreEqual<T>(le: (T, T) -> bool, s: seq<T>) {
    forall i, j :: 0 <= i < |s| && 0 <= j < |s| && le(s[i], s[j]) && le(s[j], s[i]) ==> s[i] == s[j]
  }

  lemma SameLargest<T>(le: (T, T) -> bool, s: seq<T>, t: seq<T>)
    requires Sorted(le, s) && Sorted(le, t) && multiset(s) == multiset(t)
    requires TiesAreEqual(le, s) && s != []
    ensures |s| == |t| && s[|s| - 1] == t[|t| - 1]
  {
    SameBag(s, t);
    var x, y := s[|s| - 1], t[|t| - 1];
    LastIsLargest(le, t, x);
    LastIsLargest(le, s, y);
    assert y in s;
  }

  /** Where ties are equal elements, a bag has one sorted listing. */
  lemma {:induction false} SortedListingUnique<T(!new)>(le: (T, T) -> bool, s: seq<T>, t: seq<T>)
    requires Sorted(le, s) && Sorted(le, t) && multiset(s) == multiset(t)
    requires TiesAreEqual(le, s)
    ensures s == t
    decreases |s|
  {
    SameBag(s, t);
    if s == [] {
    } else {
      SameLargest(le, s, t);
      var p, q := s[..|s| - 1], t[..|t| - 1];
      assert multiset(p) == multiset(q) by {
        DropLastOfBag(s);
        DropLastOfBag(t);
      }
      SortedListingUnique(le, p, q);
      assert s == p + [s[|s| - 1]] && t == q + [t[|t| - 1]];
    }
  }
}
