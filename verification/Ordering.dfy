// Strict total orders, extremes of finite sets, and the order Python gives to
// strings and to tuples that end in a string.
module Ordering {

  ghost predicate StrictTotal<T(!new)>(less: (T, T) -> bool) {
    && (forall a :: !less(a, a))
    && (forall a, b :: a != b ==> less(a, b) || less(b, a))
    && (forall a, b, c :: less(a, b) && less(b, c) ==> less(a, c))
  }

  ghost predicate IsLeast<T(!new)>(less: (T, T) -> bool, m: T, S: set<T>) {
    m in S && forall x :: x in S && x != m ==> less(m, x)
  }

  ghost predicate IsGreatest<T(!new)>(less: (T, T) -> bool, m: T, S: set<T>) {
    m in S && forall x :: x in S && x != m ==> less(x, m)
  }

  lemma {:induction false} ExtremesExist<T(!new)>(less: (T, T) -> bool, S: set<T>)
    requires StrictTotal(less) && S != {}
    ensures exists m :: IsLeast(less, m, S)
    ensures exists m :: IsGreatest(less, m, S)
    decreases S
  {
    var x :| x in S;
    var rest := S - {x};
    if rest == {} {
      assert S == {x};
      assert IsLeast(less, x, S) && IsGreatest(less, x, S);
    } else {
      ExtremesExist(less, rest);
      var lo :| IsLeast(less, lo, rest);
      var hi :| IsGreatest(less, hi, rest);
      assert S == rest + {x};
      if less(x, lo) {
        assert IsLeast(less, x, S);
      } else {
        assert IsLeast(less, lo, S);
      }
      if less(hi, x) {
        assert IsGreatest(less, x, S);
      } else {
        assert IsGreatest(less, hi, S);
      }
    }
  }

  ghost function Least<T(!new)>(less: (T, T) -> bool, S: set<T>): (m: T)
    requires StrictTotal(less) && S != {}
    ensures IsLeast(less, m, S)
  {
    ExtremesExist(less, S);
    var m :| IsLeast(less, m, S);
    m
  }

  ghost function Greatest<T(!new)>(less: (T, T) -> bool, S: set<T>): (m: T)
    requires StrictTotal(less) && S != {}
    ensures IsGreatest(less, m, S)
  {
    ExtremesExist(less, S);
    var m :| IsGreatest(less, m, S);
    m
  }

  // String order: code unit by code unit, a proper prefix first.
  predicate StringLess(a: string, b: string) {
    b != "" && (a == "" || a[0] < b[0] || (a[0] == b[0] && StringLess(a[1..], b[1..])))
  }

  lemma {:induction false} StringLessIrreflexive(a: string)
    ensures !StringLess(a, a)
  {
    if a != "" {
      StringLessIrreflexive(a[1..]);
    }
  }

  lemma {:induction false} StringLessConnected(a: string, b: string)
    requires a != b
    ensures StringLess(a, b) || StringLess(b, a)
  {
    if a != "" && b != "" && a[0] == b[0] {
      assert a == [a[0]] + a[1..] && b == [b[0]] + b[1..];
      StringLessConnected(a[1..], b[1..]);
    }
  }

  lemma {:induction false} StringLessTransitive(a: string, b: string, c: string)
    requires StringLess(a, b) && StringLess(b, c)
    ensures StringLess(a, c)
  {
    if a != "" && a[0] == b[0] && b[0] == c[0] {
      StringLessTransitive(a[1..], b[1..], c[1..]);
    }
  }

  lemma StringLessIsStrictTotal()
    ensures StrictTotal(StringLess)
  {
    forall a: string ensures !StringLess(a, a) {
      StringLessIrreflexive(a);
    }
    forall a: string, b: string | a != b ensures StringLess(a, b) || StringLess(b, a) {
      StringLessConnected(a, b);
    }
    forall a, b, c | StringLess(a, b) && StringLess(b, c) ensures StringLess(a, c) {
      StringLessTransitive(a, b, c);
    }
  }

  // Up to the first difference the strings agree; there the first has ended or has
  // the smaller character.
  ghost predicate DiffersAt(a: string, b: string, i: nat) {
    i <= |a| && i < |b| && a[..i] == b[..i] && (i == |a| || a[i] < b[i])
  }

  lemma {:induction false} StringLessExactly(a: string, b: string)
    ensures StringLess(a, b) <==> exists i: nat :: DiffersAt(a, b, i)
  {
    if a == "" || b == "" || a[0] != b[0] {
      if StringLess(a, b) {
        assert DiffersAt(a, b, 0);
      }
      forall i: nat | DiffersAt(a, b, i) ensures StringLess(a, b) {
        if i > 0 {
          FirstAgrees(a, b, i);
        }
      }
    } else {
      StringLessExactly(a[1..], b[1..]);
      forall i: nat ensures DiffersAt(a, b, i + 1) == DiffersAt(a[1..], b[1..], i) {
        OneLater(a, b, i);
      }
      if StringLess(a, b) {
        var i: nat :| DiffersAt(a[1..], b[1..], i);
        assert DiffersAt(a, b, i + 1);
      }
      forall i: nat | DiffersAt(a, b, i) ensures StringLess(a, b) {
        assert i > 0 && DiffersAt(a[1..], b[1..], i - 1);
      }
    }
  }

  lemma FirstAgrees(a: string, b: string, i: nat)
    requires DiffersAt(a, b, i) && i > 0
    ensures a != "" && b != "" && a[0] == b[0]
  {
    assert a[..i][0] == b[..i][0];
  }

  lemma OneLater(a: string, b: string, i: nat)
    requires a != "" && b != "" && a[0] == b[0]
    ensures DiffersAt(a, b, i + 1) == DiffersAt(a[1..], b[1..], i)
  {
    if i < |a| && i < |b| {
      assert a[..i + 1] == [a[0]] + a[1..][..i] && b[..i + 1] == [b[0]] + b[1..][..i];
      assert a[..i + 1][1..] == a[1..][..i] && b[..i + 1][1..] == b[1..][..i];
    }
  }

  // Sorting by a key: the result Python's stable `sorted` gives.
  predicate Sorted<T(!new)>(less: (T, T) -> bool, s: seq<T>) {
    forall i, j :: 0 <= i < j < |s| ==> !less(s[j], s[i])
  }

  // x goes behind the elements it does not precede.
  function Insert<T(!new)>(less: (T, T) -> bool, x: T, s: seq<T>): (r: seq<T>)
    ensures multiset(r) == multiset(s) + multiset{x}
  {
    if s == [] then [x]
    else
      assert s == [s[0]] + s[1..];
      if less(x, s[0]) then [x] + s else [s[0]] + Insert(less, x, s[1..])
  }

  function SortBy<T(!new)>(less: (T, T) -> bool, s: seq<T>): (r: seq<T>)
    ensures multiset(r) == multiset(s)
  {
    if s == [] then [] else
    assert s == s[..|s| - 1] + [s[|s| - 1]];
    Insert(less, s[|s| - 1], SortBy(less, s[..|s| - 1]))
  }

  // A strict weak order: `less` compares keys that may tie.
  ghost predicate StrictWeak<T(!new)>(less: (T, T) -> bool) {
    && (forall a :: !less(a, a))
    && (forall a, b, c :: less(a, b) && less(b, c) ==> less(a, c))
    && (forall a, b, c :: !less(a, b) && !less(b, c) ==> !less(a, c))
  }

  lemma MembersOfSort<T(!new)>(less: (T, T) -> bool, s: seq<T>)
    ensures |SortBy(less, s)| == |s|
    ensures forall x :: x in SortBy(less, s) <==> x in s
  {
    assert |multiset(SortBy(less, s))| == |multiset(s)|;
    assert forall x :: x in SortBy(less, s) <==> x in multiset(SortBy(less, s));
    assert forall x :: x in s <==> x in multiset(s);
  }

  lemma {:induction false} InsertSorts<T(!new)>(less: (T, T) -> bool, x: T, s: seq<T>)
    requires StrictWeak(less) && Sorted(less, s)
    ensures Sorted(less, Insert(less, x, s))
  {
    if s != [] && !less(x, s[0]) {
      var rest := Insert(less, x, s[1..]);
      InsertSorts(less, x, s[1..]);
      forall i | 0 <= i < |rest| ensures !less(rest[i], s[0]) {
        assert rest[i] in multiset(rest);
        assert rest[i] == x || rest[i] in s[1..];
      }
    } else if s != [] {
      forall i | 0 <= i < |s| ensures !less(s[i], x) {
        assert i == 0 || !less(s[i], s[0]);
      }
    }
  }

  lemma {:induction false} SortBySorts<T(!new)>(less: (T, T) -> bool, s: seq<T>)
    requires StrictWeak(less)
    ensures Sorted(less, SortBy(less, s))
  {
    if s != [] {
      SortBySorts(less, s[..|s| - 1]);
      InsertSorts(less, s[|s| - 1], SortBy(less, s[..|s| - 1]));
    }
  }

  lemma TotalIsWeak<T(!new)>(less: (T, T) -> bool)
    requires StrictTotal(less)
    ensures StrictWeak(less) && StrictTotal((a, b) => less(b, a))
  {
  }

  ghost function Elements<T>(s: seq<T>): set<T> {
    set x | x in s
  }

  lemma ElementsOfAppend<T>(s: seq<T>, x: T)
    ensures Elements(s + [x]) == Elements(s) + {x}
  {
  }

  lemma ElementsOfSuffix<T>(s: seq<T>, i: nat)
    requires i < |s|
    ensures Elements(s[i..]) == {s[i]} + Elements(s[i + 1..])
    ensures (forall a, b :: 0 <= a < b < |s| ==> s[a] != s[b]) ==> s[i] !in s[i + 1..]
  {
    assert s[i..] == [s[i]] + s[i + 1..];
  }

  // In a sorted list each element is the least of what is left.
  lemma SortedLeast<T(!new)>(less: (T, T) -> bool, s: seq<T>, i: nat)
    requires StrictTotal(less) && Sorted(less, s) && i < |s|
    ensures IsLeast(less, s[i], Elements(s[i..]))
  {
    forall x | x in Elements(s[i..]) && x != s[i] ensures less(s[i], x) {
      var m :| 0 <= m < |s| - i && s[i..][m] == x;
      assert s[i + m] == x;
    }
  }

  // The elements of a set, in some order.
  method Listed<T(==)>(S: set<T>) returns (r: seq<T>)
    ensures |r| == |S| && forall x :: x in r <==> x in S
    ensures forall i, j :: 0 <= i < j < |r| ==> r[i] != r[j]
  {
    r := [];
    var rest := S;
    while rest != {}
      invariant rest <= S && |r| == |S| - |rest|
      invariant forall x :: x in r <==> x in S - rest
      invariant forall i, j :: 0 <= i < j < |r| ==> r[i] != r[j]
      decreases rest
    {
      var x :| x in rest;
      assert x !in r;
      r, rest := r + [x], rest - {x};
    }
  }
}
