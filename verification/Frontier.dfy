// Pareto frontiers of finite lists under any dominance relation.
module Frontier {
  import opened Ordering

  ghost predicate StrictPartial<T(!new)>(dom: (T, T) -> bool) {
    && (forall a :: !dom(a, a))
    && (forall a, b, c :: dom(a, b) && dom(b, c) ==> dom(a, c))
  }

  predicate Dominated<T(!new)>(dom: (T, T) -> bool, pool: seq<T>, x: T) {
    exists j :: 0 <= j < |pool| && dom(pool[j], x)
  }

  // The elements of s that nothing in the pool dominates, in order.
  function Undominated<T(!new)>(dom: (T, T) -> bool, pool: seq<T>, s: seq<T>): (r: seq<T>) {
    if s == [] then []
    else
      var last := s[|s| - 1];
      Undominated(dom, pool, s[..|s| - 1]) + if Dominated(dom, pool, last) then [] else [last]
  }

  lemma {:induction false} UndominatedMembers<T(!new)>(dom: (T, T) -> bool, pool: seq<T>, s: seq<T>, x: T)
    ensures x in Undominated(dom, pool, s) <==> x in s && !Dominated(dom, pool, x)
  {
    if s != [] {
      UndominatedMembers(dom, pool, s[..|s| - 1], x);
      assert s == s[..|s| - 1] + [s[|s| - 1]];
    }
  }

  lemma {:induction false} UndominatedCount<T(!new)>(dom: (T, T) -> bool, pool: seq<T>, s: seq<T>, x: T)
    ensures multiset(Undominated(dom, pool, s))[x] == if Dominated(dom, pool, x) then 0 else multiset(s)[x]
  {
    if s != [] {
      UndominatedCount(dom, pool, s[..|s| - 1], x);
      assert s == s[..|s| - 1] + [s[|s| - 1]];
    }
  }

  ghost function Dominators<T(!new)>(dom: (T, T) -> bool, s: seq<T>, x: T): set<T> {
    set y | y in s && dom(y, x)
  }

  // Going up from a dominated element ends at an undominated one.
  lemma {:induction false} SomeMaximal<T(!new)>(dom: (T, T) -> bool, s: seq<T>, x: T) returns (y: T)
    requires StrictPartial(dom) && Dominated(dom, s, x)
    ensures y in s && dom(y, x) && !Dominated(dom, s, y)
    decreases |Dominators(dom, s, x)|
  {
    var j :| 0 <= j < |s| && dom(s[j], x);
    y := s[j];
    if Dominated(dom, s, y) {
      assert y in Dominators(dom, s, x) && y !in Dominators(dom, s, y);
      assert Dominators(dom, s, y) <= Dominators(dom, s, x) - {y};
      Smaller(Dominators(dom, s, y), Dominators(dom, s, x), y);
      y := SomeMaximal(dom, s, y);
    }
  }

  lemma Smaller<T>(a: set<T>, b: set<T>, x: T)
    requires a <= b - {x} && x in b
    ensures |a| < |b|
  {
    Within(a, b - {x});
  }

  lemma {:induction false} Within<T>(a: set<T>, b: set<T>)
    requires a <= b
    ensures |a| <= |b|
    decreases a
  {
    if a != {} {
      var x :| x in a;
      Within(a - {x}, b - {x});
    }
  }

  // The frontier: what nothing in the list itself dominates.
  function Front<T(!new)>(dom: (T, T) -> bool, s: seq<T>): seq<T> {
    Undominated(dom, s, s)
  }

  // Soundness and completeness in one: an element is off the frontier exactly
  // when some frontier element dominates it.
  lemma FrontExactly<T(!new)>(dom: (T, T) -> bool, s: seq<T>, x: T)
    requires StrictPartial(dom) && x in s
    ensures x !in Front(dom, s) <==> exists y :: y in Front(dom, s) && dom(y, x)
  {
    UndominatedMembers(dom, s, s, x);
    if Dominated(dom, s, x) {
      var y := SomeMaximal(dom, s, x);
      UndominatedMembers(dom, s, s, y);
    } else {
      forall y | y in Front(dom, s) ensures !dom(y, x) {
        UndominatedMembers(dom, s, s, y);
      }
    }
  }

  lemma {:induction false} NothingDropped<T(!new)>(dom: (T, T) -> bool, pool: seq<T>, s: seq<T>)
    requires forall i :: 0 <= i < |s| ==> !Dominated(dom, pool, s[i])
    ensures Undominated(dom, pool, s) == s
  {
    if s != [] {
      NothingDropped(dom, pool, s[..|s| - 1]);
      assert s == s[..|s| - 1] + [s[|s| - 1]];
    }
  }

  // A list without dominated elements is its own frontier.
  lemma FrontOfFront<T(!new)>(dom: (T, T) -> bool, s: seq<T>, t: seq<T>)
    requires multiset(t) == multiset(Front(dom, s))
    ensures Front(dom, t) == t
  {
    forall i, j | 0 <= i < |t| && 0 <= j < |t| ensures !dom(t[j], t[i]) {
      assert t[i] in multiset(t) && t[j] in multiset(t);
      UndominatedMembers(dom, s, s, t[i]);
      UndominatedMembers(dom, s, s, t[j]);
    }
    NothingDropped(dom, t, t);
  }

  // The frontier as a multiset does not depend on the order of the list.
  lemma FrontPermutes<T(!new)>(dom: (T, T) -> bool, s: seq<T>, t: seq<T>)
    requires multiset(s) == multiset(t)
    ensures multiset(Front(dom, s)) == multiset(Front(dom, t))
  {
    forall x ensures multiset(Front(dom, s))[x] == multiset(Front(dom, t))[x] {
      UndominatedCount(dom, s, s, x);
      UndominatedCount(dom, t, t, x);
      SameDominated(dom, s, t, x);
    }
  }

  lemma SameDominated<T(!new)>(dom: (T, T) -> bool, s: seq<T>, t: seq<T>, x: T)
    requires multiset(s) == multiset(t)
    ensures Dominated(dom, s, x) <==> Dominated(dom, t, x)
  {
    forall j | 0 <= j < |s| ensures s[j] in t {
      assert s[j] in multiset(s) && s[j] in multiset(t);
    }
    forall j | 0 <= j < |t| ensures t[j] in s {
      assert t[j] in multiset(t) && t[j] in multiset(s);
    }
  }

  // ---- sorted lists ----

  // Sorting leaves a sorted list as it is.
  lemma {:induction false} SortOfSorted<T(!new)>(less: (T, T) -> bool, s: seq<T>)
    requires Sorted(less, s)
    ensures SortBy(less, s) == s
  {
    hide Insert;
    if s != [] {
      var front, last := s[..|s| - 1], s[|s| - 1];
      SortOfSorted(less, front);
      assert SortBy(less, s) == Insert(less, last, front);
      hide SortBy;
      InsertLast(less, last, front);
      assert s == front + [last];
    }
  }

  lemma {:induction false} InsertLast<T(!new)>(less: (T, T) -> bool, x: T, s: seq<T>)
    requires forall i :: 0 <= i < |s| ==> !less(x, s[i])
    ensures Insert(less, x, s) == s + [x]
  {
    if s != [] {
      InsertLast(less, x, s[1..]);
      assert s == [s[0]] + s[1..];
    }
  }

  // Two sorted arrangements of the same elements are equal when no two
  // different elements tie.
  lemma {:induction false} SortedUnique<T(!new)>(less: (T, T) -> bool, s: seq<T>, t: seq<T>)
    requires multiset(s) == multiset(t) && Sorted(less, s) && Sorted(less, t)
    requires forall x, y :: x in s && y in s && x != y ==> less(x, y) || less(y, x)
    ensures s == t
  {
    assert |s| == |multiset(s)| == |multiset(t)| == |t|;
    if s != [] {
      SameFirst(less, s, t);
      TailElements(s);
      TailElements(t);
      assert Sorted(less, s[1..]) && Sorted(less, t[1..]);
      hide Sorted;
      SortedUnique(less, s[1..], t[1..]);
    }
  }

  lemma SameFirst<T(!new)>(less: (T, T) -> bool, s: seq<T>, t: seq<T>)
    requires s != [] && t != [] && multiset(s) == multiset(t) && Sorted(less, s) && Sorted(less, t)
    requires forall x, y :: x in s && y in s && x != y ==> less(x, y) || less(y, x)
    ensures s[0] == t[0]
  {
    assert s[0] in multiset(s) && s[0] in multiset(t) && t[0] in multiset(t) && t[0] in multiset(s);
    var m :| 0 <= m < |s| && s[m] == t[0];
    var k :| 0 <= k < |t| && t[k] == s[0];
  }

  lemma TailElements<T>(s: seq<T>)
    requires s != []
    ensures s == [s[0]] + s[1..] && multiset(s[1..]) == multiset(s) - multiset{s[0]}
  {
    assert s == [s[0]] + s[1..];
  }
}
