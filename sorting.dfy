/** Python's `sorted(...)`, which is stable: elements that compare equal keep
    the order they had in the input. It is modelled as an insertion sort over a
    relation `le`, where `le(a, b)` means "`a` may stay in front of `b`". */
module Sorting {

  ghost predicate TotalPreorder<T(!new)>(le: (T, T) -> bool) {
    && (forall a, b :: le(a, b) || le(b, a))
    && (forall a, b, c :: le(a, b) && le(b, c) ==> le(a, c))
  }

  ghost predicate Sorted<T>(s: seq<T>, le: (T, T) -> bool) {
    forall i, j :: 0 <= i < j < |s| ==> le(s[i], s[j])
  }

  /** Puts `x` behind every element of `s` that may stay in front of it. */
  function Insert<T>(s: seq<T>, x: T, le: (T, T) -> bool): (r: seq<T>)
    ensures |r| == |s| + 1
    ensures multiset(r) == multiset(s) + multiset{x}
  {
    if s == [] then [x]
    else if le(s[0], x) then
      assert s == [s[0]] + s[1..];
      [s[0]] + Insert(s[1..], x, le)
    else [x] + s
  }

  /** `sorted(s)`: each element in turn is inserted behind its predecessors' equals. */
  function SortBy<T>(s: seq<T>, le: (T, T) -> bool): (r: seq<T>)
    ensures |r| == |s|
    ensures multiset(r) == multiset(s)
  {
    if s == [] then []
    else
      assert s == s[..|s| - 1] + [s[|s| - 1]];
      Insert(SortBy(s[..|s| - 1], le), s[|s| - 1], le)
  }

  lemma {:induction false} InsertSorted<T(!new)>(s: seq<T>, x: T, le: (T, T) -> bool)
    requires TotalPreorder(le) && Sorted(s, le)
    ensures Sorted(Insert(s, x, le), le)
    decreases |s|
  {
    if s != [] {
      var r := Insert(s, x, le);
      if le(s[0], x) {
        var tail := Insert(s[1..], x, le);
        InsertSorted(s[1..], x, le);
        forall j | 0 <= j < |tail| ensures le(s[0], tail[j]) {
          assert tail[j] in multiset(tail);
          if tail[j] != x {
            assert tail[j] in multiset(s[1..]);
            var k :| 0 <= k < |s[1..]| && s[1..][k] == tail[j];
            assert s[k + 1] == tail[j];
          }
        }
        assert r == [s[0]] + tail;
        forall i, j | 0 <= i < j < |r| ensures le(r[i], r[j]) {
          if i > 0 {
            assert r[i] == tail[i - 1] && r[j] == tail[j - 1];
          } else {
            assert r[j] == tail[j - 1];
          }
        }
      } else {
        assert le(x, s[0]);
        assert r == [x] + s;
        forall i, j | 0 <= i < j < |r| ensures le(r[i], r[j]) {
          if i == 0 {
            assert r[j] == s[j - 1];
            assert le(s[0], s[j - 1]) || j - 1 == 0;
          } else {
            assert r[i] == s[i - 1] && r[j] == s[j - 1];
          }
        }
      }
    }
  }

  /** The result of `sorted` is in order. */
  lemma {:induction false} SortBySorted<T(!new)>(s: seq<T>, le: (T, T) -> bool)
    requires TotalPreorder(le)
    ensures Sorted(SortBy(s, le), le)
    decreases |s|
  {
    if s != [] {
      SortBySorted(s[..|s| - 1], le);
      InsertSorted(SortBy(s[..|s| - 1], le), s[|s| - 1], le);
    }
  }

  /** The elements of `s` that are equivalent to `e`, in their order in `s`. */
  function Equivalents<T>(s: seq<T>, le: (T, T) -> bool, e: T): seq<T> {
    if s == [] then []
    else (if le(s[0], e) && le(e, s[0]) then [s[0]] else []) + Equivalents(s[1..], le, e)
  }

  lemma {:induction false} EquivalentsConcat<T>(a: seq<T>, b: seq<T>, le: (T, T) -> bool, e: T)
    ensures Equivalents(a + b, le, e) == Equivalents(a, le, e) + Equivalents(b, le, e)
    decreases |a|
  {
    if a == [] {
      assert a + b == b;
    } else {
      assert (a + b)[1..] == a[1..] + b;
      EquivalentsConcat(a[1..], b, le, e);
    }
  }

  lemma EquivalentsSingle<T>(x: T, le: (T, T) -> bool, e: T)
    ensures Equivalents([x], le, e) == if le(x, e) && le(e, x) then [x] else []
  {
    assert [x][1..] == [];
  }

  lemma {:induction false} InsertStable<T(!new)>(s: seq<T>, x: T, le: (T, T) -> bool, e: T)
    requires TotalPreorder(le) && Sorted(s, le)
    ensures Equivalents(Insert(s, x, le), le, e) == Equivalents(s, le, e) + Equivalents([x], le, e)
    decreases |s|
  {
    if s == [] {
      assert Insert(s, x, le) == [x];
    } else if le(s[0], x) {
      var tail := Insert(s[1..], x, le);
      SortedTail(s, le);
      assert s == [s[0]] + s[1..];
      calc {
        Equivalents(Insert(s, x, le), le, e);
        { assert Insert(s, x, le) == [s[0]] + tail; }
        Equivalents([s[0]] + tail, le, e);
        { EquivalentsConcat([s[0]], tail, le, e); }
        Equivalents([s[0]], le, e) + Equivalents(tail, le, e);
        { InsertStable(s[1..], x, le, e); }
        Equivalents([s[0]], le, e) + (Equivalents(s[1..], le, e) + Equivalents([x], le, e));
        { EquivalentsConcat([s[0]], s[1..], le, e); }
        Equivalents(s, le, e) + Equivalents([x], le, e);
      }
    } else {
      InsertInFront(s, x, le, e);
    }
  }

  /** When `x` goes in front of all of `s`, nothing of `s` can be equivalent to anything `x` is. */
  lemma InsertInFront<T(!new)>(s: seq<T>, x: T, le: (T, T) -> bool, e: T)
    requires TotalPreorder(le) && Sorted(s, le)
    requires s != [] && !le(s[0], x)
    ensures Equivalents(Insert(s, x, le), le, e) == Equivalents(s, le, e) + Equivalents([x], le, e)
  {
    assert Insert(s, x, le) == [x] + s;
    EquivalentsSingle(x, le, e);
    EquivalentsConcat([x], s, le, e);
    if le(x, e) && le(e, x) {
      assert !le(s[0], e);
      NoneEquivalent(s, le, e);
    }
  }

  lemma SortedTail<T>(s: seq<T>, le: (T, T) -> bool)
    requires Sorted(s, le) && s != []
    ensures Sorted(s[1..], le)
  {
    forall i, j | 0 <= i < j < |s| - 1 ensures le(s[1..][i], s[1..][j]) {
      assert s[1..][i] == s[i + 1] && s[1..][j] == s[j + 1];
    }
  }

  lemma {:induction false} NoneEquivalent<T(!new)>(s: seq<T>, le: (T, T) -> bool, e: T)
    requires TotalPreorder(le) && Sorted(s, le)
    requires s != [] && !le(s[0], e)
    ensures Equivalents(s, le, e) == []
    decreases |s|
  {
    if |s| > 1 {
      assert le(s[0], s[1]);
      SortedTail(s, le);
      NoneEquivalent(s[1..], le, e);
    }
  }

  /** Stability: the elements equivalent to any `e` come out in the order they went in. */
  lemma {:induction false} SortByStable<T(!new)>(s: seq<T>, le: (T, T) -> bool, e: T)
    requires TotalPreorder(le)
    ensures Equivalents(SortBy(s, le), le, e) == Equivalents(s, le, e)
    decreases |s|
  {
    if s != [] {
      var init, last := s[..|s| - 1], s[|s| - 1];
      SortByStable(init, le, e);
      SortBySorted(init, le);
      InsertStable(SortBy(init, le), last, le, e);
      assert s == init + [last];
      EquivalentsConcat(init, [last], le, e);
    }
  }
}
