/** Stable sorting by a total preorder, and Python's order on strings. */
module Sorting {
  import opened Prelude

  // ------------------------------------------------------------------ orders

  ghost predicate TotalPreorder<T(!new)>(le: (T, T) -> bool) {
    && (forall x, y :: le(x, y) || le(y, x))
    && (forall x, y, z :: le(x, y) && le(y, z) ==> le(x, z))
  }

  predicate LexLe(a: string, b: string) {
    a == "" || (b != "" && (a[0] < b[0] || (a[0] == b[0] && LexLe(a[1..], b[1..]))))
  }

  lemma {:induction false} LexTotal(a: string, b: string)
    ensures LexLe(a, b) || LexLe(b, a)
    ensures LexLe(a, b) && LexLe(b, a) ==> a == b
  {
    if a != "" && b != "" {
      LexTotal(a[1..], b[1..]);
      assert a == [a[0]] + a[1..] && b == [b[0]] + b[1..];
    }
  }

  lemma {:induction false} LexTransitive(a: string, b: string, c: string)
    requires LexLe(a, b) && LexLe(b, c)
    ensures LexLe(a, c)
  {
    if a != "" && a[0] == b[0] && b[0] == c[0] {
      LexTransitive(a[1..], b[1..], c[1..]);
    }
  }

  lemma FirstsDiffer(a: string, b: string)
    requires a != "" && b != "" && a[0] != b[0]
    ensures forall i :: 0 < i < |a| && i < |b| ==> a[..i] != b[..i]
  {
    forall i | 0 < i < |a| && i < |b| ensures a[..i] != b[..i] {
      assert a[..i][0] != b[..i][0];
    }
  }

  /** Alphabetical order: `a` is `b`, or its beginning, or the smaller at the first place where
      they differ. */
  lemma {:induction false} LexMeans(a: string, b: string)
    ensures LexLe(a, b) <==> a <= b || exists i :: 0 <= i < |a| && i < |b| && a[..i] == b[..i] && a[i] < b[i]
  {
    if a != "" && b != "" {
      var x, y := a[1..], b[1..];
      LexMeans(x, y);
      assert a == [a[0]] + x && b == [b[0]] + y;
      if a[0] == b[0] {
        assert a <= b <==> x <= y;
        forall i | 0 < i < |a| && i < |b| ensures a[..i] == b[..i] <==> x[..i - 1] == y[..i - 1] {
          assert a[..i] == [a[0]] + x[..i - 1] && b[..i] == [b[0]] + y[..i - 1];
          assert a[..i][1..] == x[..i - 1] && b[..i][1..] == y[..i - 1];
        }
        if i: int :| 0 <= i < |x| && i < |y| && x[..i] == y[..i] && x[i] < y[i] {
          assert a[..i + 1] == b[..i + 1] && a[i + 1] < b[i + 1];
        }
        if i: int :| 0 <= i < |a| && i < |b| && a[..i] == b[..i] && a[i] < b[i] {
          assert x[..i - 1] == y[..i - 1] && x[i - 1] < y[i - 1];
        }
      } else {
        assert a[..0] == b[..0];
        FirstsDiffer(a, b);
      }
    }
  }

  lemma LexPreorder()
    ensures TotalPreorder(LexLe)
  {
    forall x, y ensures LexLe(x, y) || LexLe(y, x) {
      LexTotal(x, y);
    }
    forall x, y, z | LexLe(x, y) && LexLe(y, z) ensures LexLe(x, z) {
      LexTransitive(x, y, z);
    }
  }

  // ------------------------------------------------------------------ sorting

  function Insert<T>(x: T, s: seq<T>, le: (T, T) -> bool): seq<T> {
    if s == [] then [x]
    else if le(x, s[0]) then [x] + s
    else [s[0]] + Insert(x, s[1..], le)
  }

  /** `sorted(s, key=...)`; `StableSort` and `SortedIsUnique` say that nothing else is. */
  function Sort<T>(s: seq<T>, le: (T, T) -> bool): seq<T> {
    if s == [] then [] else Insert(s[0], Sort(s[1..], le), le)
  }

  ghost predicate Sorted<T>(s: seq<T>, le: (T, T) -> bool) {
    forall i, j :: 0 <= i < j < |s| ==> le(s[i], s[j])
  }

  lemma {:induction false} InsertElements<T>(x: T, s: seq<T>, le: (T, T) -> bool)
    ensures multiset(Insert(x, s, le)) == multiset{x} + multiset(s)
  {
    if s != [] {
      InsertElements(x, s[1..], le);
      assert s == [s[0]] + s[1..];
    }
  }

  lemma {:induction false} SortElements<T>(s: seq<T>, le: (T, T) -> bool)
    ensures multiset(Sort(s, le)) == multiset(s)
    ensures forall x :: x in Sort(s, le) <==> x in s
    ensures |Sort(s, le)| == |s|
  {
    if s != [] {
      SortElements(s[1..], le);
      InsertElements(s[0], Sort(s[1..], le), le);
      assert s == [s[0]] + s[1..];
    }
    assert |multiset(Sort(s, le))| == |Sort(s, le)| && |multiset(s)| == |s|;
    forall x ensures x in Sort(s, le) <==> x in s {
      assert x in multiset(Sort(s, le)) <==> x in multiset(s);
    }
  }

  lemma {:induction false} InsertSorted<T(!new)>(x: T, s: seq<T>, le: (T, T) -> bool)
    requires TotalPreorder(le) && Sorted(s, le)
    ensures Sorted(Insert(x, s, le), le)
  {
    if s != [] && !le(x, s[0]) {
      var rest := s[1..];
      InsertSorted(x, rest, le);
      InsertElements(x, rest, le);
      var t := Insert(x, rest, le);
      forall j | 0 <= j < |t| ensures le(s[0], t[j]) {
        assert t[j] in multiset(t);
        if t[j] != x {
          assert t[j] in rest;
        }
      }
    }
  }

  lemma {:induction false} SortSorted<T(!new)>(s: seq<T>, le: (T, T) -> bool)
    requires TotalPreorder(le)
    ensures Sorted(Sort(s, le), le)
  {
    if s != [] {
      SortSorted(s[1..], le);
      InsertSorted(s[0], Sort(s[1..], le), le);
    }
  }

  function Equivalent<T>(x: T, le: (T, T) -> bool): T -> bool {
    (y: T) => le(x, y) && le(y, x)
  }

  lemma {:induction false} InsertStable<T(!new)>(x: T, s: seq<T>, le: (T, T) -> bool, z: T)
    requires TotalPreorder(le) && Sorted(s, le)
    ensures Filter(Insert(x, s, le), Equivalent(z, le)) == Filter([x] + s, Equivalent(z, le))
  {
    if s != [] && !le(x, s[0]) {
      var same := Equivalent(z, le);
      var rest := s[1..];
      InsertStable(x, rest, le, z);
      assert s == [s[0]] + rest;
      assert ([x] + s)[1..] == s && ([x] + rest)[1..] == rest;
      assert Insert(x, s, le)[1..] == Insert(x, rest, le);
      assert !(same(x) && same(s[0]));
    } else {
      assert Insert(x, s, le) == [x] + s;
    }
  }

  /** Elements with equal keys keep their order. */
  lemma {:induction false} StableSort<T(!new)>(s: seq<T>, le: (T, T) -> bool, z: T)
    requires TotalPreorder(le)
    ensures Filter(Sort(s, le), Equivalent(z, le)) == Filter(s, Equivalent(z, le))
  {
    if s != [] {
      StableSort(s[1..], le, z);
      SortSorted(s[1..], le);
      InsertStable(s[0], Sort(s[1..], le), le, z);
      FilterAppend([s[0]], Sort(s[1..], le), Equivalent(z, le));
      FilterAppend([s[0]], s[1..], Equivalent(z, le));
      assert s == [s[0]] + s[1..];
    }
  }

  /** No two different elements have equal keys. */
  ghost predicate UniqueKeys<T>(s: seq<T>, le: (T, T) -> bool) {
    forall x, y :: x in s && y in s && le(x, y) && le(y, x) ==> x == y
  }

  /** With unique keys there is only one sorted arrangement of the same elements. */
  lemma {:induction false} SortedIsUnique<T(!new)>(a: seq<T>, b: seq<T>, le: (T, T) -> bool)
    requires TotalPreorder(le) && Sorted(a, le) && Sorted(b, le) && UniqueKeys(a, le)
    requires multiset(a) == multiset(b)
    ensures a == b
  {
    if a == [] {
      NothingLeft(b);
    } else {
      SameHead(a, b, le);
      SameTails(a, b);
      SortedIsUnique(a[1..], b[1..], le);
      assert a == [a[0]] + a[1..] && b == [b[0]] + b[1..];
    }
  }

  lemma SameHead<T(!new)>(a: seq<T>, b: seq<T>, le: (T, T) -> bool)
    requires TotalPreorder(le) && Sorted(a, le) && Sorted(b, le) && UniqueKeys(a, le)
    requires a != [] && multiset(a) == multiset(b)
    ensures b != [] && a[0] == b[0]
  {
    assert a[0] in multiset(a);
    assert a[0] in multiset(b);
    assert b[0] in multiset(b);
    assert b[0] in multiset(a);
    assert a[0] in b && b[0] in a;
  }

  /** So the order of the input does not matter. */
  lemma SortForgetsOrder<T(!new)>(a: seq<T>, b: seq<T>, le: (T, T) -> bool)
    requires TotalPreorder(le) && UniqueKeys(a, le) && multiset(a) == multiset(b)
    ensures Sort(a, le) == Sort(b, le)
  {
    SortSorted(a, le);
    SortSorted(b, le);
    SortElements(a, le);
    SortElements(b, le);
    SortedIsUnique(Sort(a, le), Sort(b, le), le);
  }
}
