/** Sequence utilities standing in for Python list comprehensions, generators
    and the stable `sorted` built-in. */
module Seqs {

  /** `[x for x in s if p(x)]`, in the original order. */
  function Filter<T>(s: seq<T>, p: T -> bool): (r: seq<T>)
    ensures |r| <= |s|
  {
    if |s| == 0 then []
    else (if p(s[0]) then [s[0]] else []) + Filter(s[1..], p)
  }

  /** What `Filter` keeps: exactly the elements that pass. */
  lemma {:induction false} FilterMember<T>(s: seq<T>, p: T -> bool)
    ensures forall i :: 0 <= i < |Filter(s, p)| ==> Filter(s, p)[i] in s && p(Filter(s, p)[i])
    ensures forall i :: 0 <= i < |s| && p(s[i]) ==> s[i] in Filter(s, p)
  {
    if |s| > 0 {
      FilterMember(s[1..], p);
      var f := Filter(s, p);
      var f' := Filter(s[1..], p);
      assert f == (if p(s[0]) then [s[0]] else []) + f';
      forall i | 0 <= i < |s| && p(s[i])
        ensures s[i] in f
      {
        if i > 0 {
          assert s[i] == s[1..][i - 1];
        }
      }
      forall i | 0 <= i < |f|
        ensures f[i] in s && p(f[i])
      {
        if !p(s[0]) || i > 0 {
          var k := if p(s[0]) then i - 1 else i;
          assert f[i] == f'[k];
          assert f'[k] in s[1..];
        }
      }
    }
  }

  /** `a` is `b` with some elements dropped and the rest kept in order. */
  predicate IsSubsequence<T(==)>(a: seq<T>, b: seq<T>)
  {
    if |a| == 0 then true
    else if |b| == 0 then false
    else if a[0] == b[0] then IsSubsequence(a[1..], b[1..])
    else IsSubsequence(a, b[1..])
  }

  /** Unfolds `Filter` on a sequence built from its first element. */
  lemma FilterCons<T>(x: T, s: seq<T>, p: T -> bool)
    ensures Filter([x] + s, p) == (if p(x) then [x] else []) + Filter(s, p)
  {
    assert ([x] + s)[0] == x && ([x] + s)[1..] == s;
  }

  lemma {:induction false} FilterIsSubsequence<T>(s: seq<T>, p: T -> bool)
    ensures IsSubsequence(Filter(s, p), s)
  {
    if |s| > 0 {
      FilterIsSubsequence(s[1..], p);
      var f := Filter(s, p);
      if p(s[0]) {
        assert f == [s[0]] + Filter(s[1..], p);
        assert f[0] == s[0] && f[1..] == Filter(s[1..], p);
      } else {
        assert f == Filter(s[1..], p);
        if |f| > 0 {
          FilterMember(s[1..], p);
          assert f[0] != s[0];
        }
      }
    }
  }

  lemma {:induction false} FilterIdempotent<T>(s: seq<T>, p: T -> bool)
    ensures Filter(Filter(s, p), p) == Filter(s, p)
  {
    if |s| > 0 {
      FilterIdempotent(s[1..], p);
      if p(s[0]) {
        assert Filter(s, p) == [s[0]] + Filter(s[1..], p);
        FilterCons(s[0], Filter(s[1..], p), p);
      } else {
        assert Filter(s, p) == Filter(s[1..], p);
      }
    }
  }

  lemma {:induction false} FilterAll<T>(s: seq<T>, p: T -> bool)
    requires forall i :: 0 <= i < |s| ==> p(s[i])
    ensures Filter(s, p) == s
  {
    if |s| > 0 {
      FilterAll(s[1..], p);
      assert [s[0]] + s[1..] == s;
    }
  }

  lemma {:induction false} FilterNone<T>(s: seq<T>, p: T -> bool)
    requires forall i :: 0 <= i < |s| ==> !p(s[i])
    ensures Filter(s, p) == []
  {
    if |s| > 0 {
      FilterNone(s[1..], p);
    }
  }

  /** Filtering a concatenation filters each part. */
  lemma {:induction false} FilterConcat<T>(a: seq<T>, b: seq<T>, p: T -> bool)
    ensures Filter(a + b, p) == Filter(a, p) + Filter(b, p)
  {
    if |a| > 0 {
      FilterConcat(a[1..], b, p);
      assert (a + b)[0] == a[0] && (a + b)[1..] == a[1..] + b;
      var head := if p(a[0]) then [a[0]] else [];
      calc {
        Filter(a + b, p);
        head + Filter(a[1..] + b, p);
        head + (Filter(a[1..], p) + Filter(b, p));
        (head + Filter(a[1..], p)) + Filter(b, p);
      }
    } else {
      assert a + b == b;
    }
  }

  /** `Filter` keeps every passing element as often as it occurs, and no
      other element. */
  lemma {:induction false} FilterMultiset<T>(s: seq<T>, p: T -> bool)
    ensures forall x :: multiset(Filter(s, p))[x] == if p(x) then multiset(s)[x] else 0
  {
    if |s| > 0 {
      FilterMultiset(s[1..], p);
      assert s == [s[0]] + s[1..];
      assert multiset(s) == multiset([s[0]]) + multiset(s[1..]);
      assert multiset(Filter(s, p)) ==
        multiset(if p(s[0]) then [s[0]] else []) + multiset(Filter(s[1..], p));
    }
  }

  /** `[x for xs in ss for x in xs]`. */
  function Flatten<T>(ss: seq<seq<T>>): (r: seq<T>)
  {
    if |ss| == 0 then [] else ss[0] + Flatten(ss[1..])
  }

  lemma {:induction false} FlattenMember<T>(ss: seq<seq<T>>, x: T)
    ensures x in Flatten(ss) <==> exists i :: 0 <= i < |ss| && x in ss[i]
  {
    if |ss| > 0 {
      FlattenMember(ss[1..], x);
      if x in Flatten(ss[1..]) {
        var i :| 0 <= i < |ss[1..]| && x in ss[1..][i];
        assert x in ss[i + 1];
      }
      if exists i :: 0 <= i < |ss| && x in ss[i] {
        var i :| 0 <= i < |ss| && x in ss[i];
        if i > 0 {
          assert x in ss[1..][i - 1];
        }
      }
    }
  }

  /** `le` is total and transitive, as `not (key(b) < key(a))` is for the
      keys Python sorts by. */
  ghost predicate TotalPreorder<T(!new)>(le: (T, T) -> bool)
  {
    && (forall a, b :: le(a, b) || le(b, a))
    && (forall a, b, c {:trigger Chain(a, b, c)} :: le(a, b) && le(b, c) ==> le(a, c))
  }

  /** A term that names a chain `a`, `b`, `c`; transitivity is instantiated
      only through `Transitive` below, which keeps the solver from chasing
      chains on its own. */
  ghost function Chain<T>(a: T, b: T, c: T): bool
  {
    true
  }

  lemma Transitive<T(!new)>(le: (T, T) -> bool, a: T, b: T, c: T)
    requires TotalPreorder(le)
    requires le(a, b) && le(b, c)
    ensures le(a, c)
  {
    assert Chain(a, b, c);
  }

  ghost predicate Sorted<T>(s: seq<T>, le: (T, T) -> bool)
  {
    forall i, j :: 0 <= i < j < |s| ==> le(s[i], s[j])
  }

  /** Places `x` in front of the first element it does not sort after. */
  function Insert<T>(x: T, s: seq<T>, le: (T, T) -> bool): (r: seq<T>)
    ensures |r| == |s| + 1
  {
    if |s| == 0 then [x]
    else if le(x, s[0]) then [x] + s
    else [s[0]] + Insert(x, s[1..], le)
  }

  lemma {:induction false} InsertPermutes<T>(x: T, s: seq<T>, le: (T, T) -> bool)
    ensures multiset(Insert(x, s, le)) == multiset(s) + multiset{x}
  {
    if |s| > 0 {
      assert s == [s[0]] + s[1..];
      if !le(x, s[0]) {
        InsertPermutes(x, s[1..], le);
      }
    }
  }

  /** Python's `sorted(s, key=...)`: an insertion sort that keeps equal
      elements in their original order. */
  function Sort<T>(s: seq<T>, le: (T, T) -> bool): (r: seq<T>)
    ensures |r| == |s|
  {
    if |s| == 0 then [] else Insert(s[0], Sort(s[1..], le), le)
  }

  /** The sort is a permutation of its input. */
  lemma {:induction false} SortPermutes<T>(s: seq<T>, le: (T, T) -> bool)
    ensures multiset(Sort(s, le)) == multiset(s)
  {
    if |s| > 0 {
      SortPermutes(s[1..], le);
      InsertPermutes(s[0], Sort(s[1..], le), le);
      assert s == [s[0]] + s[1..];
    }
  }

  lemma {:induction false} InsertSorted<T(!new)>(x: T, s: seq<T>, le: (T, T) -> bool)
    requires TotalPreorder(le)
    requires Sorted(s, le)
    ensures Sorted(Insert(x, s, le), le)
  {
    if |s| > 0 {
      if le(x, s[0]) {
        var r := [x] + s;
        forall i, j | 0 <= i < j < |r|
          ensures le(r[i], r[j])
        {
          if i == 0 {
            BeforeAllOfSorted(x, s, le, j - 1);
          } else {
            assert r[i] == s[i - 1] && r[j] == s[j - 1];
          }
        }
      } else {
        InsertSorted(x, s[1..], le);
        var t := Insert(x, s[1..], le);
        InsertPermutes(x, s[1..], le);
        forall y | y in t
          ensures le(s[0], y)
        {
          assert y in multiset(t);
          if y != x {
            assert y in multiset(s[1..]);
            var j :| 0 <= j < |s[1..]| && s[1..][j] == y;
            assert s[j + 1] == y;
          }
        }
        var r := [s[0]] + t;
        forall i, j | 0 <= i < j < |r|
          ensures le(r[i], r[j])
        {
          if i == 0 {
            assert r[j] == t[j - 1];
          } else {
            assert r[i] == t[i - 1] && r[j] == t[j - 1];
          }
        }
      }
    }
  }

  lemma {:induction false} SortSorted<T(!new)>(s: seq<T>, le: (T, T) -> bool)
    requires TotalPreorder(le)
    ensures Sorted(Sort(s, le), le)
  {
    if |s| > 0 {
      SortSorted(s[1..], le);
      InsertSorted(s[0], Sort(s[1..], le), le);
    }
  }

  /** In a sorted sequence, an element no later than the first is no later
      than any. */
  lemma BeforeAllOfSorted<T(!new)>(x: T, s: seq<T>, le: (T, T) -> bool, j: int)
    requires TotalPreorder(le)
    requires Sorted(s, le)
    requires 0 <= j < |s| && le(x, s[0])
    ensures le(x, s[j])
  {
    if j > 0 {
      Transitive(le, x, s[0], s[j]);
    }
  }

  /** Filtering after inserting into a sorted sequence equals inserting into
      the filtered sequence. */
  lemma {:induction false} FilterInsert<T(!new)>(x: T, s: seq<T>, le: (T, T) -> bool, p: T -> bool)
    requires TotalPreorder(le)
    requires Sorted(s, le)
    ensures p(x) ==> Filter(Insert(x, s, le), p) == Insert(x, Filter(s, p), le)
    ensures !p(x) ==> Filter(Insert(x, s, le), p) == Filter(s, p)
  {
    if |s| == 0 {
    } else if le(x, s[0]) {
      FilterInsertFront(x, s, le, p);
    } else {
      assert Sorted(s[1..], le);
      FilterInsert(x, s[1..], le, p);
      FilterInsertBehind(x, s, le, p);
    }
  }

  lemma FilterInsertFront<T(!new)>(x: T, s: seq<T>, le: (T, T) -> bool, p: T -> bool)
    requires TotalPreorder(le)
    requires Sorted(s, le)
    requires |s| > 0 && le(x, s[0])
    ensures p(x) ==> Filter(Insert(x, s, le), p) == Insert(x, Filter(s, p), le)
    ensures !p(x) ==> Filter(Insert(x, s, le), p) == Filter(s, p)
  {
    assert Insert(x, s, le) == [x] + s;
    FilterCons(x, s, p);
    var f := Filter(s, p);
    if p(x) && |f| > 0 {
      FilterMember(s, p);
      var j :| 0 <= j < |s| && s[j] == f[0];
      BeforeAllOfSorted(x, s, le, j);
      assert Insert(x, f, le) == [x] + f;
    }
  }

  lemma FilterInsertBehind<T>(x: T, s: seq<T>, le: (T, T) -> bool, p: T -> bool)
    requires |s| > 0 && !le(x, s[0])
    requires p(x) ==> Filter(Insert(x, s[1..], le), p) == Insert(x, Filter(s[1..], p), le)
    requires !p(x) ==> Filter(Insert(x, s[1..], le), p) == Filter(s[1..], p)
    ensures p(x) ==> Filter(Insert(x, s, le), p) == Insert(x, Filter(s, p), le)
    ensures !p(x) ==> Filter(Insert(x, s, le), p) == Filter(s, p)
  {
    var t := Insert(x, s[1..], le);
    var f' := Filter(s[1..], p);
    assert Insert(x, s, le) == [s[0]] + t;
    FilterCons(s[0], t, p);
    if p(s[0]) {
      assert Filter(s, p) == [s[0]] + f';
      assert Filter(Insert(x, s, le), p) == [s[0]] + Filter(t, p);
      if p(x) {
        InsertBehindHead(x, s[0], f', le);
      }
    } else {
      assert Filter(s, p) == f';
      assert Filter(Insert(x, s, le), p) == Filter(t, p);
    }
  }

  lemma InsertBehindHead<T>(x: T, y: T, s: seq<T>, le: (T, T) -> bool)
    requires !le(x, y)
    ensures Insert(x, [y] + s, le) == [y] + Insert(x, s, le)
  {
    assert ([y] + s)[0] == y && ([y] + s)[1..] == s;
  }

  /** A stable sort commutes with filtering. */
  lemma {:induction false} FilterSort<T(!new)>(s: seq<T>, le: (T, T) -> bool, p: T -> bool)
    requires TotalPreorder(le)
    ensures Filter(Sort(s, le), p) == Sort(Filter(s, p), le)
  {
    if |s| > 0 {
      FilterSort(s[1..], le, p);
      SortSorted(s[1..], le);
      FilterInsert(s[0], Sort(s[1..], le), le, p);
      var f := Filter(s, p);
      if p(s[0]) {
        assert f == [s[0]] + Filter(s[1..], p);
        assert f[0] == s[0] && f[1..] == Filter(s[1..], p);
      } else {
        assert f == Filter(s[1..], p);
      }
    }
  }

  /** Sorting a sequence whose elements are all tied changes nothing. */
  lemma {:induction false} SortTies<T>(s: seq<T>, le: (T, T) -> bool)
    requires forall i, j :: 0 <= i < |s| && 0 <= j < |s| ==> le(s[i], s[j])
    ensures Sort(s, le) == s
  {
    if |s| > 0 {
      SortTies(s[1..], le);
      assert [s[0]] + s[1..] == s;
      if |s| > 1 {
        assert le(s[0], s[1]);
      }
    }
  }

  /** The elements `le` ties with `k`: neither orders before the other. */
  function TiedWith<T>(le: (T, T) -> bool, k: T): T -> bool
  {
    x => le(x, k) && le(k, x)
  }

  /** `sorted` is stable: the elements tied with any one key come out in
      the order they went in. */
  lemma SortStable<T(!new)>(s: seq<T>, le: (T, T) -> bool, k: T)
    requires TotalPreorder(le)
    ensures Filter(Sort(s, le), TiedWith(le, k)) == Filter(s, TiedWith(le, k))
  {
    var tied := TiedWith(le, k);
    FilterSort(s, le, tied);
    FilterMember(s, tied);
    var f := Filter(s, tied);
    forall i, j | 0 <= i < |f| && 0 <= j < |f|
      ensures le(f[i], f[j])
    {
      assert f[i] in f && f[j] in f;
      assert tied(f[i]) && tied(f[j]);
      Transitive(le, f[i], k, f[j]);
    }
    SortTies(f, le);
  }

  /** The first element that sorts no later than every later element:
      `min` with ties going to the earliest. */
  function FirstMin<T>(s: seq<T>, le: (T, T) -> bool): (r: T)
    requires |s| > 0
    ensures r in s
  {
    if |s| == 1 then s[0]
    else
      var m := FirstMin(s[1..], le);
      if le(s[0], m) then s[0] else m
  }

  /** A stable sort puts `FirstMin` in front. */
  lemma {:induction false} SortHead<T>(s: seq<T>, le: (T, T) -> bool)
    requires |s| > 0
    ensures Sort(s, le)[0] == FirstMin(s, le)
  {
    if |s| > 1 {
      SortHead(s[1..], le);
    }
  }

  /** No element before index `k` sorts no later than `s[k]`. */
  ghost predicate NoneEarlierAsSmall<T>(s: seq<T>, le: (T, T) -> bool, k: int)
    requires 0 <= k < |s|
  {
    forall i :: 0 <= i < k ==> !le(s[i], s[k])
  }

  /** `FirstMin` is a minimum, and no element before it is as small. */
  lemma {:induction false} FirstMinIsLeastFirst<T(!new)>(s: seq<T>, le: (T, T) -> bool)
    requires |s| > 0
    requires TotalPreorder(le)
    ensures forall j :: 0 <= j < |s| ==> le(FirstMin(s, le), s[j])
    ensures exists k :: 0 <= k < |s| && s[k] == FirstMin(s, le) && NoneEarlierAsSmall(s, le, k)
  {
    if |s| == 1 {
      assert NoneEarlierAsSmall(s, le, 0);
    } else {
      FirstMinIsLeastFirst(s[1..], le);
      var m := FirstMin(s[1..], le);
      var k' :| 0 <= k' < |s[1..]| && s[1..][k'] == m && NoneEarlierAsSmall(s[1..], le, k');
      forall j | 0 <= j < |s|
        ensures le(FirstMin(s, le), s[j])
      {
        if j > 0 {
          assert s[j] == s[1..][j - 1];
          if le(s[0], m) {
            Transitive(le, s[0], m, s[j]);
          }
        }
      }
      if le(s[0], m) {
        assert NoneEarlierAsSmall(s, le, 0);
      } else {
        assert s[k' + 1] == m;
        forall i | 0 <= i < k' + 1
          ensures !le(s[i], s[k' + 1])
        {
          if i > 0 {
            assert s[i] == s[1..][i - 1];
          }
        }
        assert NoneEarlierAsSmall(s, le, k' + 1);
      }
    }
  }

  /** A value at two positions occurs at least twice. */
  lemma TwoPositions<T>(s: seq<T>, i: int, j: int)
    requires 0 <= i < j < |s| && s[i] == s[j]
    ensures multiset(s)[s[i]] >= 2
  {
    assert s == s[..j] + s[j..];
    assert s[..j][i] == s[i];
    assert s[j..][0] == s[i];
  }

  /** A value occurring at least twice sits at two positions. */
  lemma TwiceHasTwoPositions<T>(s: seq<T>, x: T)
    requires multiset(s)[x] >= 2
    ensures exists p, q :: 0 <= p < q < |s| && s[p] == x && s[q] == x
  {
    assert x in multiset(s);
    var p :| 0 <= p < |s| && s[p] == x;
    assert s == s[..p] + [x] + s[p + 1..];
    assert multiset(s) == multiset(s[..p]) + multiset{x} + multiset(s[p + 1..]);
    if x in multiset(s[..p]) {
      var q :| 0 <= q < p && s[..p][q] == x;
      assert s[q] == x;
    } else {
      assert x in multiset(s[p + 1..]);
      var q :| 0 <= q < |s| - p - 1 && s[p + 1..][q] == x;
      assert s[p + 1 + q] == x;
    }
  }
}
