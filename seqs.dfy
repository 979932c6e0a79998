/** Sequence facts shared by the scheduler and the bank scripts: a stable
    insertion sort (the behaviour of `Array.prototype.sort`), de-duplication
    in first-occurrence order (what `[...new Set(xs)]` yields), and the
    permutation lemmas the set builders need after their final shuffle. */
module Seqs {
  import opened Types

  /** `le` is total and transitive; `sort` with a consistent comparator needs this. */
  ghost predicate TotalPreorder<T(!new)>(le: (T, T) -> bool)
  {
    && (forall a, b :: le(a, b) || le(b, a))
    && (forall a, b, c :: le(a, b) && le(b, c) ==> le(a, c))
  }

  ghost predicate SortedBy<T>(s: seq<T>, le: (T, T) -> bool)
  {
    forall i, j | 0 <= i < j < |s| :: le(s[i], s[j])
  }

  /** Inserts `x` after every trailing element `e` of `s` with `le(e, x)`, which
      keeps equal elements in their original order. */
  function Insert<T>(x: T, s: seq<T>, le: (T, T) -> bool): seq<T>
  {
    if s == [] then [x]
    else if le(s[|s| - 1], x) then s + [x]
    else Insert(x, s[..|s| - 1], le) + [s[|s| - 1]]
  }

  /** Stable sort: the prefix is sorted first, then the last element is inserted. */
  function SortBy<T>(s: seq<T>, le: (T, T) -> bool): seq<T>
  {
    if s == [] then [] else Insert(s[|s| - 1], SortBy(s[..|s| - 1], le), le)
  }

  lemma {:induction false} InsertPermutation<T>(x: T, s: seq<T>, le: (T, T) -> bool)
    ensures multiset(Insert(x, s, le)) == multiset(s) + multiset{x}
    ensures |Insert(x, s, le)| == |s| + 1
  {
    if s != [] && !le(s[|s| - 1], x) {
      InsertPermutation(x, s[..|s| - 1], le);
      assert s == s[..|s| - 1] + [s[|s| - 1]];
    }
  }

  lemma {:induction false} SortByPermutation<T>(s: seq<T>, le: (T, T) -> bool)
    ensures multiset(SortBy(s, le)) == multiset(s)
    ensures |SortBy(s, le)| == |s|
  {
    if s != [] {
      SortByPermutation(s[..|s| - 1], le);
      InsertPermutation(s[|s| - 1], SortBy(s[..|s| - 1], le), le);
      assert s == s[..|s| - 1] + [s[|s| - 1]];
    }
  }

  lemma {:induction false} InsertSorted<T(!new)>(x: T, s: seq<T>, le: (T, T) -> bool)
    requires TotalPreorder(le)
    requires SortedBy(s, le)
    ensures SortedBy(Insert(x, s, le), le)
  {
    if s == [] {
    } else if le(s[|s| - 1], x) {
      var r := s + [x];
      forall i, j | 0 <= i < j < |r| ensures le(r[i], r[j]) {
        if j == |s| && i < |s| - 1 {
          assert le(s[i], s[|s| - 1]);
        }
      }
    } else {
      var last := s[|s| - 1];
      var init := s[..|s| - 1];
      InsertSorted(x, init, le);
      InsertPermutation(x, init, le);
      var ins := Insert(x, init, le);
      var r := ins + [last];
      assert le(x, last);
      forall i, j | 0 <= i < j < |r| ensures le(r[i], r[j]) {
        if j == |ins| {
          assert r[i] in multiset(ins);
          assert r[i] in multiset(init) || r[i] == x;
          if r[i] != x {
            var k :| 0 <= k < |init| && init[k] == r[i];
            assert le(s[k], s[|s| - 1]);
          }
        }
      }
    }
  }

  lemma AppendAssoc<T>(a: seq<T>, b: seq<T>, c: seq<T>)
    ensures a + b + c == a + (b + c)
  {
  }

  lemma TakeSnoc<T>(s: seq<T>, i: nat)
    requires i < |s|
    ensures s[..i + 1] == s[..i] + [s[i]]
  {
  }

  lemma InitLast<T>(s: seq<T>)
    requires s != []
    ensures s == s[..|s| - 1] + [s[|s| - 1]]
  {
  }

  lemma AppendInit<T>(a: seq<T>, b: seq<T>)
    requires b != []
    ensures (a + b)[..|a + b| - 1] == a + b[..|b| - 1]
    ensures (a + b)[|a + b| - 1] == b[|b| - 1]
  {
  }

  lemma TakeAll<T>(s: seq<T>)
    ensures s[..|s|] == s
  {
  }

  /** Sorting keeps the same values, and distinct values stay distinct. */
  lemma SortByMembers<T>(s: seq<T>, le: (T, T) -> bool)
    ensures forall x :: x in SortBy(s, le) <==> x in s
    ensures Distinct(s) ==> Distinct(SortBy(s, le))
  {
    SortByPermutation(s, le);
    var r := SortBy(s, le);
    forall x ensures x in r <==> x in s {
      assert x in r <==> x in multiset(r);
    }
    if Distinct(s) {
      DistinctPermutation(s, r);
    }
  }

  lemma SortByMember<T>(s: seq<T>, le: (T, T) -> bool, x: T)
    ensures x in SortBy(s, le) <==> x in s
  {
    SortByMembers(s, le);
  }

  /** The stable sort really sorts, when the comparator is a total preorder. */
  lemma {:induction false} SortBySorted<T(!new)>(s: seq<T>, le: (T, T) -> bool)
    requires TotalPreorder(le)
    ensures SortedBy(SortBy(s, le), le)
  {
    if s != [] {
      SortBySorted(s[..|s| - 1], le);
      InsertSorted(s[|s| - 1], SortBy(s[..|s| - 1], le), le);
    }
  }

  /** `Array.prototype.sort` in place: insertion sort, whose result is the
      stable order `SortBy` describes. */
  method SortInPlace<T>(a: array<T>, le: (T, T) -> bool)
    modifies a
    ensures a[..] == SortBy(old(a[..]), le)
  {
    ghost var orig := a[..];
    var i := 0;
    while i < a.Length
      invariant 0 <= i <= a.Length
      invariant a[..i] == SortBy(orig[..i], le)
      invariant a[i..] == orig[i..]
    {
      InsertAt(a, i, le);
      assert orig[..i + 1][..i] == orig[..i];
      i := i + 1;
    }
    assert orig[..a.Length] == orig;
  }

  /** Inserts `a[i]` into the prefix `a[..i]`, shifting larger elements right. */
  method InsertAt<T>(a: array<T>, i: nat, le: (T, T) -> bool)
    requires i < a.Length
    modifies a
    ensures a[..i + 1] == Insert(old(a[i]), old(a[..i]), le)
    ensures a[i + 1..] == old(a[i + 1..])
  {
    var x := a[i];
    ghost var p := a[..i];
    var j := i;
    assert p[..j] == p && p[j..] == [];
    assert Insert(x, p, le) == Insert(x, p[..j], le) + p[j..];
    while j > 0 && !le(a[j - 1], x)
      invariant 0 <= j <= i
      invariant forall k | 0 <= k < j :: a[k] == p[k]
      invariant forall k | j < k <= i :: a[k] == p[k - 1]
      invariant forall k | i < k < a.Length :: a[k] == old(a[k])
      invariant Insert(x, p, le) == Insert(x, p[..j], le) + p[j..]
    {
      InsertStep(x, p, j, le);
      a[j] := a[j - 1];
      j := j - 1;
    }
    a[j] := x;
    InsertPlaced(x, p, j, le);
    Assemble(a[..], p, x, j, i);
    assert a[..i + 1] == a[..][..i + 1];
  }

  /** The array after the loop: the prefix before `j`, then `x`, then the
      shifted rest. */
  lemma Assemble<T>(r: seq<T>, p: seq<T>, x: T, j: nat, i: nat)
    requires j <= i == |p| < |r|
    requires forall k | 0 <= k < j :: r[k] == p[k]
    requires r[j] == x
    requires forall k | j < k <= i :: r[k] == p[k - 1]
    ensures r[..i + 1] == p[..j] + [x] + p[j..]
  {
    var left, right := p[..j] + [x], p[j..];
    forall k | 0 <= k < i + 1
      ensures r[..i + 1][k] == (left + right)[k]
    {
      if k <= j {
        assert (left + right)[k] == left[k];
      } else {
        assert (left + right)[k] == right[k - j - 1] == p[k - 1];
      }
    }
  }

  /** One shift of the inner loop: `x` moves left past `p[j - 1]`. */
  lemma InsertStep<T>(x: T, p: seq<T>, j: nat, le: (T, T) -> bool)
    requires 0 < j <= |p| && !le(p[j - 1], x)
    ensures Insert(x, p[..j], le) + p[j..] == Insert(x, p[..j - 1], le) + p[j - 1..]
  {
    assert p[..j][..j - 1] == p[..j - 1];
    assert Insert(x, p[..j], le) == Insert(x, p[..j - 1], le) + [p[j - 1]];
    assert p[j - 1..] == [p[j - 1]] + p[j..];
  }

  /** Where the inner loop stops, `x` goes right after the prefix. */
  lemma InsertPlaced<T>(x: T, p: seq<T>, j: nat, le: (T, T) -> bool)
    requires j <= |p| && (j == 0 || le(p[j - 1], x))
    ensures Insert(x, p[..j], le) == p[..j] + [x]
  {
  }

  /** `[...new Set(s)]`: the first occurrence of every element, in order. */
  function Dedup<T(==,!new)>(s: seq<T>): (r: seq<T>)
    ensures forall i, j | 0 <= i < j < |r| :: r[i] != r[j]
    ensures forall x :: x in r <==> x in s
  {
    if s == [] then []
    else
      var d := Dedup(s[..|s| - 1]);
      assert forall x :: x in s <==> x in s[..|s| - 1] || x == s[|s| - 1];
      if s[|s| - 1] in d then d else d + [s[|s| - 1]]
  }

  lemma {:induction false} CountTagAppend(a: seq<Question>, b: seq<Question>, t: Tag)
    ensures CountTag(a + b, t) == CountTag(a, t) + CountTag(b, t)
  {
    if a == [] {
      assert a + b == b;
    } else {
      assert (a + b)[0] == a[0];
      assert (a + b)[1..] == a[1..] + b;
      CountTagAppend(a[1..], b, t);
    }
  }

  /** Removing position `i` removes one copy of `s[i]` from the multiset. */
  lemma MultisetRemove<T>(s: seq<T>, i: nat)
    requires i < |s|
    ensures multiset(s[..i] + s[i + 1..]) == multiset(s) - multiset{s[i]}
  {
    assert s == s[..i] + [s[i]] + s[i + 1..];
  }

  lemma CountTagRemove(s: seq<Question>, i: nat, t: Tag)
    requires i < |s|
    ensures CountTag(s, t) == CountTag(s[..i] + s[i + 1..], t) + (if s[i].tag == t then 1 else 0)
  {
    assert s == s[..i] + [s[i]] + s[i + 1..];
    CountTagAppend(s[..i] + [s[i]], s[i + 1..], t);
    CountTagAppend(s[..i], [s[i]], t);
    CountTagAppend(s[..i], s[i + 1..], t);
  }

  /** Removing the head of `a` and a matching position of `b` keeps two
      permutations permutations of each other. */
  lemma PermutationTail<T>(a: seq<T>, b: seq<T>, i: nat)
    requires multiset(a) == multiset(b)
    requires a != [] && i < |b| && b[i] == a[0]
    ensures multiset(a[1..]) == multiset(b[..i] + b[i + 1..])
  {
    MultisetRemove(a, 0);
    MultisetRemove(b, i);
    assert a[..0] + a[1..] == a[1..];
  }

  lemma IndexOf<T>(s: seq<T>, x: T) returns (i: nat)
    requires x in multiset(s)
    ensures i < |s| && s[i] == x
  {
    i :| 0 <= i < |s| && s[i] == x;
  }

  /** Counting by tag does not see the order of a sequence. */
  lemma {:induction false} CountTagPermutation(a: seq<Question>, b: seq<Question>, t: Tag)
    requires multiset(a) == multiset(b)
    ensures CountTag(a, t) == CountTag(b, t)
  {
    if a == [] {
      assert multiset(b) == multiset{};
    } else {
      var i := IndexOf(b, a[0]);
      PermutationTail(a, b, i);
      CountTagPermutation(a[1..], b[..i] + b[i + 1..], t);
      CountTagRemove(b, i, t);
    }
  }

  lemma TwoOccurrences<T>(s: seq<T>, i: nat, j: nat)
    requires i < j < |s| && s[i] == s[j]
    ensures multiset(s)[s[i]] >= 2
  {
    assert s == s[..j] + [s[j]] + s[j + 1..];
    assert s[i] in multiset(s[..j]);
  }

  lemma SecondOccurrence<T>(s: seq<T>, x: T)
    requires multiset(s)[x] >= 2
    ensures exists i, j :: 0 <= i < j < |s| && s[i] == x && s[j] == x
  {
    var p :| 0 <= p < |s| && s[p] == x;
    var rest := s[..p] + s[p + 1..];
    assert s == s[..p] + [x] + s[p + 1..];
    assert multiset(rest)[x] >= 1;
    var q' :| 0 <= q' < |rest| && rest[q'] == x;
    var q := if q' < p then q' else q' + 1;
    assert s[q] == x && q != p;
    if q < p {
      assert 0 <= q < p < |s|;
    } else {
      assert 0 <= p < q < |s|;
    }
  }

  /** Distinct ids survive any permutation. */
  lemma UniqueIdsPermutation(a: seq<Question>, b: seq<Question>)
    requires multiset(a) == multiset(b)
    requires UniqueIds(a)
    ensures UniqueIds(b)
  {
    forall i, j | 0 <= i < j < |b| ensures b[i].id != b[j].id {
      if b[i] == b[j] {
        TwoOccurrences(b, i, j);
        SecondOccurrence(a, b[i]);
      } else {
        assert b[i] in multiset(a) && b[j] in multiset(a);
        var p :| 0 <= p < |a| && a[p] == b[i];
        var q :| 0 <= q < |a| && a[q] == b[j];
        if p < q {
          assert a[p].id != a[q].id;
        } else {
          assert a[q].id != a[p].id;
        }
      }
    }
  }

  /** `s.filter(p)`: the elements satisfying `p`, in order. */
  function Filter<T>(s: seq<T>, p: T -> bool): (r: seq<T>)
    ensures |r| <= |s|
    ensures forall x | x in r :: x in s && p(x)
    ensures forall x | x in s && p(x) :: x in r
  {
    if s == [] then []
    else if p(s[0]) then [s[0]] + Filter(s[1..], p)
    else Filter(s[1..], p)
  }

  lemma {:induction false} FilterAppend<T>(a: seq<T>, b: seq<T>, p: T -> bool)
    ensures Filter(a + b, p) == Filter(a, p) + Filter(b, p)
  {
    if a == [] {
      assert a + b == b;
    } else {
      assert (a + b)[0] == a[0];
      assert (a + b)[1..] == a[1..] + b;
      FilterAppend(a[1..], b, p);
    }
  }

  /** Filtering twice keeps what filtering once keeps. */
  lemma {:induction false} FilterTwice<T>(s: seq<T>, p: T -> bool)
    ensures Filter(Filter(s, p), p) == Filter(s, p)
  {
    if s != [] {
      FilterTwice(s[1..], p);
      if p(s[0]) {
        assert ([s[0]] + Filter(s[1..], p))[0] == s[0];
        assert ([s[0]] + Filter(s[1..], p))[1..] == Filter(s[1..], p);
      }
    }
  }

  /** A filter no element passes leaves nothing. */
  lemma {:induction false} FilterNone<T>(s: seq<T>, p: T -> bool)
    requires forall i | 0 <= i < |s| :: !p(s[i])
    ensures Filter(s, p) == []
  {
    if s != [] {
      assert !p(s[0]);
      FilterNone(s[1..], p);
    }
  }

  /** The filter keeps every copy of an element that passes and none of one that does not. */
  lemma {:induction false} FilterCount<T>(s: seq<T>, p: T -> bool, x: T)
    ensures multiset(Filter(s, p))[x] == if p(x) then multiset(s)[x] else 0
  {
    if s != [] {
      FilterCount(s[1..], p, x);
      assert s == [s[0]] + s[1..];
    }
  }

  /** `s.slice(0, n)` for `n >= 0`. */
  function Take<T>(s: seq<T>, n: nat): (r: seq<T>)
    ensures |r| == if n < |s| then n else |s|
    ensures r == s[..|r|]
  {
    if n < |s| then s[..n] else s
  }

  /** With distinct ids, two elements of a sequence with the same id are the same. */
  lemma SameIdSameQuestion(s: seq<Question>, p: Question, q: Question)
    requires UniqueIds(s) && p in s && q in s && p.id == q.id
    ensures p == q
  {
    var i :| 0 <= i < |s| && s[i] == p;
    var j :| 0 <= j < |s| && s[j] == q;
    assert i == j;
  }

  /** A prefix of a sequence with distinct ids has distinct ids. */
  lemma UniqueIdsPrefix(s: seq<Question>, n: nat)
    requires UniqueIds(s) && n <= |s|
    ensures UniqueIds(s[..n])
  {
    assert forall i | 0 <= i < n :: s[..n][i] == s[i];
  }

  lemma IdSetAppend(a: seq<Question>, b: seq<Question>)
    ensures IdSet(a + b) == IdSet(a) + IdSet(b)
  {
    assert forall q :: q in a + b <==> q in a || q in b;
  }

  /** Appending a question with a fresh id keeps the ids distinct. */
  lemma UniqueIdsSnoc(s: seq<Question>, q: Question)
    requires UniqueIds(s) && q.id !in IdSet(s)
    ensures UniqueIds(s + [q])
  {
    forall i | 0 <= i < |s|
      ensures (s + [q])[i].id != q.id
    {
      assert s[i] in s;
    }
  }

  /** Two sequences with distinct ids and no id in common concatenate to one. */
  lemma UniqueIdsConcat(a: seq<Question>, b: seq<Question>)
    requires UniqueIds(a) && UniqueIds(b)
    requires IdSet(a) !! IdSet(b)
    ensures UniqueIds(a + b)
  {
    var c := a + b;
    forall i, j | 0 <= i < j < |c|
      ensures c[i].id != c[j].id
    {
      if j < |a| {
        assert c[i] == a[i] && c[j] == a[j];
      } else if i >= |a| {
        assert c[i] == b[i - |a|] && c[j] == b[j - |a|];
      } else {
        assert c[i] == a[i] && c[j] == b[j - |a|];
        assert a[i] in a && b[j - |a|] in b;
        assert c[i].id in IdSet(a) && c[j].id in IdSet(b);
      }
    }
  }

  /** Reordering keeps the set of ids. */
  lemma IdSetPermutation(a: seq<Question>, b: seq<Question>)
    requires multiset(a) == multiset(b)
    ensures IdSet(a) == IdSet(b)
  {
    forall q
      ensures q in a <==> q in b
    {
      assert q in a <==> q in multiset(a);
      assert q in b <==> q in multiset(b);
    }
  }

  /** Filtering keeps the ids distinct. */
  lemma {:induction false} FilterUniqueIds(s: seq<Question>, p: Question -> bool)
    requires UniqueIds(s)
    ensures UniqueIds(Filter(s, p))
  {
    if s != [] {
      assert forall i | 0 <= i < |s| - 1 :: s[1..][i] == s[i + 1];
      FilterUniqueIds(s[1..], p);
      var rest := Filter(s[1..], p);
      if p(s[0]) {
        var r := [s[0]] + rest;
        forall i, j | 0 <= i < j < |r|
          ensures r[i].id != r[j].id
        {
          if i == 0 {
            assert r[j] == rest[j - 1] && rest[j - 1] in s[1..];
            var m :| 0 <= m < |s[1..]| && s[1..][m] == r[j];
            assert s[m + 1] == r[j];
          } else {
            assert r[i] == rest[i - 1] && r[j] == rest[j - 1];
          }
        }
      }
    }
  }

  /** No value occurs twice. */
  predicate Distinct<T(==)>(s: seq<T>)
  {
    forall i, j | 0 <= i < j < |s| :: s[i] != s[j]
  }

  /** Distinct values stay distinct under any permutation. */
  lemma DistinctPermutation<T>(a: seq<T>, b: seq<T>)
    requires multiset(a) == multiset(b) && Distinct(a)
    ensures Distinct(b)
  {
    forall i, j | 0 <= i < j < |b| ensures b[i] != b[j] {
      if b[i] == b[j] {
        TwoOccurrences(b, i, j);
        SecondOccurrence(a, b[i]);
      }
    }
  }

  /** Filtering keeps distinct values distinct. */
  lemma {:induction false} DistinctFilter<T>(s: seq<T>, p: T -> bool)
    requires Distinct(s)
    ensures Distinct(Filter(s, p))
  {
    if s != [] {
      assert forall i | 0 <= i < |s| - 1 :: s[1..][i] == s[i + 1];
      DistinctFilter(s[1..], p);
      var rest := Filter(s[1..], p);
      if p(s[0]) {
        var r := [s[0]] + rest;
        forall i, j | 0 <= i < j < |r|
          ensures r[i] != r[j]
        {
          if i == 0 {
            assert r[j] == rest[j - 1] && rest[j - 1] in s[1..];
          } else {
            assert r[i] == rest[i - 1] && r[j] == rest[j - 1];
          }
        }
      }
    }
  }

  /** A new value in front of distinct values gives distinct values. */
  lemma DistinctCons<T>(x: T, s: seq<T>)
    requires Distinct(s) && x !in s
    ensures Distinct([x] + s)
  {
    var r := [x] + s;
    forall i, j | 0 <= i < j < |r| ensures r[i] != r[j] {
      if i == 0 {
        assert r[j] == s[j - 1];
      } else {
        assert r[i] == s[i - 1] && r[j] == s[j - 1];
      }
    }
  }
}
