/** `Math.random()` and the Fisher–Yates `shuffle` the builders use.
    The random source is a stream of draws: `rand(k)` is the value of the
    k-th call, a real in [0, 1). A builder receives the stream and the index
    of its first draw, and consumes draws in the order the code calls
    `Math.random()`. */
module Shuffle {

  /** A value `Math.random()` can return. */
  type UnitReal = u: real | 0.0 <= u < 1.0

  /** `Math.floor(u * n)`: a uniform index below `n`. */
  function Draw(u: UnitReal, n: nat): (j: nat)
    requires n > 0
    ensures j < n
  {
    var x := u * n as real;
    assert 0.0 <= x by {
      assert 0.0 <= u && 0.0 < n as real;
    }
    assert x < n as real by {
      assert (1.0 - u) * n as real > 0.0;
    }
    x.Floor
  }

  function Swap<T>(s: seq<T>, i: nat, j: nat): (r: seq<T>)
    requires i < |s| && j < |s|
    ensures |r| == |s| && r[i] == s[j] && r[j] == s[i]
  {
    s[i := s[j]][j := s[i]]
  }

  lemma SwapPermutes<T>(s: seq<T>, i: nat, j: nat)
    requires i < |s| && j < |s|
    ensures multiset(Swap(s, i, j)) == multiset(s)
  {
    var t := s[i := s[j]];
    assert multiset(t) == multiset(s) - multiset{s[i]} + multiset{s[j]};
    assert multiset(t[j := s[i]]) == multiset(t) - multiset{t[j]} + multiset{s[i]};
  }

  /** The swaps of the loop from index `i` down to 1; the swap at index `i`
      uses draw `k`, the next one draw `k + 1`, and so on. */
  function FisherYatesFrom<T>(s: seq<T>, i: nat, rand: nat -> UnitReal, k: nat): seq<T>
    requires i < |s|
    decreases i
  {
    if i == 0 then s
    else FisherYatesFrom(Swap(s, i, Draw(rand(k), i + 1)), i - 1, rand, k + 1)
  }

  /** `shuffle(s)` when its first draw is `rand(k)`. */
  function Shuffled<T>(s: seq<T>, rand: nat -> UnitReal, k: nat): seq<T>
  {
    if |s| <= 1 then s else FisherYatesFrom(s, |s| - 1, rand, k)
  }

  /** How many draws `shuffle` consumes on `n` elements. */
  function ShuffleDraws(n: nat): nat
  {
    if n == 0 then 0 else n - 1
  }

  lemma {:induction false} FisherYatesPermutes<T>(s: seq<T>, i: nat, rand: nat -> UnitReal, k: nat)
    requires i < |s|
    ensures |FisherYatesFrom(s, i, rand, k)| == |s|
    ensures multiset(FisherYatesFrom(s, i, rand, k)) == multiset(s)
    decreases i
  {
    if i > 0 {
      var j := Draw(rand(k), i + 1);
      SwapPermutes(s, i, j);
      FisherYatesPermutes(Swap(s, i, j), i - 1, rand, k + 1);
    }
  }

  /** Shuffling only reorders: same length, same elements with the same multiplicities. */
  lemma ShuffledPermutes<T>(s: seq<T>, rand: nat -> UnitReal, k: nat)
    ensures |Shuffled(s, rand, k)| == |s|
    ensures multiset(Shuffled(s, rand, k)) == multiset(s)
  {
    if |s| > 1 {
      FisherYatesPermutes(s, |s| - 1, rand, k);
    }
  }

  /** Elements of the shuffle are elements of the input, and the other way round. */
  lemma ShuffledMembers<T>(s: seq<T>, rand: nat -> UnitReal, k: nat)
    ensures |Shuffled(s, rand, k)| == |s|
    ensures forall x :: x in Shuffled(s, rand, k) <==> x in s
  {
    ShuffledPermutes(s, rand, k);
    forall x
      ensures x in Shuffled(s, rand, k) <==> x in s
    {
      assert x in Shuffled(s, rand, k) <==> x in multiset(Shuffled(s, rand, k));
    }
  }

  /** `shuffle`: copies the input and swaps in place from the back. */
  method ShuffleCopy<T>(s: seq<T>, rand: nat -> UnitReal, k: nat) returns (r: seq<T>)
    ensures r == Shuffled(s, rand, k)
    ensures |r| == |s| && multiset(r) == multiset(s)
  {
    ShuffledPermutes(s, rand, k);
    if |s| <= 1 {
      return s;
    }
    r := ShuffleArray(s, rand, k);
  }

  /** The array part of `shuffle`, for inputs with at least two elements. */
  method ShuffleArray<T>(s: seq<T>, rand: nat -> UnitReal, k: nat) returns (r: seq<T>)
    requires |s| > 1
    ensures r == FisherYatesFrom(s, |s| - 1, rand, k)
  {
    var a := new T[|s|](i requires 0 <= i < |s| => s[i]);
    assert a[..] == s;
    ghost var target := FisherYatesFrom(s, |s| - 1, rand, k);
    var i := a.Length - 1;
    var used := k;
    while i > 0
      invariant 0 <= i < a.Length
      invariant FisherYatesFrom(a[..], i, rand, used) == target
      decreases i
    {
      var j := Draw(rand(used), i + 1);
      ghost var before := a[..];
      SwapAt(a, i, j);
      FisherYatesStep(before, a[..], i, rand, used, target);
      used := used + 1;
      i := i - 1;
    }
    r := a[..];
  }

  /** One round of the loop keeps the swaps still to come equal to the target. */
  lemma FisherYatesStep<T>(s: seq<T>, s': seq<T>, i: nat, rand: nat -> UnitReal, k: nat, target: seq<T>)
    requires 0 < i < |s| && FisherYatesFrom(s, i, rand, k) == target
    requires s' == Swap(s, i, Draw(rand(k), i + 1))
    ensures FisherYatesFrom(s', i - 1, rand, k + 1) == target
  {
  }

  /** One swap of the loop, in place. */
  method SwapAt<T>(a: array<T>, i: nat, j: nat)
    requires i < a.Length && j < a.Length
    modifies a
    ensures a[..] == Swap(old(a[..]), i, j)
  {
    var t := a[i];
    a[i] := a[j];
    a[j] := t;
  }
}
