/** The piece bag: an array holding each of the seven kinds once, reshuffled
    in place. The random draws are parameters: `js[i]` is the index the
    shuffle swaps with at step `i`, as `Math.floor(Math.random() * i)`
    produces it (0 at step 0, some j < i otherwise). */
module Bag {

  const BagSize := 7

  /** The seven kinds, each exactly once. */
  predicate IsBag(s: seq<int>)
  {
    |s| == BagSize && multiset(s) == multiset{0, 1, 2, 3, 4, 5, 6}
  }

  /** Swap indices the shuffle can draw: 0 at step 0 and below `i` at step `i`. */
  predicate ValidSwaps(js: seq<int>)
  {
    forall i :: 0 <= i < |js| ==> 0 <= js[i] && (if i == 0 then js[i] == 0 else js[i] < i)
  }

  function Swap(s: seq<int>, i: int, j: int): seq<int>
    requires 0 <= i < |s| && 0 <= j < |s|
  {
    s[i := s[j]][j := s[i]]
  }

  /** Steps n - 1 down to 0 of the shuffle loop. */
  function ShuffleDown(s: seq<int>, js: seq<int>, n: int): (u: seq<int>)
    requires 0 <= n <= |s| == |js| && ValidSwaps(js)
    ensures |u| == |s|
    decreases n
  {
    if n == 0 then s else ShuffleDown(Swap(s, n - 1, js[n - 1]), js, n - 1)
  }

  /** The whole shuffle: steps |s| - 1 down to 0. */
  function Shuffled(s: seq<int>, js: seq<int>): seq<int>
    requires |s| == |js| && ValidSwaps(js)
  {
    ShuffleDown(s, js, |s|)
  }

  /** The shuffle, in place, as main.js runs it. */
  method Shuffle(a: array<int>, js: seq<int>)
    requires |js| == a.Length && ValidSwaps(js)
    modifies a
    ensures a[..] == Shuffled(old(a[..]), js)
  {
    var i := a.Length - 1;
    while i >= 0
      invariant -1 <= i < a.Length
      invariant ShuffleDown(a[..], js, i + 1) == Shuffled(old(a[..]), js)
    {
      var j := js[i];
      ghost var before := a[..];
      a[i], a[j] := a[j], a[i];
      assert a[..] == Swap(before, i, j);
      i := i - 1;
    }
  }

  lemma {:induction false} ShuffleDownPermutes(s: seq<int>, js: seq<int>, n: int)
    requires 0 <= n <= |s| == |js| && ValidSwaps(js)
    ensures multiset(ShuffleDown(s, js, n)) == multiset(s)
    decreases n
  {
    if n > 0 {
      ShuffleDownPermutes(Swap(s, n - 1, js[n - 1]), js, n - 1);
    }
  }

  /** Whatever the draws, a bag stays a bag: each kind exactly once. */
  lemma ShuffledIsBag(s: seq<int>, js: seq<int>)
    requires IsBag(s) && |s| == |js| && ValidSwaps(js)
    ensures IsBag(Shuffled(s, js))
  {
    ShuffleDownPermutes(s, js, |s|);
  }

  /** Every slot of a bag holds a kind. */
  lemma BagHoldsKinds(s: seq<int>)
    requires IsBag(s)
    ensures forall k :: 0 <= k < |s| ==> 0 <= s[k] < BagSize
  {
    forall k | 0 <= k < |s| ensures 0 <= s[k] < BagSize {
      assert s[k] in multiset(s);
    }
  }

  predicate Distinct(s: seq<int>)
  {
    forall a, b :: 0 <= a < b < |s| ==> s[a] != s[b]
  }

  lemma RepeatCounted(s: seq<int>, a: int, b: int)
    requires 0 <= a < b < |s|
    ensures s[a] == s[b] ==> multiset(s)[s[a]] >= 2
  {
    assert s == s[..b] + [s[b]] + s[b + 1..];
    assert s[a] in s[..b];
    assert multiset(s) == multiset(s[..b]) + multiset{s[b]} + multiset(s[b + 1..]);
  }

  lemma BagDistinct(s: seq<int>)
    requires IsBag(s)
    ensures Distinct(s)
  {
    forall a, b | 0 <= a < b < |s| ensures s[a] != s[b] {
      RepeatCounted(s, a, b);
      assert s[a] in multiset(s);
    }
  }

  /** Progress of the shuffle loop against the order `o` it started from:
      below `n`, every slot holds its own kind or one that started at `n`
      or above; from `n` up, no slot holds its own kind. */
  ghost predicate Scrambled(o: seq<int>, s: seq<int>, n: int)
  {
    |s| == |o| && 0 <= n <= |o| &&
    (forall k :: 0 <= k < n ==> s[k] == o[k] || s[k] in o[n..]) &&
    (forall k :: n <= k < |o| ==> s[k] != o[k])
  }

  lemma ScrambleStep(o: seq<int>, s: seq<int>, js: seq<int>, n: int)
    requires 2 <= n <= |o| == |js| && Distinct(o) && ValidSwaps(js) && Scrambled(o, s, n)
    ensures Scrambled(o, Swap(s, n - 1, js[n - 1]), n - 1)
  {
    var j := js[n - 1];
    var u := Swap(s, n - 1, j);
    assert o[n - 1..] == [o[n - 1]] + o[n..];
    forall k | 0 <= k < n - 1 ensures u[k] == o[k] || u[k] in o[n - 1..] {
      if k == j {
        assert u[k] == s[n - 1];
      }
    }
    assert u[n - 1] != o[n - 1] by {
      assert u[n - 1] == s[j];
      if s[j] in o[n..] {
        var q :| n <= q < |o| && o[q] == s[j];
      }
    }
  }

  lemma {:induction false} ScrambleFinish(o: seq<int>, s: seq<int>, js: seq<int>, n: int)
    requires 2 <= n <= |o| == |js| && Distinct(o) && ValidSwaps(js) && Scrambled(o, s, n)
    ensures forall k :: 0 <= k < |o| ==> ShuffleDown(s, js, n)[k] != o[k]
    decreases n
  {
    if n == 2 {
      var u := Swap(s, 1, 0);
      assert ShuffleDown(s, js, 2) == u by {
        assert Swap(u, 0, 0) == u;
      }
      assert u[0] == s[1] && u[1] == s[0];
      assert o[1..] == [o[1]] + o[2..];
      assert u[0] != o[0] by {
        if s[1] in o[2..] { var q :| 2 <= q < |o| && o[q] == s[1]; }
      }
      assert u[1] != o[1] by {
        if s[0] in o[2..] { var q :| 2 <= q < |o| && o[q] == s[0]; }
      }
    } else {
      ScrambleStep(o, s, js, n);
      ScrambleFinish(o, Swap(s, n - 1, js[n - 1]), js, n - 1);
    }
  }

  /** The draws are always below the step index (Sattolo's variant, not a
      uniform Fisher-Yates shuffle), so no kind ever keeps its slot: the new
      bag order shares no position with the previous one. */
  lemma ShuffledMovesEveryKind(s: seq<int>, js: seq<int>)
    requires IsBag(s) && |s| == |js| && ValidSwaps(js)
    ensures forall k :: 0 <= k < |s| ==> Shuffled(s, js)[k] != s[k]
  {
    BagDistinct(s);
    ScrambleFinish(s, s, js, |s|);
  }
}
