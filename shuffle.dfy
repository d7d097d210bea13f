/** The Fisher-Yates shuffle the memorize view (`shuffleArray`) and the word
    list page use, with `Math.random` replaced by a tape of draws: the draw
    `d` consumed at index `i` picks the partner `j = d % (i + 1)`, just as
    `Math.floor(Math.random() * (i + 1))` picks some `j` in `[0, i]`. */
module Shuffle {

  /** The next draw on the tape; an exhausted tape draws 0. */
  function Draw(tape: seq<nat>): nat
  {
    if tape == [] then 0 else tape[0]
  }

  function Rest(tape: seq<nat>): seq<nat>
  {
    if tape == [] then [] else tape[1..]
  }

  function Swap<T>(s: seq<T>, i: nat, j: nat): (r: seq<T>)
    requires i < |s| && j < |s|
    ensures |r| == |s| && r[i] == s[j] && r[j] == s[i]
  {
    s[i := s[j]][j := s[i]]
  }

  lemma SwapPermutes<T>(s: seq<T>, i: nat, j: nat)
    requires i < |s| && j < |s|
    ensures multiset(Swap(s, i, j)) == multiset(s)
  {
  }

  lemma LastSplit<T>(s: seq<T>)
    requires |s| > 0
    ensures s == s[..|s| - 1] + [s[|s| - 1]]
    ensures multiset(s) == multiset(s[..|s| - 1]) + multiset{s[|s| - 1]}
  {
    assert s == s[..|s| - 1] + [s[|s| - 1]];
  }

  /** Fisher-Yates from the last index down to 1: swap the last element of the
      unshuffled prefix with one chosen by the tape, then shuffle what is left
      of the prefix. */
  function Shuffled<T>(s: seq<T>, tape: seq<nat>): (r: seq<T>)
    ensures |r| == |s|
    decreases |s|
  {
    if |s| <= 1 then s
    else
      var i := |s| - 1;
      var t := Swap(s, i, Draw(tape) % (i + 1));
      Shuffled(t[..i], Rest(tape)) + [t[i]]
  }

  /** Whatever the tape, the shuffle's result is a permutation of its input. */
  lemma {:induction false} ShuffledPermutes<T>(s: seq<T>, tape: seq<nat>)
    ensures multiset(Shuffled(s, tape)) == multiset(s)
    decreases |s|
  {
    if |s| > 1 {
      var i := |s| - 1;
      var t := Swap(s, i, Draw(tape) % (i + 1));
      SwapPermutes(s, i, Draw(tape) % (i + 1));
      LastSplit(t);
      ShuffledPermutes(t[..i], Rest(tape));
    }
  }

  lemma ModSmall(j: nat, n: nat)
    requires j < n
    ensures j % n == j
  {
  }

  /** Drawing `j` first swaps the last element with element `j`. */
  lemma DrawFirst<T>(s: seq<T>, j: nat, tail: seq<nat>)
    requires j < |s| && |s| > 1
    ensures Shuffled(s, [j] + tail) ==
            Shuffled(Swap(s, |s| - 1, j)[..|s| - 1], tail) + [Swap(s, |s| - 1, j)[|s| - 1]]
  {
    var tape := [j] + tail;
    assert Draw(tape) == j;
    ModSmall(j, |s|);
    assert Rest(tape) == tail;
  }

  lemma SameLastSamePrefix<T>(t: seq<T>, r: seq<T>)
    requires |t| == |r| > 0 && multiset(t) == multiset(r) && t[|t| - 1] == r[|r| - 1]
    ensures multiset(t[..|t| - 1]) == multiset(r[..|r| - 1])
  {
    LastSplit(t);
    LastSplit(r);
    calc {
      multiset(t[..|t| - 1]);
      multiset(t) - multiset{t[|t| - 1]};
      multiset(r) - multiset{r[|r| - 1]};
      multiset(r[..|r| - 1]);
    }
  }

  lemma ReachedByDrawingFirst<T>(s: seq<T>, r: seq<T>, j: nat, tail: seq<nat>)
    requires |s| == |r| > 1 && j < |s|
    requires Swap(s, |s| - 1, j)[|s| - 1] == r[|r| - 1]
    requires Shuffled(Swap(s, |s| - 1, j)[..|s| - 1], tail) == r[..|r| - 1]
    ensures Shuffled(s, [j] + tail) == r
  {
    DrawFirst(s, j, tail);
    LastSplit(r);
  }

  lemma PermutationLength<T>(s: seq<T>, r: seq<T>)
    requires multiset(r) == multiset(s)
    ensures |r| == |s|
  {
    assert |r| == |multiset(r)| == |multiset(s)| == |s|;
  }

  /** A list of at most one element is its only permutation. */
  lemma SmallPermutation<T>(s: seq<T>, r: seq<T>)
    requires multiset(r) == multiset(s) && |s| <= 1
    ensures Shuffled(s, []) == r
  {
    PermutationLength(s, r);
    if |s| == 1 {
      assert s[0] in multiset(r);
      assert r == [s[0]];
    }
  }

  /** Where the last element of a permutation `r` sits in `s`. */
  lemma PartnerOfLast<T>(s: seq<T>, r: seq<T>) returns (j: nat)
    requires multiset(r) == multiset(s) && |r| > 0
    ensures j < |s| && s[j] == r[|r| - 1]
  {
    assert r[|r| - 1] in multiset(s);
    j :| 0 <= j < |s| && s[j] == r[|r| - 1];
  }

  /** Every permutation of the input is the outcome of some tape, so the tape
      stands for an arbitrary random choice and no order is privileged. */
  lemma {:induction false} EveryPermutationReachable<T>(s: seq<T>, r: seq<T>)
    requires multiset(r) == multiset(s)
    ensures exists tape :: Shuffled(s, tape) == r
    decreases |s|
  {
    PermutationLength(s, r);
    if |s| <= 1 {
      SmallPermutation(s, r);
      Witness(s, r, []);
    } else {
      var i := |s| - 1;
      var j := PartnerOfLast(s, r);
      var t := Swap(s, i, j);
      SwapPermutes(s, i, j);
      SameLastSamePrefix(t, r);
      EveryPermutationReachable(t[..i], r[..i]);
      var tail :| Shuffled(t[..i], tail) == r[..i];
      ReachedByDrawingFirst(s, r, j, tail);
      Witness(s, r, [j] + tail);
    }
  }

  lemma Witness<T>(s: seq<T>, r: seq<T>, tape: seq<nat>)
    requires Shuffled(s, tape) == r
    ensures exists t :: Shuffled(s, t) == r
  {
  }

  /** One unfolding of the recursive definition. */
  lemma UnfoldOnce<T>(u: seq<T>, tape: seq<nat>)
    requires |u| > 1
    ensures var p := Swap(u, |u| - 1, Draw(tape) % |u|);
            Shuffled(u, tape) == Shuffled(p[..|u| - 1], Rest(tape)) + [p[|u| - 1]]
  {
  }

  /** Swapping inside a prefix touches only the prefix: the first `n - 1`
      elements and the last one of the swapped prefix, followed by the
      untouched suffix, make up the swapped whole. */
  lemma SwapInPrefix<T>(s: seq<T>, n: nat, j: nat)
    requires 1 < n <= |s| && j < n
    ensures var p := Swap(s[..n], n - 1, j);
            var q := Swap(s, n - 1, j);
            p[..n - 1] == q[..n - 1] && q[n - 1..] == [p[n - 1]] + s[n..]
  {
    var p := Swap(s[..n], n - 1, j);
    var q := Swap(s, n - 1, j);
    assert p == q[..n];
  }

  /** One step of the shuffle loop, stated on the whole array contents `s`
      whose first `n` elements are still to be shuffled. */
  lemma StepUnfolds<T>(s: seq<T>, n: nat, tape: seq<nat>)
    requires 1 < n <= |s|
    ensures var q := Swap(s, n - 1, Draw(tape) % n);
            Shuffled(s[..n], tape) + s[n..] == Shuffled(q[..n - 1], Rest(tape)) + q[n - 1..]
  {
    var u := s[..n];
    var j := Draw(tape) % n;
    assert |u| == n;
    UnfoldOnce(u, tape);
    SwapInPrefix(s, n, j);
    var p := Swap(u, n - 1, j);
    AppendAssoc(Shuffled(p[..n - 1], Rest(tape)), p[n - 1], s[n..]);
  }

  lemma AppendAssoc<T>(b: seq<T>, c: T, t: seq<T>)
    ensures (b + [c]) + t == b + ([c] + t)
  {
  }

  /** The array loop's own view of the shuffle: the whole contents after the
      swaps at indices `n - 1` down to 1, with the suffix from `n` untouched. */
  function ShuffledInPlace<T>(s: seq<T>, n: nat, tape: seq<nat>): seq<T>
    requires n <= |s|
    decreases n
  {
    if n <= 1 then s
    else ShuffledInPlace(Swap(s, n - 1, Draw(tape) % n), n - 1, Rest(tape))
  }

  /** With at most one element left to shuffle nothing moves. */
  lemma InPlaceDone<T>(s: seq<T>, n: nat, tape: seq<nat>)
    requires n <= 1 && n <= |s|
    ensures ShuffledInPlace(s, n, tape) == Shuffled(s[..n], tape) + s[n..]
  {
    var u := s[..n];
    assert Shuffled(u, tape) == u;
    assert u + s[n..] == s;
  }

  /** Swapping in place agrees with the recursive definition on the prefix
      and leaves the suffix alone. */
  lemma {:induction false} InPlaceAgrees<T>(s: seq<T>, n: nat, tape: seq<nat>)
    requires n <= |s|
    ensures ShuffledInPlace(s, n, tape) == Shuffled(s[..n], tape) + s[n..]
    decreases n
  {
    if n > 1 {
      var q := Swap(s, n - 1, Draw(tape) % n);
      assert |q| == |s|;
      InPlaceAgrees(q, n - 1, Rest(tape));
      InPlaceStep(s, n, tape);
    } else {
      InPlaceDone(s, n, tape);
    }
  }

  /** The inductive step: agreement after the first swap gives agreement
      before it. */
  lemma InPlaceStep<T>(s: seq<T>, n: nat, tape: seq<nat>)
    requires 1 < n <= |s|
    requires var q := Swap(s, n - 1, Draw(tape) % n);
             ShuffledInPlace(q, n - 1, Rest(tape)) == Shuffled(q[..n - 1], Rest(tape)) + q[n - 1..]
    ensures ShuffledInPlace(s, n, tape) == Shuffled(s[..n], tape) + s[n..]
  {
    StepUnfolds(s, n, tape);
  }

  /** `shuffleArray`: copy the input into a fresh array, then swap from the
      last index down to 1. The input is left untouched. */
  method ShuffleArray<T>(xs: seq<T>, tape: seq<nat>) returns (r: seq<T>)
    ensures r == Shuffled(xs, tape)
  {
    var a := new T[|xs|](k requires 0 <= k < |xs| => xs[k]);
    var n := a.Length;
    var rest := tape;
    assert a[..] == xs;
    while n > 1
      invariant 0 <= n <= a.Length
      invariant ShuffledInPlace(a[..], n, rest) == ShuffledInPlace(xs, |xs|, tape)
    {
      var i := n - 1;
      var j := Draw(rest) % (i + 1);
      ghost var before := a[..];
      a[i], a[j] := a[j], a[i];
      assert a[..] == Swap(before, i, j);
      rest := Rest(rest);
      n := i;
    }
    r := a[..];
    InPlaceAgrees(xs, |xs|, tape);
    assert xs[..|xs|] == xs && xs[|xs|..] == [];
  }
}
