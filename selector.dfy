/**
 The upstream selector: the in-place Fisher-Yates shuffle and the choice of at
 most five upstreams to race. `Math.random` enters as the sequence of indices
 the shuffle swaps with, one per turn of its loop; `PicksFromDraws` shows that
 draws in [0, 1) always give such indices.
 */
module Selector {
  import opened Types

  /** At most this many upstreams are raced for one request. */
  const MAX_CONCURRENT_REQUESTS: nat := 5

  /** Multiplying by a positive factor keeps a strict order. */
  lemma MulStrictlyLess(a: real, b: real, c: real)
    requires a < b && c > 0.0
    ensures a * c < b * c
  {
  }

  /**
   `Math.floor(Math.random() * (i + 1))`: the index that a draw `r` in [0, 1)
   picks for position `i`; it never exceeds `i`.
   */
  function PickFromDraw(r: real, i: nat): (j: nat)
    requires 0.0 <= r < 1.0
    ensures j <= i
  {
    MulStrictlyLess(r, 1.0, (i + 1) as real);
    (r * (i + 1) as real).Floor
  }

  /**
   The indices a shuffle of `n` elements swaps with, one per turn of its loop:
   turn `k` handles position `n - 1 - k` and may pick any index up to it.
   */
  predicate ValidPicks(picks: seq<nat>, n: nat)
  {
    |picks| >= n - 1 &&
    forall k :: 0 <= k < n - 1 ==> picks[k] <= n - 1 - k
  }

  /** The picks that a sequence of `Math.random` draws makes for a shuffle of `n` elements. */
  function PicksFromDraws(draws: seq<real>, n: nat): (picks: seq<nat>)
    requires |draws| >= n - 1
    requires forall k :: 0 <= k < |draws| ==> 0.0 <= draws[k] < 1.0
    ensures ValidPicks(picks, n)
  {
    seq(if n == 0 then 0 else n - 1, k requires 0 <= k < n - 1 => PickFromDraw(draws[k], n - 1 - k))
  }

  /** The elements of `s` at positions `i` and `j` exchanged. */
  function Swap<T>(s: seq<T>, i: nat, j: nat): (t: seq<T>)
    requires i < |s| && j < |s|
    ensures |t| == |s| && t[i] == s[j] && t[j] == s[i]
    ensures forall k :: 0 <= k < |s| && k != i && k != j ==> t[k] == s[k]
  {
    s[i := s[j]][j := s[i]]
  }

  /** No element occurs twice. */
  predicate Distinct<T(==)>(s: seq<T>)
  {
    forall p, q :: 0 <= p < q < |s| ==> s[p] != s[q]
  }

  /** Swapping two positions keeps a duplicate-free sequence duplicate-free. */
  lemma SwapKeepsDistinct<T>(s: seq<T>, i: nat, j: nat)
    requires i < |s| && j < |s| && Distinct(s)
    ensures Distinct(Swap(s, i, j))
  {
  }

  /**
   The loop of the shuffle from position `i` downwards: swap position `i` with
   the index of pick number `|s| - 1 - i`, then carry on with `i - 1`,
   stopping once `i` reaches 0.
   */
  function ShuffleDown<T(==)>(s: seq<T>, i: int, picks: seq<nat>): (r: seq<T>)
    requires -1 <= i < |s|
    requires ValidPicks(picks, |s|)
    ensures |r| == |s|
    decreases i + 1
  {
    if i <= 0 then s
    else ShuffleDown(Swap(s, i, picks[|s| - 1 - i]), i - 1, picks)
  }

  /** The loop only swaps, so it ends with the same elements, each as often as before. */
  lemma {:induction false} ShuffleDownPermutes<T>(s: seq<T>, i: int, picks: seq<nat>)
    requires -1 <= i < |s|
    requires ValidPicks(picks, |s|)
    ensures multiset(ShuffleDown(s, i, picks)) == multiset(s)
    decreases i + 1
  {
    if i > 0 {
      ShuffleDownPermutes(Swap(s, i, picks[|s| - 1 - i]), i - 1, picks);
    }
  }

  /** The loop never duplicates an element of a duplicate-free sequence. */
  lemma {:induction false} ShuffleDownKeepsDistinct<T>(s: seq<T>, i: int, picks: seq<nat>)
    requires -1 <= i < |s|
    requires ValidPicks(picks, |s|)
    requires Distinct(s)
    ensures Distinct(ShuffleDown(s, i, picks))
    decreases i + 1
  {
    if i > 0 {
      SwapKeepsDistinct(s, i, picks[|s| - 1 - i]);
      ShuffleDownKeepsDistinct(Swap(s, i, picks[|s| - 1 - i]), i - 1, picks);
    }
  }

  /** The whole of `shuffleArray` on the sequence `s`: a permutation of `s`. */
  function Shuffled<T(==)>(s: seq<T>, picks: seq<nat>): (r: seq<T>)
    requires ValidPicks(picks, |s|)
    ensures |r| == |s| && multiset(r) == multiset(s)
    ensures Distinct(s) ==> Distinct(r)
  {
    ShuffleDownPermutes(s, |s| - 1, picks);
    if Distinct(s) then
      ShuffleDownKeepsDistinct(s, |s| - 1, picks);
      ShuffleDown(s, |s| - 1, picks)
    else ShuffleDown(s, |s| - 1, picks)
  }

  /**
   `shuffleArray`: for `i` from the last index down to 1, swap `a[i]` with
   `a[j]` for the supplied pick `j`, where `0 <= j <= i`.
   */
  method Shuffle<T(==)>(a: array<T>, picks: seq<nat>)
    requires ValidPicks(picks, a.Length)
    modifies a
    ensures a[..] == Shuffled(old(a[..]), picks)
    ensures multiset(a[..]) == multiset(old(a[..]))
  {
    var i := a.Length - 1;
    while i > 0
      invariant -1 <= i < a.Length
      invariant ShuffleDown(a[..], i, picks) == Shuffled(old(a[..]), picks)
    {
      var j := picks[a.Length - 1 - i];
      ghost var before := a[..];
      a[i], a[j] := a[j], a[i];
      assert a[..] == Swap(before, i, j);
      i := i - 1;
    }
  }

  /** A prefix holds no element more often than the whole sequence. */
  lemma PrefixSubMultiset<T>(s: seq<T>, n: nat)
    requires n <= |s|
    ensures multiset(s[..n]) <= multiset(s)
  {
    assert s == s[..n] + s[n..];
  }

  /**
   The upstreams raced for one request: the whole list in its own order when
   it has at most five entries, otherwise the first five of a shuffled copy.
   */
  function Selection(upstreams: seq<Url>, picks: seq<nat>): (selected: seq<Url>)
    requires ValidPicks(picks, |upstreams|)
    ensures |upstreams| <= MAX_CONCURRENT_REQUESTS ==> selected == upstreams
    ensures |upstreams| > MAX_CONCURRENT_REQUESTS ==> |selected| == MAX_CONCURRENT_REQUESTS
    ensures |selected| <= MAX_CONCURRENT_REQUESTS
    ensures multiset(selected) <= multiset(upstreams)
    ensures forall u :: u in selected ==> u in upstreams
    ensures Distinct(upstreams) ==> Distinct(selected)
  {
    if |upstreams| <= MAX_CONCURRENT_REQUESTS then upstreams
    else
      var shuffled := Shuffled(upstreams, picks);
      PrefixSubMultiset(shuffled, MAX_CONCURRENT_REQUESTS);
      var selected := shuffled[..MAX_CONCURRENT_REQUESTS];
      assert forall u :: u in selected ==> u in multiset(upstreams);
      selected
  }

  /**
   The selection in `makeConcurrentRequests`: the configured list itself, or,
   above five entries, a copy of it shuffled in place and cut to five. The
   configured array is only read.
   */
  method SelectUpstreams(upstreams: array<Url>, picks: seq<nat>) returns (selected: seq<Url>)
    requires ValidPicks(picks, upstreams.Length)
    ensures selected == Selection(upstreams[..], picks)
  {
    if upstreams.Length > MAX_CONCURRENT_REQUESTS {
      var copy := new Url[upstreams.Length](i requires 0 <= i < upstreams.Length reads upstreams => upstreams[i]);
      assert copy[..] == upstreams[..];
      Shuffle(copy, picks);
      selected := copy[..MAX_CONCURRENT_REQUESTS];
    } else {
      selected := upstreams[..];
    }
  }
}
