/** `shuffleArray`: a Fisher-Yates shuffle that copies its input and swaps
    elements of the copy in place, from the last position down to the second.
    The values `Math.random()` returns are a parameter, `random`, consumed in
    order: the step at position `i` uses `random[n - 1 - i]`. */
module Utils {

  /** Every draw lies in [0, 1), as `Math.random()` promises. */
  predicate ValidDraws(random: seq<real>) {
    forall k :: 0 <= k < |random| ==> 0.0 <= random[k] < 1.0
  }

  /** `r * m`, written as `m` additions of `r` so that it stays linear. */
  function Scaled(r: real, m: nat): (x: real)
    requires 0.0 <= r < 1.0
    ensures 0.0 <= x && (m > 0 ==> x < m as real)
  {
    if m == 0 then 0.0 else Scaled(r, m - 1) + r
  }

  /** `Scaled` is the product. */
  lemma {:induction false} ScaledIsProduct(r: real, m: nat)
    requires 0.0 <= r < 1.0
    ensures Scaled(r, m) == r * m as real
  {
    if m > 0 {
      ScaledIsProduct(r, m - 1);
      assert r * m as real == r * (m - 1) as real + r;
    }
  }

  /** `Math.floor(Math.random() * (i + 1))`: a position from 0 to `i`. */
  function RandomIndex(r: real, i: nat): (j: nat)
    requires 0.0 <= r < 1.0
    ensures j <= i
  {
    Scaled(r, i + 1).Floor
  }

  /** `[s[i], s[j]] = [s[j], s[i]]`. */
  function Swap<T>(s: seq<T>, i: nat, j: nat): (r: seq<T>)
    requires i < |s| && j < |s|
    ensures |r| == |s|
  {
    s[i := s[j]][j := s[i]]
  }

  /** A swap exchanges the two positions, leaves every other position alone,
      and so keeps the multiset of elements. */
  lemma SwapExchanges<T>(s: seq<T>, i: nat, j: nat)
    requires i < |s| && j < |s|
    ensures var r := Swap(s, i, j);
            && r[i] == s[j] && r[j] == s[i]
            && (forall k :: 0 <= k < |s| && k != i && k != j ==> r[k] == s[k])
            && multiset(r) == multiset(s)
  {
  }

  /** The positions the draws select, step by step: step `k` works on
      position `n - 1 - k` and swaps it with `js[k]`, one of the positions
      from 0 to `n - 1 - k`. */
  predicate IndicesFit(js: seq<nat>, n: nat) {
    |js| + 1 == n && forall k :: 0 <= k < |js| ==> js[k] <= n - 1 - k
  }

  /** The positions `Math.floor(Math.random() * (i + 1))` yields for a list of
      length `n`, in the order the loop draws them. */
  function DrawnIndices(random: seq<real>, n: nat): (js: seq<nat>)
    requires 0 < n <= |random| + 1 && ValidDraws(random)
    ensures IndicesFit(js, n)
  {
    seq(n - 1, k requires 0 <= k < n - 1 => RandomIndex(random[k], n - 1 - k))
  }

  /** The contents after the loop has run for positions `i` down to 1,
      starting from `s`. */
  function ShuffleFrom<T>(s: seq<T>, i: nat, js: seq<nat>): (r: seq<T>)
    requires i < |s| && IndicesFit(js, |s|)
    ensures |r| == |s|
    decreases i
  {
    if i == 0 then s
    else ShuffleFrom(Swap(s, i, js[|s| - 1 - i]), i - 1, js)
  }

  /** One iteration: swapping position `i` with its drawn position leaves
      the loop's remaining work to the steps from `i - 1` down. */
  lemma ShuffleStep<T>(before: seq<T>, after: seq<T>, i: nat, js: seq<nat>)
    requires 0 < i < |before| && IndicesFit(js, |before|)
    requires after == Swap(before, i, js[|before| - 1 - i])
    ensures ShuffleFrom(after, i - 1, js) == ShuffleFrom(before, i, js)
  {
  }

  /** Each swap keeps the multiset of elements, so the loop does. */
  lemma {:induction false} ShuffleFromPermutes<T>(s: seq<T>, i: nat, js: seq<nat>)
    requires i < |s| && IndicesFit(js, |s|)
    ensures multiset(ShuffleFrom(s, i, js)) == multiset(s)
    decreases i
  {
    if i > 0 {
      var t := Swap(s, i, js[|s| - 1 - i]);
      assert ShuffleFrom(s, i, js) == ShuffleFrom(t, i - 1, js);
      ShuffleFromPermutes(t, i - 1, js);
      SwapExchanges(s, i, js[|s| - 1 - i]);
    }
  }

  /** The positions above `i` are never touched by the steps from `i` down. */
  lemma {:induction false} ShuffleFromKeepsSuffix<T>(s: seq<T>, i: nat, js: seq<nat>, k: nat)
    requires i < k < |s| && IndicesFit(js, |s|)
    ensures ShuffleFrom(s, i, js)[k] == s[k]
    decreases i
  {
    if i > 0 {
      var t := Swap(s, i, js[|s| - 1 - i]);
      assert ShuffleFrom(s, i, js) == ShuffleFrom(t, i - 1, js);
      ShuffleFromKeepsSuffix(t, i - 1, js, k);
      SwapExchanges(s, i, js[|s| - 1 - i]);
    }
  }

  /** What `shuffleArray(s)` returns when `Math.random()` yields `random`:
      as many elements as `s`, and `s` itself when it has fewer than two. */
  function Shuffled<T>(s: seq<T>, random: seq<real>): (r: seq<T>)
    requires |s| <= |random| + 1 && ValidDraws(random)
    ensures |r| == |s|
    ensures |s| <= 1 ==> r == s
  {
    if |s| == 0 then s
    else ShuffleFrom(s, |s| - 1, DrawnIndices(random, |s|))
  }

  /** Whatever the draws, the shuffle is a permutation of its input. */
  lemma ShuffledPermutes<T>(s: seq<T>, random: seq<real>)
    requires |s| <= |random| + 1 && ValidDraws(random)
    ensures multiset(Shuffled(s, random)) == multiset(s)
  {
    if |s| > 0 {
      ShuffleFromPermutes(s, |s| - 1, DrawnIndices(random, |s|));
    }
  }

  /** `[a[i], a[j]] = [a[j], a[i]]` on an array. */
  method SwapInPlace<T>(a: array<T>, i: nat, j: nat)
    requires i < a.Length && j < a.Length
    modifies a
    ensures a[..] == Swap(old(a[..]), i, j)
  {
    a[i], a[j] := a[j], a[i];
  }

  /** One iteration of the loop: draw the position to swap with `i` and
      swap; what is left to do is the steps from `i - 1` down. */
  method ShuffleStepInPlace<T>(a: array<T>, random: seq<real>, i: nat, ghost js: seq<nat>)
    requires 0 < i < a.Length <= |random| + 1 && ValidDraws(random)
    requires js == DrawnIndices(random, a.Length)
    modifies a
    ensures ShuffleFrom(a[..], i - 1, js) == ShuffleFrom(old(a[..]), i, js)
  {
    var j := RandomIndex(random[a.Length - 1 - i], i);
    assert j == js[a.Length - 1 - i];
    ghost var before := a[..];
    SwapInPlace(a, i, j);
    ShuffleStep(before, a[..], i, js);
  }

  /** The loop of `shuffleArray`: from the last position down to the second,
      swap each position with the one its draw selects. */
  method ShuffleInPlace<T>(a: array<T>, random: seq<real>)
    requires 0 < a.Length <= |random| + 1 && ValidDraws(random)
    modifies a
    ensures a[..] == Shuffled(old(a[..]), random)
  {
    ghost var js := DrawnIndices(random, a.Length);
    ghost var target := ShuffleFrom(a[..], a.Length - 1, js);
    var i := a.Length - 1;
    while i > 0
      invariant 0 <= i < a.Length
      invariant ShuffleFrom(a[..], i, js) == target
    {
      ShuffleStepInPlace(a, random, i, js);
      i := i - 1;
    }
  }

  /** `shuffleArray`: the elements of `items` are copied into a new array,
      which is shuffled in place and returned. The method may modify nothing
      that existed before it ran, so `items` keeps its contents. */
  method ShuffleArray<T>(items: array<T>, random: seq<real>) returns (shuffled: seq<T>)
    requires items.Length <= |random| + 1 && ValidDraws(random)
    ensures shuffled == Shuffled(items[..], random)
    ensures |shuffled| == items.Length && multiset(shuffled) == multiset(items[..])
  {
    var copy := items[..];
    var a := new T[|copy|](k requires 0 <= k < |copy| => copy[k]);
    assert a[..] == copy;
    if a.Length > 0 {
      ShuffleInPlace(a, random);
    }
    shuffled := a[..];
    assert multiset(shuffled) == multiset(items[..]) by {
      ShuffledPermutes(items[..], random);
    }
  }
}
