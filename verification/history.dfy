/** The bounded, recency-ordered lists the engine keeps: the alert list and
    log history (newest first, truncated at the tail) and the chart series
    (oldest first, truncated at the head). */
module History {

  function Min(a: int, b: int): int {
    if a <= b then a else b
  }

  /** The first `n` elements, or all of them when there are fewer. */
  function Take<T>(xs: seq<T>, n: nat): (r: seq<T>)
    ensures |r| == Min(n, |xs|)
    ensures r == xs[..|r|]
  {
    xs[..Min(n, |xs|)]
  }

  /** The last `n` elements, or all of them when there are fewer; a bound of
      zero keeps the whole list. */
  function TakeLast<T>(xs: seq<T>, n: nat): (r: seq<T>)
    ensures n > 0 ==> |r| == Min(n, |xs|)
    ensures n == 0 ==> r == xs
    ensures |r| <= |xs| && r == xs[|xs| - |r|..]
  {
    if n == 0 then xs else xs[|xs| - Min(n, |xs|)..]
  }

  function Reverse<T>(xs: seq<T>): (r: seq<T>)
    ensures |r| == |xs|
    ensures forall i :: 0 <= i < |xs| ==> r[i] == xs[|xs| - 1 - i]
  {
    if xs == [] then [] else Reverse(xs[1..]) + [xs[0]]
  }

  /** Puts `x` at the front and cuts the list to `cap` elements, dropping the
      oldest from the end. */
  function Prepend<T>(x: T, xs: seq<T>, cap: nat): (r: seq<T>)
    ensures |r| == Min(cap, |xs| + 1)
    ensures cap > 0 ==> r[0] == x && r[1..] == xs[..|r| - 1]
  {
    Take([x] + xs, cap)
  }

  /** Puts `x` at the back and cuts the list to its last `cap` elements,
      dropping the oldest from the front. */
  function Append<T>(xs: seq<T>, x: T, cap: nat): (r: seq<T>)
    ensures |r| <= |xs| + 1
    ensures cap > 0 ==> |r| == Min(cap, |xs| + 1) && r[|r| - 1] == x && r[..|r| - 1] == xs[|xs| + 1 - |r|..]
  {
    TakeLast(xs + [x], cap)
  }

  /** Prepends the elements of `ys` one at a time, in order, truncating after each. */
  function PrependAll<T>(xs: seq<T>, ys: seq<T>, cap: nat): seq<T>
    decreases |ys|
  {
    if ys == [] then xs else PrependAll(Prepend(ys[0], xs, cap), ys[1..], cap)
  }

  /** Truncating an inner list before truncating the whole to the same bound changes nothing. */
  lemma TakeOfTake<T>(a: seq<T>, b: seq<T>, cap: nat)
    ensures Take(a + Take(b, cap), cap) == Take(a + b, cap)
  {
    var l := Take(a + Take(b, cap), cap);
    var r := Take(a + b, cap);
    assert |l| == |r|;
    forall i | 0 <= i < |l|
      ensures l[i] == r[i]
    {
      if i >= |a| {
        assert (a + Take(b, cap))[i] == Take(b, cap)[i - |a|];
      }
    }
  }

  /** Prepends a whole batch at once: the batch reversed (its last element
      first) in front of the list, cut to `cap`; an empty batch leaves the
      list as it is. */
  function PrependBatch<T>(xs: seq<T>, ys: seq<T>, cap: nat): seq<T> {
    if ys == [] then xs else Take(Reverse(ys) + xs, cap)
  }

  /** Prepending several elements one by one, truncating after each, is
      prepending the batch at once: the element prepended last ends up at
      index 0. */
  lemma {:induction false} PrependAllIsBatch<T>(xs: seq<T>, ys: seq<T>, cap: nat)
    ensures PrependAll(xs, ys, cap) == PrependBatch(xs, ys, cap)
    decreases |ys|
  {
    if ys != [] {
      var xs' := Prepend(ys[0], xs, cap);
      PrependAllIsBatch(xs', ys[1..], cap);
      assert Reverse(ys) == Reverse(ys[1..]) + [ys[0]];
      if ys[1..] == [] {
        assert Reverse(ys) + xs == [ys[0]] + xs;
        assert Take(xs', cap) == xs';
      } else {
        TakeOfTake(Reverse(ys[1..]), [ys[0]] + xs, cap);
        assert Reverse(ys[1..]) + ([ys[0]] + xs) == Reverse(ys) + xs;
      }
    }
  }

  /** After prepending a batch in reverse, its elements lead the truncated
      list, last one first, and the previous list follows. */
  lemma TakeReverseIndex<T>(ys: seq<T>, xs: seq<T>, cap: nat, k: nat)
    requires k < Min(cap, |ys| + |xs|)
    ensures k < |ys| ==> Take(Reverse(ys) + xs, cap)[k] == ys[|ys| - 1 - k]
    ensures k >= |ys| ==> Take(Reverse(ys) + xs, cap)[k] == xs[k - |ys|]
  {
    var rev := Reverse(ys);
    assert Take(rev + xs, cap)[k] == (rev + xs)[k];
  }
}
