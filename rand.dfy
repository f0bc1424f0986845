/**
 * The random source and the `random` extension on iterators.
 * The generator is a stream of raw draws; `gen_range` maps a draw into its range.
 */
module Rand {
  import opened Wrappers

  /**
   * `Rng::gen_range(lo, hi)` for one raw draw: a value in the half-open range [lo, hi),
   * or None, the panic the random crate raises when lo >= hi.
   */
  function Sample(raw: nat, lo: int, hi: int): (r: Option<int>)
    ensures r.Some? <==> lo < hi
    ensures r.Some? ==> lo <= r.value < hi
  {
    if lo < hi then Some(lo + Wrap(raw, hi - lo)) else None
  }

  /** A draw lands on `lo` plus the draw's remainder modulo the width of the range. */
  lemma SampleIsOffset(raw: nat, lo: int, hi: int)
    requires lo < hi
    ensures Sample(raw, lo, hi) == Some(lo + raw % (hi - lo))
  {
    WrapIsMod(raw, hi - lo);
  }

  /**
   * The remainder of `raw` divided by `n`, by repeated subtraction. `Sample` uses it instead of
   * `%` because its contract is all the generator proofs need, which keeps nonlinear remainder
   * arithmetic out of them; `WrapIsMod` shows it is `raw % n`.
   */
  function Wrap(raw: nat, n: nat): (r: nat)
    requires n > 0
    ensures r < n
    decreases raw
  {
    if raw < n then raw else Wrap(raw - n, n)
  }

  /** `Wrap` is the remainder operator. */
  lemma {:induction false} WrapIsMod(raw: nat, n: nat)
    requires n > 0
    ensures Wrap(raw, n) == raw % n
    decreases raw
  {
    if raw >= n {
      WrapIsMod(raw - n, n);
      var q, r := (raw - n) / n, (raw - n) % n;
      assert raw == (q + 1) * n + r;
      ModUnique(raw, n, q + 1, r);
    }
  }

  /** A remainder in [0, n) with some quotient is the remainder. */
  lemma ModUnique(a: int, n: int, q: int, r: int)
    requires n > 0 && 0 <= r < n && a == q * n + r
    ensures a % n == r
  {
    var q', r' := a / n, a % n;
    assert q' * n + r' == q * n + r;
    var d := q - q';
    assert d * n == q * n - q' * n;
    assert d * n == r' - r;
    assert d * n == (d - 1) * n + n && d >= 1 ==> (d - 1) * n >= 0;
    assert -d * n == (-d - 1) * n + n && d <= -1 ==> (-d - 1) * n >= 0;
  }

  /** Every value of a non-empty range is the outcome of some draw. */
  lemma SampleReaches(lo: int, hi: int, v: int)
    requires lo <= v < hi
    ensures Sample(v - lo, lo, hi) == Some(v)
  {
  }

  /** A random number generator owned by one generation run; each `gen_range` consumes one raw draw. */
  class Rng {
    const stream: nat -> nat
    var cursor: nat

    constructor (stream: nat -> nat)
      ensures this.stream == stream && cursor == 0
    {
      this.stream := stream;
      cursor := 0;
    }

    method GenRange(lo: int, hi: int) returns (r: Option<int>)
      modifies this
      ensures r == Sample(stream(old(cursor)), lo, hi)
      ensures cursor == old(cursor) + 1
    {
      r := Sample(stream(cursor), lo, hi);
      cursor := cursor + 1;
    }
  }

  /**
   * The position `IterRandomExt::random` picks in a sequence of `len` elements:
   * it asserts that there is an element, then draws from gen_range(0, len - 1), so it
   * never picks the last position and panics (None) unless there are two elements.
   */
  function RandomIndex(len: nat, raw: nat): (r: Option<nat>)
    ensures r.Some? <==> len >= 2
    ensures r.Some? ==> r.value < len - 1
  {
    if len == 0 then None
    else
      match Sample(raw, 0, len - 1)
      case None => None
      case Some(i) => Some(i)
  }

  /** Exactly the positions below `len - 1` can be picked, for every length. */
  lemma RandomIndexReach(len: nat, i: nat)
    ensures (exists raw: nat :: RandomIndex(len, raw) == Some(i)) <==> i < len - 1
  {
    if i < len - 1 {
      SampleReaches(0, len - 1, i);
      assert RandomIndex(len, i) == Some(i);
    }
  }

  /**
   * `IterRandomExt::random` for one raw draw: the element at the drawn position; None
   * when the collected elements are empty (the failed assertion) or a single one.
   */
  function Random<T>(s: seq<T>, raw: nat): (r: Option<T>)
    ensures r.Some? <==> |s| >= 2
    ensures r.Some? ==> r.value in s[..|s| - 1]
  {
    match RandomIndex(|s|, raw)
    case None => None
    case Some(i) => Some(s[i])
  }

  /**
   * `random(rng)` on a collected sequence: the non-emptiness assertion, one draw, then
   * the element it selects.
   */
  method RandomElement<T>(s: seq<T>, rng: Rng) returns (r: Option<T>)
    modifies rng
    ensures r == Random(s, rng.stream(old(rng.cursor)))
    ensures r.Some? ==> rng.cursor == old(rng.cursor) + 1
  {
    if |s| == 0 {
      return None;
    }
    var i := rng.GenRange(0, |s| - 1);
    if i.None? {
      return None;
    }
    r := Some(s[i.value]);
  }
}
