/** Small shared vocabulary: an optional value, Python's negative-index
    slice `s[-k:]`, and the arithmetic mean used by the experiment loop. */
module Base {

  /** A value that may be absent; `None` also stands for "the Python call raised". */
  datatype Option<T> = None | Some(value: T)

  /** Python's `s[-k:]` for `k > 0`: the last `k` elements, or all of `s` when it is shorter. */
  function LastN<T>(s: seq<T>, k: nat): (r: seq<T>)
    ensures |r| == if |s| <= k then |s| else k
    ensures r == s[|s| - |r|..]
  {
    if |s| <= k then s else s[|s| - k..]
  }

  /** `a` is what remains of `b` after dropping some leading elements. */
  predicate IsSuffix<T(==)>(a: seq<T>, b: seq<T>)
  {
    |a| <= |b| && a == b[|b| - |a|..]
  }

  /** Taking the last `k` twice is the same as taking it once. */
  lemma LastNIdempotent<T>(s: seq<T>, k: nat)
    ensures LastN(LastN(s, k), k) == LastN(s, k)
  {
  }

  /** Appending one element and keeping the last `k` equals keeping the last `k` of the longer sequence. */
  lemma {:induction false} LastNAppend<T>(s: seq<T>, x: T, k: nat)
    requires k > 0
    ensures LastN(LastN(s, k) + [x], k) == LastN(s + [x], k)
  {
    var t := LastN(s, k);
    assert t == s[|s| - |t|..];
    if |s| > k {
      assert |t| == k;
      assert (t + [x])[1..] == (s + [x])[|s| + 1 - k..];
    }
  }

  function Sum(s: seq<int>): int
  {
    if |s| == 0 then 0 else Sum(s[..|s| - 1]) + s[|s| - 1]
  }

  /** Python's `sum(s) / len(s)` over exact reals, with 0 for an empty `s`
      (the code guards the division with `if s:` and substitutes 0.0). */
  function MeanOrZero(s: seq<int>): real
  {
    if |s| == 0 then 0.0 else Sum(s) as real / |s| as real
  }

  /** Every element between `lo` and `hi` bounds the sum between `|s| * lo` and `|s| * hi`. */
  lemma {:induction false} SumBounds(s: seq<int>, lo: int, hi: int)
    requires forall i :: 0 <= i < |s| ==> lo <= s[i] <= hi
    ensures |s| * lo <= Sum(s) <= |s| * hi
  {
    if |s| > 0 {
      SumBounds(s[..|s| - 1], lo, hi);
      assert s[|s| - 1] == s[|s| - 1];
    }
  }

  /** The mean of a non-empty sequence lies between its lower and upper bound. */
  lemma MeanBounds(s: seq<int>, lo: int, hi: int)
    requires |s| > 0
    requires forall i :: 0 <= i < |s| ==> lo <= s[i] <= hi
    ensures lo as real <= MeanOrZero(s) <= hi as real
  {
    SumBounds(s, lo, hi);
    var n := |s| as real;
    RealOfProduct(|s|, lo);
    RealOfProduct(|s|, hi);
    assert MeanOrZero(s) == Sum(s) as real / n;
    QuotientBounds(Sum(s) as real, n, lo as real, hi as real);
  }

  lemma RealOfProduct(a: int, b: int)
    ensures (a * b) as real == a as real * b as real
  {
  }

  /** `n * lo <= a <= n * hi` with `n > 0` puts `a / n` between `lo` and `hi`. */
  lemma QuotientBounds(a: real, n: real, lo: real, hi: real)
    requires n > 0.0 && n * lo <= a <= n * hi
    ensures lo <= a / n <= hi
  {
    var q := a / n;
    assert q * n == a;
    assert (q - lo) * n == a - n * lo >= 0.0;
    assert (hi - q) * n == n * hi - a >= 0.0;
  }

  /** The mean of `n` copies of `c` is `c`. */
  lemma {:induction false} MeanOfConstant(s: seq<int>, c: int)
    requires |s| > 0
    requires forall i :: 0 <= i < |s| ==> s[i] == c
    ensures MeanOrZero(s) == c as real
  {
    MeanBounds(s, c, c);
  }
}
