/** Shared vocabulary: an option type and the arithmetic over price sequences
    (sum, mean, extremes) that several components compute. Prices are exact
    reals; the source's floating point and `round(x, 2)` are not modelled. */
module Common {

  datatype Option<+T> = None | Some(value: T) {
    function GetOr(default: T): T {
      match this
      case Some(v) => v
      case None => default
    }
  }

  function Max(a: real, b: real): real { if a >= b then a else b }
  function Min(a: real, b: real): real { if a <= b then a else b }

  /** Sum of a sequence, peeling the last element (the order Python's `sum` adds in). */
  function Sum(s: seq<real>): real
    decreases |s|
  {
    if |s| == 0 then 0.0 else Sum(s[..|s| - 1]) + s[|s| - 1]
  }

  function Mean(s: seq<real>): real
    requires |s| > 0
  {
    Sum(s) / (|s| as real)
  }

  /** Largest element, folded left to right like Python's `max`. */
  function MaxOf(s: seq<real>): (m: real)
    requires |s| > 0
    ensures forall i :: 0 <= i < |s| ==> s[i] <= m
    ensures exists i :: 0 <= i < |s| && s[i] == m
    decreases |s|
  {
    if |s| == 1 then s[0]
    else
      var m' := MaxOf(s[..|s| - 1]);
      assert forall i :: 0 <= i < |s| - 1 ==> s[..|s| - 1][i] == s[i];
      Max(m', s[|s| - 1])
  }

  /** Smallest element, folded left to right like Python's `min`. */
  function MinOf(s: seq<real>): (m: real)
    requires |s| > 0
    ensures forall i :: 0 <= i < |s| ==> m <= s[i]
    ensures exists i :: 0 <= i < |s| && s[i] == m
    decreases |s|
  {
    if |s| == 1 then s[0]
    else
      var m' := MinOf(s[..|s| - 1]);
      assert forall i :: 0 <= i < |s| - 1 ==> s[..|s| - 1][i] == s[i];
      Min(m', s[|s| - 1])
  }

  lemma {:induction false} SumAppend(a: seq<real>, b: seq<real>)
    ensures Sum(a + b) == Sum(a) + Sum(b)
    decreases |b|
  {
    if |b| == 0 {
      assert a + b == a;
    } else {
      assert (a + b)[..|a + b| - 1] == a + b[..|b| - 1];
      SumAppend(a, b[..|b| - 1]);
    }
  }

  /** Every element lies between lo and hi, so the sum lies between n·lo and n·hi. */
  lemma {:induction false} SumBounds(s: seq<real>, lo: real, hi: real)
    requires forall i :: 0 <= i < |s| ==> lo <= s[i] <= hi
    ensures (|s| as real) * lo <= Sum(s) <= (|s| as real) * hi
    decreases |s|
  {
    if |s| > 0 {
      var n := (|s| - 1) as real;
      var init := s[..|s| - 1];
      assert forall i :: 0 <= i < |init| ==> init[i] == s[i];
      SumBounds(init, lo, hi);
      assert Sum(s) == Sum(init) + s[|s| - 1];
      assert |s| as real == n + 1.0;
      MulSucc(n, lo);
      MulSucc(n, hi);
    }
  }

  lemma MulSucc(n: real, x: real)
    ensures (n + 1.0) * x == n * x + x
  {
  }

  /** Dividing both sides of `n·a <= t` by a positive `n`. */
  lemma DivideBounds(a: real, t: real, b: real, n: real)
    requires n > 0.0
    requires n * a <= t <= n * b
    ensures a <= t / n <= b
  {
    assert t / n * n == t;
  }

  /** Bounds on every element bound the mean. */
  lemma MeanBounds(s: seq<real>, lo: real, hi: real)
    requires |s| > 0
    requires forall i :: 0 <= i < |s| ==> lo <= s[i] <= hi
    ensures lo <= Mean(s) <= hi
  {
    SumBounds(s, lo, hi);
    DivideBounds(lo, Sum(s), hi, |s| as real);
  }

  /** The mean of a non-empty sequence lies between its minimum and its maximum. */
  lemma MeanWithinExtremes(s: seq<real>)
    requires |s| > 0
    ensures MinOf(s) <= Mean(s) <= MaxOf(s)
  {
    MeanBounds(s, MinOf(s), MaxOf(s));
  }

  /** A sum of positive values is positive. */
  lemma {:induction false} SumPositive(s: seq<real>)
    requires |s| > 0
    requires forall i :: 0 <= i < |s| ==> s[i] > 0.0
    ensures Sum(s) > 0.0
    decreases |s|
  {
    if |s| > 1 {
      SumPositive(s[..|s| - 1]);
    }
  }

  /** A percentage change against a positive base exceeds a threshold exactly
      when the new value exceeds the base scaled up by that threshold (and the
      same for a fall). */
  lemma ChangeExceeds(base: real, value: real, threshold: real)
    requires base > 0.0
    ensures (value - base) / base * 100.0 > threshold <==> value > base + base * threshold / 100.0
    ensures (value - base) / base * 100.0 < -threshold <==> value < base - base * threshold / 100.0
  {
    var p := (value - base) / base * 100.0;
    assert p * base == (value - base) * 100.0;
    assert base * threshold / 100.0 * 100.0 == base * threshold;
  }

  /** A sum of non-negative values is non-negative. */
  lemma {:induction false} SumNonNegative(s: seq<real>)
    requires forall i :: 0 <= i < |s| ==> s[i] >= 0.0
    ensures Sum(s) >= 0.0
    decreases |s|
  {
    if |s| > 0 {
      SumNonNegative(s[..|s| - 1]);
    }
  }

  /** Every element multiplied by the same factor. */
  function Scale(s: seq<real>, m: real): (r: seq<real>)
    ensures |r| == |s|
    ensures forall i :: 0 <= i < |s| ==> r[i] == m * s[i]
  {
    seq(|s|, i requires 0 <= i < |s| => m * s[i])
  }

  /** Scaling every element scales the sum. */
  lemma {:induction false} SumScale(s: seq<real>, m: real)
    ensures Sum(Scale(s, m)) == m * Sum(s)
    decreases |s|
  {
    if |s| > 0 {
      var init := s[..|s| - 1];
      var r, r' := Scale(s, m), Scale(init, m);
      assert forall i :: 0 <= i < |init| ==> r[..|s| - 1][i] == r'[i];
      assert r[..|s| - 1] == r';
      SumScale(init, m);
    }
  }

  /** Scaling every element scales the mean. */
  lemma MeanScale(s: seq<real>, m: real)
    requires |s| > 0
    ensures Mean(Scale(s, m)) == m * Mean(s)
  {
    SumScale(s, m);
    var n := |s| as real;
    assert m * Sum(s) / n == m * (Sum(s) / n);
  }

  /** The mean of positive values is positive. */
  lemma MeanPositive(s: seq<real>)
    requires |s| > 0
    requires forall i :: 0 <= i < |s| ==> s[i] > 0.0
    ensures Mean(s) > 0.0
  {
    SumPositive(s);
  }
}
