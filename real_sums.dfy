/**
 * Sums of lists of reals, and the facts about them that bound a weighted
 * average: the sum is monotone, commutes with scaling, and a sum of terms
 * each between lo and hi times a weight lies between lo and hi times the
 * total weight.
 */
module RealSums {
  /** The sum of a list of reals, from the first to the last. */
  function Total(xs: seq<real>): real
  {
    if xs == [] then 0.0 else Total(xs[..|xs| - 1]) + xs[|xs| - 1]
  }

  /** Every element of `xs` multiplied by `k`. */
  function Scaled(xs: seq<real>, k: real): seq<real>
  {
    seq(|xs|, i requires 0 <= i < |xs| => k * xs[i])
  }

  lemma {:induction false} TotalPositive(xs: seq<real>)
    requires forall i :: 0 <= i < |xs| ==> 0.0 < xs[i]
    ensures 0.0 <= Total(xs)
    ensures xs != [] ==> 0.0 < Total(xs)
  {
    if xs != [] {
      TotalPositive(xs[..|xs| - 1]);
    }
  }

  /** The sum is monotone in every element. */
  lemma {:induction false} TotalMonotone(xs: seq<real>, ys: seq<real>)
    requires |xs| == |ys|
    requires forall i :: 0 <= i < |xs| ==> xs[i] <= ys[i]
    ensures Total(xs) <= Total(ys)
  {
    if xs != [] {
      TotalMonotone(xs[..|xs| - 1], ys[..|ys| - 1]);
    }
  }

  lemma {:induction false} ScaledPrefix(xs: seq<real>, k: real, n: nat)
    requires n <= |xs|
    ensures Scaled(xs, k)[..n] == Scaled(xs[..n], k)
  {
    assert |Scaled(xs, k)[..n]| == n;
    assert forall i :: 0 <= i < n ==> Scaled(xs, k)[..n][i] == Scaled(xs[..n], k)[i];
  }

  /** The induction step of `TotalScaled`, on plain numbers. */
  lemma {:induction false} ScaledStep(k: real, t0: real, x: real, t: real, s0: real, s: real)
    requires s0 == k * t0 && t == t0 + x && s == s0 + k * x
    ensures s == k * t
  {
  }

  /** Scaling every element scales the sum. */
  lemma {:induction false} TotalScaled(xs: seq<real>, k: real)
    ensures Total(Scaled(xs, k)) == k * Total(xs)
  {
    if xs != [] {
      var n := |xs| - 1;
      TotalScaled(xs[..n], k);
      ScaledPrefix(xs, k, n);
      ScaledStep(k, Total(xs[..n]), xs[n], Total(xs), Total(Scaled(xs[..n], k)), Total(Scaled(xs, k)));
    }
  }

  /** Terms bounded element by element by the scaled weights sum to between the scaled totals. */
  lemma {:induction false} ScaledSumsBetween(ts: seq<real>, ws: seq<real>, lo: real, hi: real)
    requires |ts| == |ws|
    requires forall i :: 0 <= i < |ws| ==> Scaled(ws, lo)[i] <= ts[i] <= Scaled(ws, hi)[i]
    ensures Total(Scaled(ws, lo)) <= Total(ts) <= Total(Scaled(ws, hi))
  {
    TotalMonotone(Scaled(ws, lo), ts);
    TotalMonotone(ts, Scaled(ws, hi));
  }

  /** A sum between the scaled totals lies between lo and hi times the total. */
  lemma {:induction false} BetweenScaledTotals(ts: seq<real>, ws: seq<real>, lo: real, hi: real)
    requires Total(Scaled(ws, lo)) <= Total(ts) <= Total(Scaled(ws, hi))
    ensures lo * Total(ws) <= Total(ts) <= hi * Total(ws)
  {
    TotalScaled(ws, lo);
    TotalScaled(ws, hi);
  }

  lemma {:induction false} QuotientWithin(s: real, w: real, lo: real, hi: real)
    requires 0.0 < w
    requires lo * w <= s <= hi * w
    ensures lo <= s / w <= hi
  {
  }

  /**
   * Terms bounded element by element by lo and hi times non-negative weights
   * sum to between lo and hi times the total weight.
   */
  lemma {:induction false} TotalsWithin(ts: seq<real>, ws: seq<real>, lo: real, hi: real)
    requires |ts| == |ws|
    requires forall i :: 0 <= i < |ws| ==> Scaled(ws, lo)[i] <= ts[i] <= Scaled(ws, hi)[i]
    ensures lo * Total(ws) <= Total(ts) <= hi * Total(ws)
  {
    ScaledSumsBetween(ts, ws, lo, hi);
    BetweenScaledTotals(ts, ws, lo, hi);
  }

  /**
   * The weighted average `Total(ts) / Total(ws)` of terms each between lo
   * and hi times its weight lies between lo and hi.
   */
  lemma {:induction false} AverageBetween(ts: seq<real>, ws: seq<real>, lo: real, hi: real)
    requires |ts| == |ws| && 0.0 < Total(ws)
    requires forall i :: 0 <= i < |ws| ==> Scaled(ws, lo)[i] <= ts[i] <= Scaled(ws, hi)[i]
    ensures lo <= Total(ts) / Total(ws) <= hi
  {
    var s, w := Total(ts), Total(ws);
    TotalsWithin(ts, ws, lo, hi);
    QuotientWithin(s, w, lo, hi);
  }
}
