/**
 * The "signal distance" between the live scan and one fingerprint, the first
 * step of `calculate_position`. Every live access point contributes the
 * squared RSSI difference when the fingerprint also saw it, and a fixed
 * penalty otherwise; the distance is the square root of the sum, or a
 * sentinel when the two share no access point. RSSI values are integers, so
 * the sum is computed exactly.
 */
module SignalDistance {

  /** `(100) ** 2`: the contribution of a live MAC that the fingerprint lacks. */
  const Penalty: int := 10000

  /** `final_dist` when the fingerprint shares no MAC with the live scan. */
  const NoMatchDistance: real := 9999999.0

  /**
   * `math.sqrt` on non-negative reals: a non-negative number whose square is
   * the argument (zero for zero). The model takes the square root as a parameter with this
   * property, since it only ever relies on it.
   */
  ghost predicate IsSqrt(sqrt: real -> real)
  {
    && sqrt(0.0) == 0.0
    && forall x :: 0.0 <= x ==> 0.0 <= sqrt(x) && Square(sqrt(x)) == x
  }

  function Square(x: real): (r: real)
    ensures 0.0 <= r
  {
    if 0.0 <= x then
      assert 0.0 * x <= x * x;
      x * x
    else
      assert 0.0 * (-x) <= (-x) * (-x);
      x * x
  }

  /** What one live MAC adds to `dist_sq_sum`. */
  function Term(live: map<string, int>, aps: map<string, int>, mac: string): (t: int)
    requires mac in live
    ensures 0 <= t
    ensures mac !in aps ==> t == Penalty
    ensures mac in aps ==> (t == 0 <==> live[mac] == aps[mac])
  {
    if mac in aps then (live[mac] - aps[mac]) * (live[mac] - aps[mac]) else Penalty
  }

  ghost function PickMac(s: set<string>): string
    requires s != {}
  {
    var m :| m in s; m
  }

  /** The sum of `Term` over the live MACs in `macs`, in no particular order. */
  ghost function SqSumOver(macs: set<string>, live: map<string, int>, aps: map<string, int>): int
    requires macs <= live.Keys
    decreases macs
  {
    if macs == {} then 0
    else
      var m := PickMac(macs);
      Term(live, aps, m) + SqSumOver(macs - {m}, live, aps)
  }

  /** `dist_sq_sum` at the end of the loop over `live_aps.items()`. */
  ghost function SqSum(live: map<string, int>, aps: map<string, int>): int
  {
    SqSumOver(live.Keys, live, aps)
  }

  /** `common_count`: how many live MACs the fingerprint also holds. */
  function CommonCount(live: map<string, int>, aps: map<string, int>): nat
  {
    |live.Keys * aps.Keys|
  }

  /** `final_dist` for one fingerprint. */
  ghost function Distance(sqrt: real -> real, live: map<string, int>, aps: map<string, int>): real
    requires IsSqrt(sqrt)
  {
    if CommonCount(live, aps) == 0 then NoMatchDistance
    else
      SqSumNonNegative(live, aps);
      sqrt(SqSum(live, aps) as real)
  }

  /** The sum does not depend on the order in which the live MACs are visited. */
  lemma {:induction false} SqSumOverPick(macs: set<string>, live: map<string, int>, aps: map<string, int>, y: string)
    requires macs <= live.Keys && y in macs
    ensures SqSumOver(macs, live, aps) == Term(live, aps, y) + SqSumOver(macs - {y}, live, aps)
    decreases macs
  {
    var x := PickMac(macs);
    if y != x {
      calc {
        SqSumOver(macs, live, aps);
      ==
        Term(live, aps, x) + SqSumOver(macs - {x}, live, aps);
      == { SqSumOverPick(macs - {x}, live, aps, y); }
        Term(live, aps, x) + Term(live, aps, y) + SqSumOver(macs - {x} - {y}, live, aps);
      == { assert macs - {x} - {y} == macs - {y} - {x};
           SqSumOverPick(macs - {y}, live, aps, x); }
        Term(live, aps, y) + SqSumOver(macs - {y}, live, aps);
      }
    }
  }

  /** Every live MAC missing from the fingerprint costs the full penalty. */
  lemma {:induction false} SqSumOverBound(macs: set<string>, live: map<string, int>, aps: map<string, int>)
    requires macs <= live.Keys
    ensures Penalty * |macs - aps.Keys| <= SqSumOver(macs, live, aps)
    decreases macs
  {
    if macs != {} {
      var m := PickMac(macs);
      SqSumOverBound(macs - {m}, live, aps);
      MissingStep(macs, aps.Keys, m);
    }
  }

  lemma {:induction false} MissingStep(macs: set<string>, keys: set<string>, m: string)
    requires m in macs
    ensures |macs - keys| == |macs - {m} - keys| + (if m in keys then 0 else 1)
  {
    if m in keys {
      assert macs - {m} - keys == macs - keys;
    } else {
      assert macs - keys == (macs - {m} - keys) + {m};
    }
  }

  lemma {:induction false} SqSumNonNegative(live: map<string, int>, aps: map<string, int>)
    ensures 0 <= SqSum(live, aps)
  {
    SqSumOverBound(live.Keys, live, aps);
  }

  /**
   * The squared sum is at least the penalty times the number of live MACs
   * the fingerprint lacks; with no MAC in common it is exactly that.
   */
  lemma {:induction false} SqSumBounds(live: map<string, int>, aps: map<string, int>)
    ensures Penalty * (|live| - CommonCount(live, aps)) <= SqSum(live, aps)
    ensures CommonCount(live, aps) == 0 ==> SqSum(live, aps) == Penalty * |live|
  {
    SqSumOverBound(live.Keys, live, aps);
    assert |live.Keys - aps.Keys| == |live.Keys| - |live.Keys * aps.Keys| by {
      assert live.Keys == (live.Keys - aps.Keys) + (live.Keys * aps.Keys);
    }
    if CommonCount(live, aps) == 0 {
      SqSumOverDisjoint(live.Keys, live, aps);
    }
  }

  lemma {:induction false} SqSumOverDisjoint(macs: set<string>, live: map<string, int>, aps: map<string, int>)
    requires macs <= live.Keys && macs * aps.Keys == {}
    ensures SqSumOver(macs, live, aps) == Penalty * |macs|
    decreases macs
  {
    if macs != {} {
      var m := PickMac(macs);
      assert m !in aps by {
        assert m in macs;
        assert m !in macs * aps.Keys;
      }
      SqSumOverDisjoint(macs - {m}, live, aps);
    }
  }

  /** Access points seen only in the fingerprint contribute nothing. */
  lemma {:induction false} SqSumOverIgnoresFingerprintOnly(
    macs: set<string>, live: map<string, int>, aps: map<string, int>, extra: map<string, int>)
    requires macs <= live.Keys && forall mac :: mac in live ==> mac !in extra
    ensures SqSumOver(macs, live, aps + extra) == SqSumOver(macs, live, aps)
    decreases macs
  {
    if macs != {} {
      var m := PickMac(macs);
      SqSumOverIgnoresFingerprintOnly(macs - {m}, live, aps, extra);
    }
  }

  lemma {:induction false} FingerprintOnlyApsIgnored(sqrt: real -> real, live: map<string, int>, aps: map<string, int>, extra: map<string, int>)
    requires IsSqrt(sqrt)
    requires forall mac :: mac in live ==> mac !in extra
    ensures SqSum(live, aps + extra) == SqSum(live, aps)
    ensures CommonCount(live, aps + extra) == CommonCount(live, aps)
    ensures Distance(sqrt, live, aps + extra) == Distance(sqrt, live, aps)
  {
    SqSumOverIgnoresFingerprintOnly(live.Keys, live, aps, extra);
    CommonIgnoresFingerprintOnly(live.Keys, aps.Keys, extra.Keys);
  }

  lemma {:induction false} CommonIgnoresFingerprintOnly(keys: set<string>, apsKeys: set<string>, extraKeys: set<string>)
    requires keys * extraKeys == {}
    ensures keys * (apsKeys + extraKeys) == keys * apsKeys
  {
    forall x | x in keys * (apsKeys + extraKeys)
      ensures x in apsKeys
    {
      assert x !in keys * extraKeys;
    }
  }

  /** A fingerprint that holds every live MAC with the same RSSI sums to zero. */
  lemma {:induction false} SqSumOverExactMatch(macs: set<string>, live: map<string, int>, aps: map<string, int>)
    requires macs <= live.Keys
    requires forall mac :: mac in macs ==> mac in aps && aps[mac] == live[mac]
    ensures SqSumOver(macs, live, aps) == 0
    decreases macs
  {
    if macs != {} {
      SqSumOverExactMatch(macs - {PickMac(macs)}, live, aps);
    }
  }

  /**
   * The distance is the sentinel when nothing matches, and otherwise a
   * non-negative number whose square is the squared sum.
   */
  lemma {:induction false} DistanceCases(sqrt: real -> real, live: map<string, int>, aps: map<string, int>)
    requires IsSqrt(sqrt)
    ensures 0.0 <= Distance(sqrt, live, aps)
    ensures CommonCount(live, aps) == 0 ==> Distance(sqrt, live, aps) == NoMatchDistance
    ensures CommonCount(live, aps) > 0 ==>
              Square(Distance(sqrt, live, aps)) == SqSum(live, aps) as real
  {
    SqSumNonNegative(live, aps);
  }

  /** A non-negative root of a number below `n * n`, for non-negative `n`, is below `n`. */
  lemma {:induction false} RootBelow(d: real, s: real, n: real)
    requires 0.0 <= d && 0.0 <= n && Square(d) == s && s < n * n
    ensures d < n
  {
  }

  /**
   * A fingerprint sharing a MAC with the live scan is closer than the
   * sentinel as long as its squared sum is below 9999999 squared: only then
   * does the sentinel rank every non-matching fingerprint last.
   */
  lemma {:induction false} MatchBelowSentinel(sqrt: real -> real, live: map<string, int>, aps: map<string, int>)
    requires IsSqrt(sqrt) && CommonCount(live, aps) > 0
    requires SqSum(live, aps) < 9999999 * 9999999
    ensures Distance(sqrt, live, aps) < NoMatchDistance
  {
    DistanceCases(sqrt, live, aps);
    RootBelow(Distance(sqrt, live, aps), SqSum(live, aps) as real, NoMatchDistance);
  }

  /** A fingerprint holding every MAC of a non-empty live scan with the same RSSI is at distance zero. */
  lemma {:induction false} ExactMatchDistance(sqrt: real -> real, live: map<string, int>, aps: map<string, int>)
    requires IsSqrt(sqrt)
    requires live != map[]
    requires forall mac :: mac in live ==> mac in aps && aps[mac] == live[mac]
    ensures Distance(sqrt, live, aps) == 0.0
  {
    SqSumOverExactMatch(live.Keys, live, aps);
    var m :| m in live;
    assert m in live.Keys * aps.Keys;
  }

  lemma {:induction false} CommonStep(rest: set<string>, keys: set<string>, mac: string)
    requires mac in rest
    ensures |rest * keys| == |(rest - {mac}) * keys| + (if mac in keys then 1 else 0)
  {
    if mac in keys {
      assert rest * keys == (rest - {mac}) * keys + {mac};
    } else {
      assert rest * keys == (rest - {mac}) * keys;
    }
  }

  /** The loop of `calculate_position` over `live_aps.items()` for one fingerprint. */
  method SquaredDistance(live: map<string, int>, aps: map<string, int>) returns (distSqSum: int, commonCount: nat)
    ensures distSqSum == SqSum(live, aps)
    ensures commonCount == CommonCount(live, aps)
  {
    distSqSum, commonCount := 0, 0;
    var rest := live.Keys;
    while rest != {}
      invariant rest <= live.Keys
      invariant distSqSum + SqSumOver(rest, live, aps) == SqSum(live, aps)
      invariant commonCount + |rest * aps.Keys| == |live.Keys * aps.Keys|
      decreases rest
    {
      var mac :| mac in rest;
      SqSumOverPick(rest, live, aps, mac);
      CommonStep(rest, aps.Keys, mac);
      if mac in aps {
        var diff := live[mac] - aps[mac];
        distSqSum := distSqSum + diff * diff;
        commonCount := commonCount + 1;
      } else {
        distSqSum := distSqSum + Penalty;
      }
      rest := rest - {mac};
    }
  }
}
