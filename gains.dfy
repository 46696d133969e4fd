/**
 * Gain vectors of one group: the one-hot target vector and the one-pole
 * slew that moves the destination gains towards it, one sample at a time.
 *
 * Both vectors have MaxDestinations slots; only the first numDests are ever
 * written. The smoothing coefficient `1 - exp(-1 / (sampleRate * slewTime))`
 * is not computed here: it enters as an abstract value in (0, 1].
 */
module Gains {
  import opened Layout

  /** A vector of MaxDestinations slots with 1 at k and 0 everywhere else. */
  ghost predicate OneHotAt(t: seq<real>, k: int)
  {
    |t| == MaxDestinations &&
    forall i :: 0 <= i < MaxDestinations ==> t[i] == (if i == k then 1.0 else 0.0)
  }

  /** Every slot of the vector lies in [0, 1]. */
  ghost predicate InUnit(g: seq<real>)
  {
    forall i :: 0 <= i < |g| ==> 0.0 <= g[i] <= 1.0
  }

  /**
   * The target-gain rebuild: slots below numDests become 1 at dest and 0
   * elsewhere; the slots above numDests are left as they were.
   */
  function Retarget(t: seq<real>, numDests: int, dest: int): (r: seq<real>)
    requires |t| == MaxDestinations
    ensures |r| == MaxDestinations
  {
    seq(MaxDestinations, i requires 0 <= i < MaxDestinations =>
      if i < numDests then (if i == dest then 1.0 else 0.0) else t[i])
  }

  /** A rebuild of a one-hot vector for a destination in range is one-hot at that destination. */
  lemma RetargetOneHot(t: seq<real>, k: int, numDests: int, dest: int)
    requires OneHotAt(t, k) && 0 <= k < numDests && 0 <= dest < numDests
    ensures OneHotAt(Retarget(t, numDests, dest), dest)
  {
  }

  /** One sample of slew: `gain[d] += (target[d] - gain[d]) * rate` for every d below numDests. */
  function Slew(g: seq<real>, t: seq<real>, rate: real, numDests: int): (r: seq<real>)
    requires |g| == MaxDestinations == |t|
    ensures |r| == MaxDestinations
  {
    seq(MaxDestinations, i requires 0 <= i < MaxDestinations =>
      if i < numDests then g[i] + (t[i] - g[i]) * rate else g[i])
  }

  /** The gains after k samples of slew towards a fixed target. */
  function SlewN(g: seq<real>, t: seq<real>, rate: real, numDests: int, k: nat): (r: seq<real>)
    requires |g| == MaxDestinations == |t|
    ensures |r| == MaxDestinations
  {
    if k == 0 then g else Slew(SlewN(g, t, rate, numDests, k - 1), t, rate, numDests)
  }

  function Power(x: real, k: nat): real
  {
    if k == 0 then 1.0 else Power(x, k - 1) * x
  }

  /**
   * One slew sample never overshoots: with a rate in (0, 1] each slot ends
   * between its old value and its target, at most as far from the target
   * as before.
   */
  lemma SlewTowardTarget(g: seq<real>, t: seq<real>, rate: real, numDests: int, i: int)
    requires |g| == MaxDestinations == |t| && 0.0 < rate <= 1.0
    requires 0 <= i < numDests && i < MaxDestinations
    ensures var r := Slew(g, t, rate, numDests);
            (g[i] <= t[i] ==> g[i] <= r[i] <= t[i]) &&
            (t[i] <= g[i] ==> t[i] <= r[i] <= g[i])
  {
    var r := Slew(g, t, rate, numDests);
    assert r[i] - t[i] == (g[i] - t[i]) * (1.0 - rate);
    assert r[i] - g[i] == (t[i] - g[i]) * rate;
    if g[i] <= t[i] {
      MulNonNegative(t[i] - g[i], rate);
      MulNonNegative(t[i] - g[i], 1.0 - rate);
    } else {
      MulNonNegative(g[i] - t[i], rate);
      MulNonNegative(g[i] - t[i], 1.0 - rate);
    }
  }

  lemma MulNonNegative(a: real, b: real)
    requires a >= 0.0 && b >= 0.0
    ensures a * b >= 0.0
  {
  }

  /** Slots at or above numDests are never touched by the slew. */
  lemma {:induction false} SlewNUntouched(g: seq<real>, t: seq<real>, rate: real, numDests: int, k: nat, i: int)
    requires |g| == MaxDestinations == |t| && 0 <= numDests <= i < MaxDestinations
    ensures SlewN(g, t, rate, numDests, k)[i] == g[i]
  {
    if k > 0 {
      SlewNUntouched(g, t, rate, numDests, k - 1, i);
    }
  }

  /**
   * The distance to the target shrinks geometrically: after k samples it is
   * the initial distance times (1 - rate)^k.
   */
  lemma {:induction false} SlewNResidual(g: seq<real>, t: seq<real>, rate: real, numDests: int, k: nat, i: int)
    requires |g| == MaxDestinations == |t| && 0 <= i < numDests && i < MaxDestinations
    ensures SlewN(g, t, rate, numDests, k)[i] - t[i] == (g[i] - t[i]) * Power(1.0 - rate, k)
  {
    if k > 0 {
      SlewNResidual(g, t, rate, numDests, k - 1, i);
      var prev := SlewN(g, t, rate, numDests, k - 1);
      SlewResidual(prev, t, rate, numDests, i);
      MulAssoc(g[i] - t[i], Power(1.0 - rate, k - 1), 1.0 - rate);
    }
  }

  /** One sample of slew scales the distance to the target by 1 - rate. */
  lemma SlewResidual(g: seq<real>, t: seq<real>, rate: real, numDests: int, i: int)
    requires |g| == MaxDestinations == |t| && 0 <= i < numDests && i < MaxDestinations
    ensures Slew(g, t, rate, numDests)[i] - t[i] == (g[i] - t[i]) * (1.0 - rate)
  {
  }

  lemma MulAssoc(a: real, b: real, c: real)
    ensures (a * b) * c == a * (b * c)
  {
  }

  /** Gains and target inside [0, 1] keep the gains inside [0, 1] for any number of samples. */
  lemma {:induction false} SlewNInUnit(g: seq<real>, t: seq<real>, rate: real, numDests: int, k: nat)
    requires |g| == MaxDestinations == |t| && 0.0 < rate <= 1.0
    requires InUnit(g) && InUnit(t)
    ensures InUnit(SlewN(g, t, rate, numDests, k))
  {
    if k > 0 {
      SlewNInUnit(g, t, rate, numDests, k - 1);
      var prev := SlewN(g, t, rate, numDests, k - 1);
      forall i | 0 <= i < MaxDestinations
        ensures 0.0 <= SlewN(g, t, rate, numDests, k)[i] <= 1.0
      {
        if i < numDests {
          SlewTowardTarget(prev, t, rate, numDests, i);
        }
      }
    }
  }

  /** Each slot moves monotonically towards its target, sample after sample. */
  lemma SlewNMonotone(g: seq<real>, t: seq<real>, rate: real, numDests: int, k: nat, i: int)
    requires |g| == MaxDestinations == |t| && 0.0 < rate <= 1.0
    requires 0 <= i < numDests && i < MaxDestinations
    ensures var a, b := SlewN(g, t, rate, numDests, k), SlewN(g, t, rate, numDests, k + 1);
            (a[i] <= t[i] ==> a[i] <= b[i] <= t[i]) &&
            (t[i] <= a[i] ==> t[i] <= b[i] <= a[i])
  {
    SlewTowardTarget(SlewN(g, t, rate, numDests, k), t, rate, numDests, i);
  }

  /** With rate 1 (instant mode) every slot below numDests equals its target after one sample. */
  lemma SlewInstant(g: seq<real>, t: seq<real>, numDests: int, k: nat, i: int)
    requires |g| == MaxDestinations == |t| && k >= 1
    requires 0 <= i < numDests && i < MaxDestinations
    ensures SlewN(g, t, 1.0, numDests, k)[i] == t[i]
  {
    SlewNResidual(g, t, 1.0, numDests, k, i);
    assert Power(0.0, k) == Power(0.0, k - 1) * 0.0;
  }

  /* ---------------- slew rate selection ---------------- */

  /** A parameter value in milliseconds, as seconds: `v * 0.001f`. */
  function Seconds(ms: int): real
  {
    ms as real * 0.001
  }

  /**
   * The per-block slew rate: the group Slew time when it is not negative,
   * else the Global Slew time; a time of at most 0.0001 s means an instant
   * switch (rate 1), otherwise the smoothing coefficient applies.
   */
  function SlewRate(groupSlewMs: int, globalSlewMs: int, coefficient: real): (rate: real)
    ensures 0.0 < coefficient <= 1.0 ==> 0.0 < rate <= 1.0
  {
    var slewMs := Seconds(groupSlewMs);
    var globalSlew := Seconds(globalSlewMs);
    var slewTime := if slewMs >= 0.0 then slewMs else globalSlew;
    if slewTime <= 0.0001 then 1.0 else coefficient
  }

  /** A non-negative group slew (always so, its declared minimum is 0) makes Global Slew irrelevant. */
  lemma GlobalSlewIgnored(groupSlewMs: int, global1: int, global2: int, coefficient: real)
    requires groupSlewMs >= 0
    ensures SlewRate(groupSlewMs, global1, coefficient) == SlewRate(groupSlewMs, global2, coefficient)
  {
  }

  /** A group slew of 0 ms switches instantly; 1 ms or more uses the coefficient. */
  lemma SlewRateChoice(groupSlewMs: int, globalSlewMs: int, coefficient: real)
    requires groupSlewMs >= 0
    ensures groupSlewMs == 0 ==> SlewRate(groupSlewMs, globalSlewMs, coefficient) == 1.0
    ensures groupSlewMs >= 1 ==> SlewRate(groupSlewMs, globalSlewMs, coefficient) == coefficient
  {
  }
}
