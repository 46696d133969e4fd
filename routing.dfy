/**
 * Distribution of one group's input over its destinations during one
 * block, stated on the flat bus buffer as a value.
 *
 * Inside a block, sample n of the group reads sample n of its input busses
 * and adds into sample n of its destination busses, so no sample reads
 * what an earlier sample of the same group wrote, even when an input bus is
 * also a destination bus. The block's effect therefore has the closed form
 * MixBlock below, computed from the buffer as the group found it.
 */
module Routing {
  import opened Layout
  import opened Policy
  import opened Gains

  /** The parameters step reads for one group at the start of a block. */
  datatype GroupConfig = GroupConfig(
    inputL: int,           // left / mono input bus, 0 = none
    inputR: int,           // right input bus, 0 = use the left input
    control: int,          // CV control bus, 0 = use Active Dest
    volume: real,          // linear gain of the Volume parameter
    ctrlType: ControlType,
    curve: Curve,          // decoded, unused
    rate: real,            // slew rate of this block, in (0, 1]
    activeDest: int,       // Active Dest, clamped and made 0-based
    destL: seq<int>,       // left output bus of each destination, 0 = none
    destR: seq<int>)       // right output bus of each destination, 0 = none

  /** Gains at or below this value are treated as silent. */
  const GainEpsilon: real := 0.0001

  /** What one block needs of a configuration: busses inside the buffer and a usable rate. */
  predicate ConfigOk(cfg: GroupConfig, numDests: int)
  {
    && 1 <= numDests <= MaxDestinations
    && |cfg.destL| == numDests == |cfg.destR|
    && cfg.inputL <= MaxBusses && cfg.inputR <= MaxBusses && cfg.control <= MaxBusses
    && (forall d :: 0 <= d < numDests ==> cfg.destL[d] <= MaxBusses && cfg.destR[d] <= MaxBusses)
    && 0.0 < cfg.rate <= 1.0
    && 0 <= cfg.activeDest < numDests
  }

  /** The raw left input of sample n: silence when no bus is assigned. */
  function InputL(buf: seq<real>, cfg: GroupConfig, N: int, n: int): real
    requires 0 <= n < N && |buf| == MaxBusses * N && cfg.inputL <= MaxBusses
  {
    if cfg.inputL > 0 then PosInBuffer(cfg.inputL, N, n); buf[Pos(cfg.inputL, N, n)] else 0.0
  }

  /** The raw right input of sample n: the left input when no right bus is assigned. */
  function InputR(buf: seq<real>, cfg: GroupConfig, N: int, n: int): real
    requires 0 <= n < N && |buf| == MaxBusses * N && cfg.inputL <= MaxBusses && cfg.inputR <= MaxBusses
  {
    if cfg.inputR > 0 then PosInBuffer(cfg.inputR, N, n); buf[Pos(cfg.inputR, N, n)] else InputL(buf, cfg, N, n)
  }

  function SigL(buf: seq<real>, cfg: GroupConfig, N: int, n: int): real
    requires 0 <= n < N && |buf| == MaxBusses * N && cfg.inputL <= MaxBusses
  {
    InputL(buf, cfg, N, n) * cfg.volume
  }

  function SigR(buf: seq<real>, cfg: GroupConfig, N: int, n: int): real
    requires 0 <= n < N && |buf| == MaxBusses * N && cfg.inputL <= MaxBusses && cfg.inputR <= MaxBusses
  {
    InputR(buf, cfg, N, n) * cfg.volume
  }

  /** A mono group feeds the same signal to the left and the right outputs. */
  lemma MonoFeedsBothSides(buf: seq<real>, cfg: GroupConfig, N: int, n: int)
    requires 0 <= n < N && |buf| == MaxBusses * N && cfg.inputL <= MaxBusses && cfg.inputR <= 0
    ensures SigR(buf, cfg, N, n) == SigL(buf, cfg, N, n)
  {
  }

  /** Destination d adds its share to bus b (b >= 1) only when its gain exceeds GainEpsilon. */
  predicate Routed(cfg: GroupConfig, gains: seq<real>, b: int, d: int)
    requires 0 <= d < |cfg.destL| && d < |cfg.destR| && d < |gains|
  {
    gains[d] > GainEpsilon && ((cfg.destL[d] > 0 && cfg.destL[d] == b) || (cfg.destR[d] > 0 && cfg.destR[d] == b))
  }

  /** What destination d adds to the current sample of bus b. */
  function Contribution(cfg: GroupConfig, gains: seq<real>, sigL: real, sigR: real, b: int, d: int): real
    requires 0 <= d < |cfg.destL| && d < |cfg.destR| && d < |gains|
  {
    var gain := gains[d];
    if gain > GainEpsilon then
      (if cfg.destL[d] > 0 && cfg.destL[d] == b then sigL * gain else 0.0)
      + (if cfg.destR[d] > 0 && cfg.destR[d] == b then sigR * gain else 0.0)
    else 0.0
  }

  /** What destinations 0 .. k-1 together add to the current sample of bus b. */
  function SampleDelta(cfg: GroupConfig, gains: seq<real>, sigL: real, sigR: real, b: int, k: nat): real
    requires k <= |cfg.destL| && k <= |cfg.destR| && k <= |gains|
  {
    if k == 0 then 0.0
    else SampleDelta(cfg, gains, sigL, sigR, b, k - 1) + Contribution(cfg, gains, sigL, sigR, b, k - 1)
  }

  /** A bus no audible destination is routed to receives nothing. */
  lemma {:induction false} SampleDeltaUnrouted(cfg: GroupConfig, gains: seq<real>, sigL: real, sigR: real, b: int, k: nat)
    requires k <= |cfg.destL| && k <= |cfg.destR| && k <= |gains|
    requires forall d :: 0 <= d < k ==> !Routed(cfg, gains, b, d)
    ensures SampleDelta(cfg, gains, sigL, sigR, b, k) == 0.0
  {
    if k > 0 {
      SampleDeltaUnrouted(cfg, gains, sigL, sigR, b, k - 1);
      assert !Routed(cfg, gains, b, k - 1);
    }
  }

  /** The gains of sample n of a block: n + 1 slew steps from the gains at the block start. */
  function BlockGains(cfg: GroupConfig, g0: seq<real>, t: seq<real>, numDests: int, n: nat): (g: seq<real>)
    requires |g0| == MaxDestinations == |t|
    ensures |g| == MaxDestinations
  {
    SlewN(g0, t, cfg.rate, numDests, n + 1)
  }

  /**
   * The buffer after one group's block: every sample of every bus gains
   * what the group's destinations add to it at that sample, with the
   * inputs read from the buffer as the group found it.
   */
  function MixBlock(buf: seq<real>, cfg: GroupConfig, g0: seq<real>, t: seq<real>, N: int, numDests: int): (r: seq<real>)
    requires N > 0 && |buf| == MaxBusses * N && ConfigOk(cfg, numDests)
    requires |g0| == MaxDestinations == |t|
    ensures |r| == |buf|
  {
    seq(|buf|, p requires 0 <= p < |buf| =>
      PosCovers(p, N);
      var n, b := SampleOf(p, N), BusOf(p, N);
      buf[p] + SampleDelta(cfg, BlockGains(cfg, g0, t, numDests, n), SigL(buf, cfg, N, n), SigR(buf, cfg, N, n), b, numDests))
  }

  /** The buffer once the samples before n have been mixed and the later ones not yet. */
  ghost predicate MixedBefore(cur: seq<real>, buf: seq<real>, cfg: GroupConfig, g0: seq<real>, t: seq<real>,
                              N: int, numDests: int, n: int)
    requires N > 0 && |buf| == MaxBusses * N && ConfigOk(cfg, numDests)
    requires |g0| == MaxDestinations == |t|
  {
    |cur| == |buf| &&
    forall p :: 0 <= p < |cur| ==>
      cur[p] == if SampleOf(p, N) < n then MixBlock(buf, cfg, g0, t, N, numDests)[p] else buf[p]
  }

  /**
   * Mixing sample n on top of the samples before it: adding what sample n's
   * gains and signals contribute to column n extends the mixed prefix by one.
   */
  lemma MixedBeforeStep(cur: seq<real>, next: seq<real>, buf: seq<real>, cfg: GroupConfig, g0: seq<real>, t: seq<real>,
                        N: int, numDests: int, n: int, gains: seq<real>, sigL: real, sigR: real)
    requires N > 0 && |buf| == MaxBusses * N && ConfigOk(cfg, numDests)
    requires |g0| == MaxDestinations == |t| && 0 <= n < N
    requires MixedBefore(cur, buf, cfg, g0, t, N, numDests, n) && |next| == |cur|
    requires gains == BlockGains(cfg, g0, t, numDests, n)
    requires sigL == SigL(buf, cfg, N, n) && sigR == SigR(buf, cfg, N, n)
    requires forall p :: 0 <= p < |next| ==>
               next[p] == cur[p] + (if SampleOf(p, N) == n
                                    then SampleDelta(cfg, gains, sigL, sigR, BusOf(p, N), numDests)
                                    else 0.0)
    ensures MixedBefore(next, buf, cfg, g0, t, N, numDests, n + 1)
  {
    forall p | 0 <= p < |next|
      ensures next[p] == if SampleOf(p, N) < n + 1 then MixBlock(buf, cfg, g0, t, N, numDests)[p] else buf[p]
    {
      PosCovers(p, N);
    }
  }

  /** With every sample mixed the buffer is MixBlock. */
  lemma MixedBeforeAll(cur: seq<real>, buf: seq<real>, cfg: GroupConfig, g0: seq<real>, t: seq<real>, N: int, numDests: int)
    requires N > 0 && |buf| == MaxBusses * N && ConfigOk(cfg, numDests)
    requires |g0| == MaxDestinations == |t|
    requires MixedBefore(cur, buf, cfg, g0, t, N, numDests, N)
    ensures cur == MixBlock(buf, cfg, g0, t, N, numDests)
  {
    forall p | 0 <= p < |cur|
      ensures cur[p] == MixBlock(buf, cfg, g0, t, N, numDests)[p]
    {
      PosCovers(p, N);
    }
  }

  /** Sample n of a bus is still as the block found it while sample n has not been mixed. */
  lemma MixedBeforeUntouched(cur: seq<real>, buf: seq<real>, cfg: GroupConfig, g0: seq<real>, t: seq<real>,
                             N: int, numDests: int, n: int)
    requires N > 0 && |buf| == MaxBusses * N && ConfigOk(cfg, numDests)
    requires |g0| == MaxDestinations == |t| && 0 <= n < N
    requires MixedBefore(cur, buf, cfg, g0, t, N, numDests, n)
    ensures InputL(cur, cfg, N, n) == InputL(buf, cfg, N, n)
    ensures InputR(cur, cfg, N, n) == InputR(buf, cfg, N, n)
  {
    if cfg.inputL > 0 {
      PosInBuffer(cfg.inputL, N, n);
      PosInverse(cfg.inputL, N, n);
    }
    if cfg.inputR > 0 {
      PosInBuffer(cfg.inputR, N, n);
      PosInverse(cfg.inputR, N, n);
    }
  }

  /** The raw inputs of sample n, scaled by the volume, are the group's signals. */
  lemma ScaledInputs(buf: seq<real>, cfg: GroupConfig, N: int, n: int, inL: real, inR: real)
    requires 0 <= n < N && |buf| == MaxBusses * N && cfg.inputL <= MaxBusses && cfg.inputR <= MaxBusses
    requires inL == InputL(buf, cfg, N, n) && inR == InputR(buf, cfg, N, n)
    ensures inL * cfg.volume == SigL(buf, cfg, N, n) && inR * cfg.volume == SigR(buf, cfg, N, n)
  {
  }

  /** MixBlock at sample n of bus b. */
  lemma MixBlockAt(buf: seq<real>, cfg: GroupConfig, g0: seq<real>, t: seq<real>, N: int, numDests: int, b: int, n: int)
    requires N > 0 && |buf| == MaxBusses * N && ConfigOk(cfg, numDests)
    requires |g0| == MaxDestinations == |t|
    requires 1 <= b <= MaxBusses && 0 <= n < N
    ensures 0 <= Pos(b, N, n) < |buf|
    ensures MixBlock(buf, cfg, g0, t, N, numDests)[Pos(b, N, n)]
         == buf[Pos(b, N, n)] + SampleDelta(cfg, BlockGains(cfg, g0, t, numDests, n), SigL(buf, cfg, N, n), SigR(buf, cfg, N, n), b, numDests)
  {
    PosInBuffer(b, N, n);
    PosInverse(b, N, n);
  }

  /** The destinations' busses are the only ones a block writes: all other busses keep their samples. */
  lemma MixBlockFrame(buf: seq<real>, cfg: GroupConfig, g0: seq<real>, t: seq<real>, N: int, numDests: int, p: int)
    requires N > 0 && |buf| == MaxBusses * N && ConfigOk(cfg, numDests)
    requires |g0| == MaxDestinations == |t|
    requires 0 <= p < |buf|
    requires forall d :: 0 <= d < numDests ==> cfg.destL[d] != BusOf(p, N) && cfg.destR[d] != BusOf(p, N)
    ensures MixBlock(buf, cfg, g0, t, N, numDests)[p] == buf[p]
  {
    PosCovers(p, N);
    var n := SampleOf(p, N);
    SampleDeltaUnrouted(cfg, BlockGains(cfg, g0, t, numDests, n), SigL(buf, cfg, N, n), SigR(buf, cfg, N, n), BusOf(p, N), numDests);
  }

  /** The samples of a group's input busses, which is all a block reads. */
  predicate SameInputs(buf1: seq<real>, buf2: seq<real>, cfg: GroupConfig, N: int)
    requires |buf1| == MaxBusses * N == |buf2|
    requires cfg.inputL <= MaxBusses && cfg.inputR <= MaxBusses
  {
    forall n :: 0 <= n < N ==>
      InputL(buf1, cfg, N, n) == InputL(buf2, cfg, N, n) && InputR(buf1, cfg, N, n) == InputR(buf2, cfg, N, n)
  }

  /** What a block adds depends only on the group's input samples. */
  lemma MixBlockReadsOnlyInputs(buf1: seq<real>, buf2: seq<real>, cfg: GroupConfig, g0: seq<real>, t: seq<real>, N: int, numDests: int, p: int)
    requires N > 0 && |buf1| == MaxBusses * N == |buf2| && ConfigOk(cfg, numDests)
    requires |g0| == MaxDestinations == |t|
    requires SameInputs(buf1, buf2, cfg, N) && 0 <= p < |buf1|
    ensures MixBlock(buf1, cfg, g0, t, N, numDests)[p] - buf1[p]
         == MixBlock(buf2, cfg, g0, t, N, numDests)[p] - buf2[p]
  {
    PosCovers(p, N);
    var n := SampleOf(p, N);
    assert SigL(buf1, cfg, N, n) == SigL(buf2, cfg, N, n);
    assert SigR(buf1, cfg, N, n) == SigR(buf2, cfg, N, n);
  }

  /** Group a writes none of group b's input busses. */
  predicate NoFeed(a: GroupConfig, b: GroupConfig, numDests: int)
    requires |a.destL| == numDests == |a.destR|
  {
    forall d :: 0 <= d < numDests ==>
      (b.inputL > 0 ==> a.destL[d] != b.inputL && a.destR[d] != b.inputL) &&
      (b.inputR > 0 ==> a.destL[d] != b.inputR && a.destR[d] != b.inputR)
  }

  /**
   * Additive mixing: when group a writes none of group b's inputs, running a
   * then b adds to every sample exactly what each of them adds on its own.
   */
  lemma Superposition(buf: seq<real>, a: GroupConfig, ga: seq<real>, ta: seq<real>,
                      b: GroupConfig, gb: seq<real>, tb: seq<real>, N: int, numDests: int, p: int)
    requires N > 0 && |buf| == MaxBusses * N && ConfigOk(a, numDests) && ConfigOk(b, numDests)
    requires |ga| == MaxDestinations == |ta| && |gb| == MaxDestinations == |tb|
    requires NoFeed(a, b, numDests) && 0 <= p < |buf|
    ensures var afterA := MixBlock(buf, a, ga, ta, N, numDests);
            (MixBlock(afterA, b, gb, tb, N, numDests)[p]
             == buf[p] + (afterA[p] - buf[p]) + (MixBlock(buf, b, gb, tb, N, numDests)[p] - buf[p]))
  {
    var afterA := MixBlock(buf, a, ga, ta, N, numDests);
    forall n | 0 <= n < N
      ensures InputL(afterA, b, N, n) == InputL(buf, b, N, n) && InputR(afterA, b, N, n) == InputR(buf, b, N, n)
    {
      if b.inputL > 0 {
        PosInBuffer(b.inputL, N, n);
        PosInverse(b.inputL, N, n);
        MixBlockFrame(buf, a, ga, ta, N, numDests, Pos(b.inputL, N, n));
      }
      if b.inputR > 0 {
        PosInBuffer(b.inputR, N, n);
        PosInverse(b.inputR, N, n);
        MixBlockFrame(buf, a, ga, ta, N, numDests, Pos(b.inputR, N, n));
      }
    }
    MixBlockReadsOnlyInputs(afterA, buf, b, gb, tb, N, numDests, p);
  }
}
