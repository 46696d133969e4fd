/**
 * One group's runtime state as a value, and what a block of step and a
 * matching MIDI control change do to it. The imperative classes in module
 * Mixer are proved against these functions.
 */
module Group {
  import opened Layout
  import opened Policy
  import opened Gains
  import opened Routing

  /** MixerGroupState: currentDest is declared but never written by the plugin. */
  datatype GroupView = GroupView(
    currentDest: int,
    targetDest: int,
    destGains: seq<real>,
    targetGains: seq<real>,
    lastTriggerHigh: bool,
    lastMidiValue: int)    // uint8_t

  const InitialGains: seq<real> := [1.0, 0.0, 0.0, 0.0]

  /** The default-initialised record: destination 1 fully on. */
  const InitialView: GroupView := GroupView(0, 0, InitialGains, InitialGains, false, 0)

  /** Both gain vectors have MaxDestinations slots. */
  predicate Shaped(s: GroupView)
  {
    |s.destGains| == MaxDestinations && |s.targetGains| == MaxDestinations
  }

  /**
   * What every reachable group state satisfies: the indices lie in the
   * destination range, the target vector is one-hot at targetDest, the gains
   * lie in [0, 1] and the slots past numDests are silent.
   */
  ghost predicate Inv(s: GroupView, numDests: int)
  {
    && 1 <= numDests <= MaxDestinations
    && Shaped(s)
    && 0 <= s.currentDest < numDests
    && 0 <= s.targetDest < numDests
    && OneHotAt(s.targetGains, s.targetDest)
    && InUnit(s.destGains)
    && (forall i :: numDests <= i < MaxDestinations ==> s.destGains[i] == 0.0)
    && 0 <= s.lastMidiValue < 256
  }

  lemma InitialViewInv(numDests: int)
    requires 1 <= numDests <= MaxDestinations
    ensures Inv(InitialView, numDests)
  {
  }

  /* ---------------- decoding a group's parameters ---------------- */

  /** Group g's block of parameters lies inside v. */
  predicate GroupInside(v: seq<int>, g: int, numDests: int)
  {
    0 <= g && 1 <= numDests && GroupBase(g, numDests) + ParamsPerGroup(numDests) <= |v|
  }

  lemma GroupBaseBounds(g: int, numDests: int)
    requires 0 <= g && 0 <= numDests
    ensures GlobalParamCount <= GroupBase(g, numDests)
  {
    MulMono(0, g, ParamsPerGroup(numDests));
  }

  /** The groups below numGroups lie inside a parameter vector of calcReq's size. */
  lemma GroupInsideCalcReq(v: seq<int>, g: int, numGroups: int, numDests: int)
    requires 0 <= g < numGroups && 1 <= numDests && |v| >= CalcReq(numGroups, numDests)
    ensures GroupInside(v, g, numDests)
  {
    MulMono(g + 1, numGroups, ParamsPerGroup(numDests));
  }

  lemma AllGroupsInside(v: seq<int>, numGroups: int, numDests: int)
    requires 1 <= numDests && |v| >= CalcReq(numGroups, numDests)
    ensures forall g :: 0 <= g < numGroups ==> GroupInside(v, g, numDests)
  {
    forall g | 0 <= g < numGroups
      ensures GroupInside(v, g, numDests)
    {
      GroupInsideCalcReq(v, g, numGroups, numDests);
    }
  }

  /**
   * What step reads for group g at the start of its block. The enum
   * parameters are clamped, Active Dest is clamped to [1, numDests] and made
   * 0-based; volume is the linear gain of the Volume parameter and
   * coefficient the smoothing coefficient for the group's slew time.
   */
  function Config(v: seq<int>, g: int, numDests: int, volume: real, coefficient: real): (cfg: GroupConfig)
    requires GroupInside(v, g, numDests)
    ensures |cfg.destL| == numDests == |cfg.destR|
  {
    GroupBaseBounds(g, numDests);
    var base := GroupBase(g, numDests);
    GroupConfig(
      inputL := v[base + GpInputL],
      inputR := v[base + GpInputR],
      control := v[base + GpControl],
      volume := volume,
      ctrlType := ControlTypeOf(v[base + GpCtrlType]),
      curve := CurveOf(v[base + GpCurve]),
      rate := SlewRate(v[base + GpSlew], v[ParamGlobalSlew], coefficient),
      activeDest := Clamp(v[base + GpActiveDest], 1, numDests) - 1,
      destL := seq(numDests, d requires 0 <= d < numDests => v[base + GpDest1L + d * 2]),
      destR := seq(numDests, d requires 0 <= d < numDests => v[base + GpDest1R + d * 2]))
  }

  /** The bus-valued parameters of group g name busses of the buffer (or none). */
  predicate BusParamsOk(v: seq<int>, g: int, numDests: int)
    requires GroupInside(v, g, numDests)
  {
    var base := GroupBase(g, numDests);
    && v[base + GpInputL] <= MaxBusses && v[base + GpInputR] <= MaxBusses && v[base + GpControl] <= MaxBusses
    && forall d :: 0 <= d < numDests ==>
         v[base + GpDest1L + d * 2] <= MaxBusses && v[base + GpDest1R + d * 2] <= MaxBusses
  }

  /** Bus parameters inside the buffer and a coefficient in (0, 1] make a usable configuration. */
  lemma ConfigOkFrom(v: seq<int>, g: int, numDests: int, volume: real, coefficient: real)
    requires GroupInside(v, g, numDests) && 1 <= numDests <= MaxDestinations
    requires BusParamsOk(v, g, numDests) && 0.0 < coefficient <= 1.0
    ensures ConfigOk(Config(v, g, numDests, volume, coefficient), numDests)
  {
  }

  /** Every parameter lies within its declared range. */
  predicate WithinRanges(v: seq<int>, table: seq<ParamRange>)
  {
    |v| == |table| && forall i :: 0 <= i < |v| ==> table[i].min <= v[i] <= table[i].max
  }

  /**
   * Values the host keeps within the declared ranges satisfy BusParamsOk and
   * give a non-negative group slew, so the Global Slew branch is never taken.
   */
  lemma HostRangesSuffice(v: seq<int>, g: int, numGroups: int, numDests: int)
    requires 0 <= g < numGroups && 1 <= numDests
    requires WithinRanges(v, ParamTable(numGroups, numDests))
    ensures GroupInside(v, g, numDests)
    ensures BusParamsOk(v, g, numDests)
    ensures v[GroupBase(g, numDests) + GpSlew] >= 0
  {
    ParamTableSize(numGroups, numDests);
    GroupInsideCalcReq(v, g, numGroups, numDests);
    var base := GroupBase(g, numDests);
    SlotWithinRange(v, g, numGroups, numDests, GpInputL);
    SlotWithinRange(v, g, numGroups, numDests, GpInputR);
    SlotWithinRange(v, g, numGroups, numDests, GpControl);
    SlotWithinRange(v, g, numGroups, numDests, GpSlew);
    forall d | 0 <= d < numDests
      ensures v[base + GpDest1L + d * 2] <= MaxBusses && v[base + GpDest1R + d * 2] <= MaxBusses
    {
      DestWithinRange(v, g, numGroups, numDests, d);
    }
  }

  /** Both output busses of destination d hold bus numbers. */
  lemma DestWithinRange(v: seq<int>, g: int, numGroups: int, numDests: int, d: int)
    requires 0 <= g < numGroups && 0 <= d < numDests
    requires WithinRanges(v, ParamTable(numGroups, numDests))
    ensures 0 <= GroupBase(g, numDests) + GpDest1R + d * 2 < |v|
    ensures v[GroupBase(g, numDests) + GpDest1L + d * 2] <= MaxBusses
    ensures v[GroupBase(g, numDests) + GpDest1R + d * 2] <= MaxBusses
  {
    DestOffsets(numDests, d);
    MidiOffsetsAreLast(numDests);
    SlotWithinRange(v, g, numGroups, numDests, GpDest1L + d * 2);
    SlotWithinRange(v, g, numGroups, numDests, GpDest1R + d * 2);
  }

  /** Slot i of group g holds a value inside the range the table declares for it. */
  lemma SlotWithinRange(v: seq<int>, g: int, numGroups: int, numDests: int, i: int)
    requires 0 <= g < numGroups && 1 <= numDests && 0 <= i < ParamsPerGroup(numDests)
    requires WithinRanges(v, ParamTable(numGroups, numDests))
    ensures 0 <= GroupBase(g, numDests) + i < |v|
    ensures GroupRanges(numDests)[i].min <= v[GroupBase(g, numDests) + i] <= GroupRanges(numDests)[i].max
  {
    ParamTableEntry(numGroups, numDests, g, i);
    assert PageIndex(g, i, ParamsPerGroup(numDests)) == GroupBase(g, numDests) + i;
  }

  /* ---------------- one block of step ---------------- */

  /**
   * The target decision of a block: the CV decoder on the last sample of the
   * control bus when one is assigned, else the Active Dest parameter.
   */
  function Decide(s: GroupView, cfg: GroupConfig, buf: seq<real>, N: int, numDests: int): (r: Decision)
    requires N > 0 && |buf| == MaxBusses * N && ConfigOk(cfg, numDests)
    ensures 0 <= r.dest < numDests
  {
    if cfg.control > 0 then
      PosInBuffer(cfg.control, N, N - 1);
      CvDecide(buf[Pos(cfg.control, N, N - 1)], cfg.ctrlType, numDests, s.targetDest, s.lastTriggerHigh)
    else
      Decision(cfg.activeDest, s.lastTriggerHigh)
  }

  /** The target vector of the block. */
  function BlockTargets(s: GroupView, cfg: GroupConfig, buf: seq<real>, N: int, numDests: int): (t: seq<real>)
    requires N > 0 && |buf| == MaxBusses * N && ConfigOk(cfg, numDests) && Shaped(s)
    ensures |t| == MaxDestinations
  {
    Retarget(s.targetGains, numDests, Decide(s, cfg, buf, N, numDests).dest)
  }

  /** The group state after its block of N samples. */
  function BlockState(s: GroupView, cfg: GroupConfig, buf: seq<real>, N: int, numDests: int): (r: GroupView)
    requires N > 0 && |buf| == MaxBusses * N && ConfigOk(cfg, numDests) && Shaped(s)
    ensures Shaped(r)
  {
    var dec := Decide(s, cfg, buf, N, numDests);
    var t := BlockTargets(s, cfg, buf, N, numDests);
    s.(targetDest := dec.dest, lastTriggerHigh := dec.lastTriggerHigh,
       targetGains := t, destGains := SlewN(s.destGains, t, cfg.rate, numDests, N))
  }

  /** The buffer after the group's block. */
  function BlockBuffer(s: GroupView, cfg: GroupConfig, buf: seq<real>, N: int, numDests: int): (r: seq<real>)
    requires N > 0 && |buf| == MaxBusses * N && ConfigOk(cfg, numDests) && Shaped(s)
    ensures |r| == |buf|
  {
    MixBlock(buf, cfg, s.destGains, BlockTargets(s, cfg, buf, N, numDests), N, numDests)
  }

  /** Group a writes none of group b's inputs and not b's control bus. */
  predicate BlockNoFeed(a: GroupConfig, b: GroupConfig, numDests: int)
    requires |a.destL| == numDests == |a.destR|
  {
    && NoFeed(a, b, numDests)
    && forall d :: 0 <= d < numDests ==>
         (b.control > 0 ==> a.destL[d] != b.control && a.destR[d] != b.control)
  }

  /**
   * Two whole blocks in step's order: when group a feeds neither the inputs
   * nor the control bus of group b, b's block after a's decides and slews as
   * on the untouched buffer, and every sample receives exactly what each
   * block adds on its own.
   */
  lemma BlockSuperposition(buf: seq<real>, sa: GroupView, a: GroupConfig, sb: GroupView, b: GroupConfig,
                           N: int, numDests: int, p: int)
    requires N > 0 && |buf| == MaxBusses * N && ConfigOk(a, numDests) && ConfigOk(b, numDests)
    requires Shaped(sa) && Shaped(sb) && BlockNoFeed(a, b, numDests) && 0 <= p < |buf|
    ensures var afterA := BlockBuffer(sa, a, buf, N, numDests);
            && BlockState(sb, b, afterA, N, numDests) == BlockState(sb, b, buf, N, numDests)
            && BlockBuffer(sb, b, afterA, N, numDests)[p]
               == buf[p] + (afterA[p] - buf[p]) + (BlockBuffer(sb, b, buf, N, numDests)[p] - buf[p])
  {
    var ta := BlockTargets(sa, a, buf, N, numDests);
    var afterA := BlockBuffer(sa, a, buf, N, numDests);
    assert afterA == MixBlock(buf, a, sa.destGains, ta, N, numDests);
    if b.control > 0 {
      var c := Pos(b.control, N, N - 1);
      PosInBuffer(b.control, N, N - 1);
      PosInverse(b.control, N, N - 1);
      MixBlockFrame(buf, a, sa.destGains, ta, N, numDests, c);
      assert afterA[c] == buf[c];
    }
    assert Decide(sb, b, afterA, N, numDests) == Decide(sb, b, buf, N, numDests);
    var tb := BlockTargets(sb, b, buf, N, numDests);
    assert BlockTargets(sb, b, afterA, N, numDests) == tb;
    Superposition(buf, a, sa.destGains, ta, b, sb.destGains, tb, N, numDests, p);
  }

  /** A block keeps the group invariant. */
  lemma BlockPreservesInv(s: GroupView, cfg: GroupConfig, buf: seq<real>, N: int, numDests: int)
    requires N > 0 && |buf| == MaxBusses * N && ConfigOk(cfg, numDests) && Inv(s, numDests)
    ensures Inv(BlockState(s, cfg, buf, N, numDests), numDests)
  {
    var dec := Decide(s, cfg, buf, N, numDests);
    var t := BlockTargets(s, cfg, buf, N, numDests);
    RetargetOneHot(s.targetGains, s.targetDest, numDests, dec.dest);
    assert InUnit(t);
    SlewNInUnit(s.destGains, t, cfg.rate, numDests, N);
    forall i | numDests <= i < MaxDestinations
      ensures SlewN(s.destGains, t, cfg.rate, numDests, N)[i] == 0.0
    {
      SlewNUntouched(s.destGains, t, cfg.rate, numDests, N, i);
    }
  }

  /**
   * The target a block chooses, in terms of the parameters: with a control
   * bus assigned it is the CV decoder's result on the control bus's last
   * sample, otherwise Active Dest clamped to [1, numDests], made 0-based.
   * Afterwards the target vector is one-hot at it.
   */
  lemma BlockTarget(s: GroupView, v: seq<int>, g: int, numDests: int, volume: real, coefficient: real,
                    buf: seq<real>, N: int)
    requires GroupInside(v, g, numDests) && Inv(s, numDests)
    requires N > 0 && |buf| == MaxBusses * N
    requires ConfigOk(Config(v, g, numDests, volume, coefficient), numDests)
    ensures var base := GroupBase(g, numDests);
            var r := BlockState(s, Config(v, g, numDests, volume, coefficient), buf, N, numDests);
            && 0 <= r.targetDest < numDests
            && (v[base + GpControl] > 0 ==>
                  0 <= Pos(v[base + GpControl], N, N - 1) < |buf| &&
                  r.targetDest == CvDecide(buf[Pos(v[base + GpControl], N, N - 1)],
                                           ControlTypeOf(v[base + GpCtrlType]), numDests,
                                           s.targetDest, s.lastTriggerHigh).dest)
            && (v[base + GpControl] <= 0 ==>
                  r.targetDest == Clamp(v[base + GpActiveDest], 1, numDests) - 1
                  && r.lastTriggerHigh == s.lastTriggerHigh)
            && OneHotAt(r.targetGains, r.targetDest)
  {
    var cfg := Config(v, g, numDests, volume, coefficient);
    if cfg.control > 0 {
      PosInBuffer(cfg.control, N, N - 1);
    }
    RetargetOneHot(s.targetGains, s.targetDest, numDests, Decide(s, cfg, buf, N, numDests).dest);
  }

  /**
   * A group slew of 0 ms switches instantly: after one block the gains equal
   * the new targets in every slot.
   */
  lemma BlockInstant(s: GroupView, v: seq<int>, g: int, numDests: int, volume: real, coefficient: real,
                     buf: seq<real>, N: int)
    requires GroupInside(v, g, numDests) && Inv(s, numDests)
    requires N > 0 && |buf| == MaxBusses * N
    requires ConfigOk(Config(v, g, numDests, volume, coefficient), numDests)
    requires v[GroupBase(g, numDests) + GpSlew] == 0
    ensures var r := BlockState(s, Config(v, g, numDests, volume, coefficient), buf, N, numDests);
            r.destGains == r.targetGains
  {
    var cfg := Config(v, g, numDests, volume, coefficient);
    var t := BlockTargets(s, cfg, buf, N, numDests);
    var r := BlockState(s, cfg, buf, N, numDests);
    assert cfg.rate == 1.0;
    RetargetOneHot(s.targetGains, s.targetDest, numDests, Decide(s, cfg, buf, N, numDests).dest);
    forall i | 0 <= i < MaxDestinations
      ensures r.destGains[i] == t[i]
    {
      if i < numDests {
        SlewInstant(s.destGains, t, numDests, N, i);
      } else {
        SlewNUntouched(s.destGains, t, cfg.rate, numDests, N, i);
      }
    }
  }

  /* ---------------- all groups of one step ---------------- */

  /** What step requires of the configurations of the first k groups. */
  predicate ConfigsOk(views: seq<GroupView>, cfgs: seq<GroupConfig>, numDests: int, k: int)
  {
    0 <= k <= |views| && k <= |cfgs| &&
    forall i :: 0 <= i < k ==> ConfigOk(cfgs[i], numDests) && Shaped(views[i])
  }

  /** The buffer as group k finds it: groups 0 .. k-1 have run their blocks in order. */
  function BufferBefore(views: seq<GroupView>, cfgs: seq<GroupConfig>, buf: seq<real>, N: int, numDests: int, k: nat): (r: seq<real>)
    requires N > 0 && |buf| == MaxBusses * N && ConfigsOk(views, cfgs, numDests, k)
    ensures |r| == |buf|
  {
    if k == 0 then buf
    else BlockBuffer(views[k - 1], cfgs[k - 1], BufferBefore(views, cfgs, buf, N, numDests, k - 1), N, numDests)
  }

  /**
   * Busses that no group among the first k names as a destination keep all
   * their samples during a step.
   */
  lemma {:induction false} BufferBeforeFrame(views: seq<GroupView>, cfgs: seq<GroupConfig>, buf: seq<real>,
                                             N: int, numDests: int, k: nat, p: int)
    requires N > 0 && |buf| == MaxBusses * N && ConfigsOk(views, cfgs, numDests, k) && 0 <= p < |buf|
    requires forall i, d :: 0 <= i < k && 0 <= d < numDests ==>
               cfgs[i].destL[d] != BusOf(p, N) && cfgs[i].destR[d] != BusOf(p, N)
    ensures BufferBefore(views, cfgs, buf, N, numDests, k)[p] == buf[p]
  {
    if k > 0 {
      BufferBeforeFrame(views, cfgs, buf, N, numDests, k - 1, p);
      var before := BufferBefore(views, cfgs, buf, N, numDests, k - 1);
      MixBlockFrame(before, cfgs[k - 1], views[k - 1].destGains, BlockTargets(views[k - 1], cfgs[k - 1], before, N, numDests), N, numDests, p);
    }
  }

  /**
   * The group states after one step over the first k groups: each of them
   * has run its block on the buffer as the groups before it left it; the
   * others are as they were.
   */
  function StepViews(views: seq<GroupView>, cfgs: seq<GroupConfig>, buf: seq<real>, N: int, numDests: int, k: nat): (r: seq<GroupView>)
    requires N > 0 && |buf| == MaxBusses * N && ConfigsOk(views, cfgs, numDests, k)
    ensures |r| == |views|
  {
    seq(|views|, h requires 0 <= h < |views| =>
      if h < k then BlockState(views[h], cfgs[h], BufferBefore(views, cfgs, buf, N, numDests, h), N, numDests)
      else views[h])
  }

  /** A step keeps the invariant of every group. */
  lemma StepPreservesInv(views: seq<GroupView>, cfgs: seq<GroupConfig>, buf: seq<real>, N: int, numDests: int, k: nat)
    requires N > 0 && |buf| == MaxBusses * N && ConfigsOk(views, cfgs, numDests, k)
    requires forall h :: 0 <= h < |views| ==> Inv(views[h], numDests)
    ensures forall h :: 0 <= h < |views| ==> Inv(StepViews(views, cfgs, buf, N, numDests, k)[h], numDests)
  {
    forall h | 0 <= h < |views|
      ensures Inv(StepViews(views, cfgs, buf, N, numDests, k)[h], numDests)
    {
      if h < k {
        BlockPreservesInv(views[h], cfgs[h], BufferBefore(views, cfgs, buf, N, numDests, h), N, numDests);
      }
    }
  }

  /**
   * Every group's bus parameters name busses of the buffer (or none). This is
   * all a block needs of the parameter store: the other parameters are
   * clamped or only select between two formulas.
   */
  predicate BussesOk(v: seq<int>, numGroups: int, numDests: int)
  {
    forall g :: 0 <= g < numGroups ==> GroupInside(v, g, numDests) && BusParamsOk(v, g, numDests)
  }

  /** Values within their declared ranges keep every bus parameter inside the buffer. */
  lemma HostRangesGiveBusses(v: seq<int>, numGroups: int, numDests: int)
    requires 1 <= numDests && 0 <= numGroups
    requires WithinRanges(v, ParamTable(numGroups, numDests))
    ensures BussesOk(v, numGroups, numDests)
  {
    forall g | 0 <= g < numGroups
      ensures GroupInside(v, g, numDests) && BusParamsOk(v, g, numDests)
    {
      HostRangesSuffice(v, g, numGroups, numDests);
    }
  }

  /** Busses inside the buffer and coefficients in (0, 1] make every group's configuration usable. */
  lemma ConfigsOkFromBusses(v: seq<int>, numGroups: int, numDests: int, volumes: seq<real>, coefficients: seq<real>)
    requires 1 <= numDests && 0 <= numGroups
    requires |volumes| >= numGroups && |coefficients| >= numGroups
    ensures numDests <= MaxDestinations && BussesOk(v, numGroups, numDests)
            && (forall g :: 0 <= g < numGroups ==> 0.0 < coefficients[g] <= 1.0)
            ==> forall g :: 0 <= g < numGroups ==>
                  GroupInside(v, g, numDests) && ConfigOk(Config(v, g, numDests, volumes[g], coefficients[g]), numDests)
  {
    if numDests <= MaxDestinations && BussesOk(v, numGroups, numDests)
       && (forall g :: 0 <= g < numGroups ==> 0.0 < coefficients[g] <= 1.0) {
      forall g | 0 <= g < numGroups
        ensures GroupInside(v, g, numDests) && ConfigOk(Config(v, g, numDests, volumes[g], coefficients[g]), numDests)
      {
        ConfigOkFrom(v, g, numDests, volumes[g], coefficients[g]);
      }
    }
  }

  /**
   * The configurations of the first numGroups groups, each with its volume
   * gain and smoothing coefficient; usable whenever the bus parameters name
   * busses of the buffer and the coefficients lie in (0, 1].
   */
  function Configs(v: seq<int>, numGroups: int, numDests: int, volumes: seq<real>, coefficients: seq<real>): (cfgs: seq<GroupConfig>)
    requires 1 <= numDests && 0 <= numGroups && |v| >= CalcReq(numGroups, numDests)
    requires |volumes| >= numGroups && |coefficients| >= numGroups
    ensures |cfgs| == numGroups
    ensures forall g :: 0 <= g < numGroups ==>
              GroupInside(v, g, numDests) && cfgs[g] == Config(v, g, numDests, volumes[g], coefficients[g])
    ensures numDests <= MaxDestinations && BussesOk(v, numGroups, numDests)
            && (forall g :: 0 <= g < numGroups ==> 0.0 < coefficients[g] <= 1.0)
            ==> forall g :: 0 <= g < numGroups ==> ConfigOk(cfgs[g], numDests)
  {
    ConfigsOkFromBusses(v, numGroups, numDests, volumes, coefficients);
    AllGroupsInside(v, numGroups, numDests);
    seq(numGroups, g requires 0 <= g < numGroups => Config(v, g, numDests, volumes[g], coefficients[g]))
  }

  /** Running group k's block extends the step's group states by one. */
  lemma StepViewsNext(views: seq<GroupView>, cfgs: seq<GroupConfig>, buf: seq<real>, N: int, numDests: int, k: nat)
    requires N > 0 && |buf| == MaxBusses * N && ConfigsOk(views, cfgs, numDests, k + 1)
    ensures ConfigsOk(views, cfgs, numDests, k)
    ensures StepViews(views, cfgs, buf, N, numDests, k + 1)[k]
            == BlockState(views[k], cfgs[k], BufferBefore(views, cfgs, buf, N, numDests, k), N, numDests)
    ensures forall h :: 0 <= h < |views| && h != k ==>
              StepViews(views, cfgs, buf, N, numDests, k + 1)[h] == StepViews(views, cfgs, buf, N, numDests, k)[h]
  {
  }

  /** Replacing entry k of the views after k blocks by group k's new state gives the views after k + 1 blocks. */
  lemma StepViewsAdvance(views: seq<GroupView>, cfgs: seq<GroupConfig>, buf: seq<real>, N: int, numDests: int, k: nat,
                         s: GroupView)
    requires N > 0 && |buf| == MaxBusses * N && ConfigsOk(views, cfgs, numDests, k + 1)
    requires s == BlockState(views[k], cfgs[k], BufferBefore(views, cfgs, buf, N, numDests, k), N, numDests)
    ensures ConfigsOk(views, cfgs, numDests, k)
    ensures StepViews(views, cfgs, buf, N, numDests, k)[k] == views[k]
    ensures StepViews(views, cfgs, buf, N, numDests, k)[k := s] == StepViews(views, cfgs, buf, N, numDests, k + 1)
  {
    StepViewsNext(views, cfgs, buf, N, numDests, k);
  }

  /* ---------------- MIDI control change ---------------- */

  /** `byte0 & 0xF0` */
  function Status(byte0: int): int
    requires 0 <= byte0 < 256
  {
    ((byte0 as bv8) & 0xF0) as int
  }

  /** `(byte0 & 0x0F) + 1`: the 1-based MIDI channel. */
  function Channel(byte0: int): int
    requires 0 <= byte0 < 256
  {
    ((byte0 as bv8) & 0x0F) as int + 1
  }

  const ControlChange: int := 0xB0

  /** A status byte is a control change exactly when it lies in 0xB0 .. 0xBF; its low nibble is the channel. */
  lemma ControlChangeBytes(byte0: int)
    requires 0 <= byte0 < 256
    ensures Status(byte0) == ControlChange <==> 0xB0 <= byte0 <= 0xBF
    ensures 1 <= Channel(byte0) <= 16
    ensures Status(byte0) == ControlChange ==> Channel(byte0) == byte0 - 0xB0 + 1
  {
    var b := byte0 as bv8;
    assert b as int == byte0;
    NibbleFacts(b);
    assert (0xB0 <= b <= 0xBF) == (0xB0 <= byte0 <= 0xBF);
  }

  /** The same facts on the byte itself. */
  lemma NibbleFacts(b: bv8)
    ensures (b & 0xF0 == 0xB0) == (0xB0 <= b <= 0xBF)
    ensures b & 0x0F <= 0x0F
    ensures b & 0xF0 == 0xB0 ==> b & 0x0F == b - 0xB0
  {
  }

  /** Group g listens to this control change: MIDI Enable on, same channel, same CC number. */
  predicate MidiMatches(v: seq<int>, g: int, numDests: int, byte0: int, byte1: int)
    requires GroupInside(v, g, numDests) && 0 <= byte0 < 256
  {
    MidiOffsetsAreLast(numDests);
    var base := GroupBase(g, numDests);
    && Status(byte0) == ControlChange
    && v[base + MidiEnableOffset(numDests)] != 0
    && Channel(byte0) == v[base + MidiChannelOffset(numDests)]
    && byte1 == v[base + MidiCCOffset(numDests)]
  }

  /** A matching group's state after the control change with data byte byte2. */
  function MidiApply(s: GroupView, t: ControlType, numDests: int, byte2: int): (r: GroupView)
    requires Shaped(s) && 1 <= numDests
    ensures Shaped(r)
  {
    var dest := MidiDecide(byte2, t, numDests, s.targetDest, s.lastMidiValue);
    s.(lastMidiValue := byte2, targetDest := dest, targetGains := Retarget(s.targetGains, numDests, dest))
  }

  /**
   * A control change records the data byte, moves the target into range
   * with a one-hot target vector, and leaves the gains, the CV edge history
   * and currentDest alone.
   */
  lemma MidiApplyEffects(s: GroupView, t: ControlType, numDests: int, byte2: int)
    requires Inv(s, numDests) && 0 <= byte2 < 256
    ensures var r := MidiApply(s, t, numDests, byte2);
            && Inv(r, numDests)
            && r.lastMidiValue == byte2
            && r.targetDest == MidiDecide(byte2, t, numDests, s.targetDest, s.lastMidiValue)
            && OneHotAt(r.targetGains, r.targetDest)
            && r.destGains == s.destGains && r.lastTriggerHigh == s.lastTriggerHigh
            && r.currentDest == s.currentDest
  {
    var dest := MidiDecide(byte2, t, numDests, s.targetDest, s.lastMidiValue);
    RetargetOneHot(s.targetGains, s.targetDest, numDests, dest);
  }

  /** Several control changes in a row, all matching the same group. */
  function MidiRun(s: GroupView, t: ControlType, numDests: int, values: seq<int>): (r: GroupView)
    requires Shaped(s) && 1 <= numDests
    ensures Shaped(r)
    decreases |values|
  {
    if |values| == 0 then s else MidiRun(MidiApply(s, t, numDests, values[0]), t, numDests, values[1..])
  }

  /**
   * Under Trigger, the CC sequence 0, 0, 100, 100, 0 advances the target
   * exactly once, whatever the previous CC value was.
   */
  lemma MidiTriggerOnce(s: GroupView, numDests: int)
    requires Inv(s, numDests)
    ensures MidiRun(s, Trigger, numDests, [0, 0, 100, 100, 0]).targetDest == (s.targetDest + 1) % numDests
    ensures MidiRun(s, Trigger, numDests, [0, 0]).targetDest == s.targetDest
    ensures MidiRun(s, Trigger, numDests, [0, 0, 100]).targetDest == (s.targetDest + 1) % numDests
  {
    var s1 := MidiApply(s, Trigger, numDests, 0);
    var s2 := MidiApply(s1, Trigger, numDests, 0);
    var s3 := MidiApply(s2, Trigger, numDests, 100);
    var s4 := MidiApply(s3, Trigger, numDests, 100);
    var s5 := MidiApply(s4, Trigger, numDests, 0);
    MidiTriggerSteps(0, numDests, s.targetDest, s.lastMidiValue);
    MidiTriggerSteps(0, numDests, s1.targetDest, s1.lastMidiValue);
    MidiTriggerSteps(100, numDests, s2.targetDest, s2.lastMidiValue);
    MidiTriggerSteps(100, numDests, s3.targetDest, s3.lastMidiValue);
    MidiTriggerSteps(0, numDests, s4.targetDest, s4.lastMidiValue);
    assert [0, 0, 100, 100, 0][1..] == [0, 100, 100, 0];
    assert [0, 100, 100, 0][1..] == [100, 100, 0];
    assert [100, 100, 0][1..] == [100, 0];
    assert [100, 0][1..] == [0];
    assert [0, 0][1..] == [0];
    assert [0, 0, 100][1..] == [0, 100];
    assert [0, 100][1..] == [100];
    assert MidiRun(s, Trigger, numDests, [0, 0, 100, 100, 0]) == s5;
    assert MidiRun(s, Trigger, numDests, [0, 0]) == s2;
    assert MidiRun(s, Trigger, numDests, [0, 0, 100]) == s3;
  }

  /**
   * What midiMessage does to group g (one of the first numGroups): the
   * control change is applied when the group matches it, otherwise the
   * group is left as it was.
   */
  function MidiEffect(s: GroupView, v: seq<int>, g: int, numGroups: int, numDests: int,
                      byte0: int, byte1: int, byte2: int): (r: GroupView)
    requires Shaped(s) && 0 <= g < numGroups && 1 <= numDests && |v| >= CalcReq(numGroups, numDests)
    requires 0 <= byte0 < 256
    ensures Shaped(r)
  {
    GroupInsideCalcReq(v, g, numGroups, numDests);
    if MidiMatches(v, g, numDests, byte0, byte1) then
      MidiApply(s, ControlTypeOf(v[GroupBase(g, numDests) + GpCtrlType]), numDests, byte2)
    else s
  }

  /** Anything but a control change leaves every group alone. */
  lemma MidiIgnoresOtherStatus(s: GroupView, v: seq<int>, g: int, numGroups: int, numDests: int,
                               byte0: int, byte1: int, byte2: int)
    requires Shaped(s) && 0 <= g < numGroups && 1 <= numDests && |v| >= CalcReq(numGroups, numDests)
    requires 0 <= byte0 < 256 && !(0xB0 <= byte0 <= 0xBF)
    ensures MidiEffect(s, v, g, numGroups, numDests, byte0, byte1, byte2) == s
  {
    ControlChangeBytes(byte0);
  }

  /**
   * midiMessage keeps the group invariant, and a group whose MIDI Enable is
   * off, or whose channel or CC number differs, is unchanged.
   */
  lemma MidiEffectInv(s: GroupView, v: seq<int>, g: int, numGroups: int, numDests: int,
                      byte0: int, byte1: int, byte2: int)
    requires Inv(s, numDests) && 0 <= g < numGroups && |v| >= CalcReq(numGroups, numDests)
    requires 0 <= byte0 < 256 && 0 <= byte2 < 256
    ensures GroupInside(v, g, numDests)
    ensures Inv(MidiEffect(s, v, g, numGroups, numDests, byte0, byte1, byte2), numDests)
    ensures var base := GroupBase(g, numDests);
            (v[base + MidiEnableOffset(numDests)] == 0
             || Channel(byte0) != v[base + MidiChannelOffset(numDests)]
             || byte1 != v[base + MidiCCOffset(numDests)])
            ==> MidiEffect(s, v, g, numGroups, numDests, byte0, byte1, byte2) == s
  {
    GroupInsideCalcReq(v, g, numGroups, numDests);
    MidiApplyEffects(s, ControlTypeOf(v[GroupBase(g, numDests) + GpCtrlType]), numDests, byte2);
  }
}
