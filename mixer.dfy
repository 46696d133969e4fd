/**
 * The plugin instance and its per-group state as objects updated in place:
 * processControl, the per-group block of step, midiMessage and construct.
 * Each method is proved against the value-level functions of modules Group,
 * Routing, Gains and Policy.
 */
module Mixer {
  import opened Layout
  import opened Policy
  import opened Gains
  import opened Routing
  import opened Group

  /** MixerGroupState, with the two gain vectors as arrays of MaxDestinations slots. */
  class GroupState {
    var currentDest: int
    var targetDest: int
    const destGains: array<real>
    const targetGains: array<real>
    var lastTriggerHigh: bool
    var lastMidiValue: int

    ghost function Footprint(): set<object>
    {
      {this, destGains, targetGains}
    }

    /** The record as a value. */
    ghost function View(): GroupView
      reads this, destGains, targetGains
    {
      GroupView(currentDest, targetDest, destGains[..], targetGains[..], lastTriggerHigh, lastMidiValue)
    }

    ghost predicate Valid(numDests: int)
      reads this, destGains, targetGains
    {
      destGains != targetGains && Inv(View(), numDests)
    }

    /** The default member initialisers: destination 1 fully on, no history. */
    constructor ()
      ensures View() == InitialView
      ensures fresh(destGains) && fresh(targetGains) && destGains != targetGains
    {
      currentDest := 0;
      targetDest := 0;
      destGains := new real[MaxDestinations] [1.0, 0.0, 0.0, 0.0];
      targetGains := new real[MaxDestinations] [1.0, 0.0, 0.0, 0.0];
      lastTriggerHigh := false;
      lastMidiValue := 0;
    }

    /**
     * processControl: the destination the CV value selects under policy t.
     * Only the trigger policies update lastTriggerHigh.
     */
    method ProcessControl(cv: real, t: ControlType, numDests: int) returns (dest: int)
      requires 1 <= numDests
      modifies this`lastTriggerHigh
      ensures var r := CvDecide(cv, t, numDests, targetDest, old(lastTriggerHigh));
              dest == r.dest && lastTriggerHigh == r.lastTriggerHigh
    {
      dest := targetDest;
      match t {
        case Unipolar =>
          var normalized := ClampReal(cv / 10.0, 0.0, NormCeiling);
          dest := Quantise(normalized, numDests);
        case Bipolar =>
          var normalized := ClampReal((cv + 5.0) / 10.0, 0.0, NormCeiling);
          dest := Quantise(normalized, numDests);
        case Trigger =>
          var high := cv > TriggerThreshold;
          if high && !lastTriggerHigh {
            dest := TruncRem(targetDest + 1, numDests);
          }
          lastTriggerHigh := high;
        case TrigRev =>
          var high := cv > TriggerThreshold;
          if high && !lastTriggerHigh {
            dest := TruncRem(targetDest + numDests - 1, numDests);
          }
          lastTriggerHigh := high;
        case Gate =>
          dest := if cv > GateThreshold then Min(1, numDests - 1) else 0;
        case GateRev =>
          dest := if cv > GateThreshold then 0 else Min(1, numDests - 1);
      }
      dest := Clamp(dest, 0, numDests - 1);
    }

    /** `targetGains[d] = (d == targetDest) ? 1 : 0` for every d below numDests. */
    method RebuildTargets(numDests: int)
      requires targetGains.Length == MaxDestinations && 0 <= numDests <= MaxDestinations
      modifies targetGains
      ensures targetGains[..] == Retarget(old(targetGains[..]), numDests, targetDest)
    {
      var d := 0;
      while d < numDests
        invariant 0 <= d <= numDests
        invariant forall i :: 0 <= i < MaxDestinations ==>
                    targetGains[i] == if i < d then (if i == targetDest then 1.0 else 0.0) else old(targetGains[i])
      {
        targetGains[d] := if d == targetDest then 1.0 else 0.0;
        d := d + 1;
      }
    }

    /** One sample of slew: `destGains[d] += (targetGains[d] - destGains[d]) * rate`. */
    method SlewGains(rate: real, numDests: int)
      requires destGains.Length == MaxDestinations == targetGains.Length && destGains != targetGains
      requires 0 <= numDests <= MaxDestinations
      modifies destGains
      ensures destGains[..] == Slew(old(destGains[..]), targetGains[..], rate, numDests)
    {
      ghost var g0 := destGains[..];
      var d := 0;
      while d < numDests
        invariant 0 <= d <= numDests
        invariant forall i :: 0 <= i < MaxDestinations ==>
                    destGains[i] == if i < d then g0[i] + (targetGains[i] - g0[i]) * rate else g0[i]
      {
        destGains[d] := destGains[d] + (targetGains[d] - destGains[d]) * rate;
        d := d + 1;
      }
      assert destGains[..] == Slew(g0, targetGains[..], rate, numDests);
    }

    /** `bus(buf, b, N)[n] += x` for an assigned bus b. */
    static method AddSample(buf: array<real>, b: int, N: int, n: int, x: real)
      requires 1 <= b <= MaxBusses && 0 <= n < N && buf.Length == MaxBusses * N
      modifies buf
      ensures forall p :: 0 <= p < buf.Length ==>
                buf[p] == old(buf[p]) + (if BusOf(p, N) == b && SampleOf(p, N) == n then x else 0.0)
    {
      PosInBuffer(b, N, n);
      var q := Pos(b, N, n);
      buf[q] := buf[q] + x;
      forall p | 0 <= p < buf.Length
        ensures buf[p] == old(buf[p]) + (if BusOf(p, N) == b && SampleOf(p, N) == n then x else 0.0)
      {
        PosMatch(p, b, N, n);
      }
    }

    /**
     * The gated writes of sample n: every destination whose gain exceeds
     * GainEpsilon adds `sig * gain` to sample n of its assigned busses.
     */
    method Distribute(cfg: GroupConfig, buf: array<real>, N: int, n: int, numDests: int, sigL: real, sigR: real)
      requires ConfigOk(cfg, numDests) && 0 <= n < N && buf.Length == MaxBusses * N
      requires destGains.Length == MaxDestinations && buf != destGains
      modifies buf
      ensures forall p :: 0 <= p < buf.Length ==>
                buf[p] == old(buf[p]) + (if SampleOf(p, N) == n
                                         then SampleDelta(cfg, destGains[..], sigL, sigR, BusOf(p, N), numDests)
                                         else 0.0)
    {
      ghost var gains := destGains[..];
      var d := 0;
      while d < numDests
        invariant 0 <= d <= numDests
        invariant forall p :: 0 <= p < buf.Length ==>
                    buf[p] == old(buf[p]) + (if SampleOf(p, N) == n
                                             then SampleDelta(cfg, gains, sigL, sigR, BusOf(p, N), d)
                                             else 0.0)
      {
        RouteDestination(cfg, buf, N, n, d, destGains[d], gains, sigL, sigR);
        d := d + 1;
      }
    }

    /** Destination d, if audible, adds `sig * gain` to sample n of its left and right busses. */
    static method RouteDestination(cfg: GroupConfig, buf: array<real>, N: int, n: int, d: int, gain: real,
                                   ghost gains: seq<real>, sigL: real, sigR: real)
      requires 0 <= n < N && buf.Length == MaxBusses * N
      requires 0 <= d < |cfg.destL| && d < |cfg.destR| && d < |gains| && gains[d] == gain
      requires cfg.destL[d] <= MaxBusses && cfg.destR[d] <= MaxBusses
      modifies buf
      ensures forall p :: 0 <= p < buf.Length ==>
                buf[p] == old(buf[p]) + (if SampleOf(p, N) == n
                                         then Contribution(cfg, gains, sigL, sigR, BusOf(p, N), d)
                                         else 0.0)
    {
      if gain > GainEpsilon {
        if cfg.destL[d] > 0 {
          AddSample(buf, cfg.destL[d], N, n, sigL * gain);
        }
        if cfg.destR[d] > 0 {
          AddSample(buf, cfg.destR[d], N, n, sigR * gain);
        }
      }
    }

    /** The input samples of sample n: silence without a left bus, the left input without a right bus. */
    static method ReadInputs(cfg: GroupConfig, buf: array<real>, N: int, n: int) returns (sigL: real, sigR: real)
      requires 0 <= n < N && buf.Length == MaxBusses * N && cfg.inputL <= MaxBusses && cfg.inputR <= MaxBusses
      ensures sigL == InputL(buf[..], cfg, N, n) && sigR == InputR(buf[..], cfg, N, n)
    {
      sigL := 0.0;
      if cfg.inputL > 0 {
        PosInBuffer(cfg.inputL, N, n);
        sigL := buf[Pos(cfg.inputL, N, n)];
      }
      sigR := sigL;
      if cfg.inputR > 0 {
        PosInBuffer(cfg.inputR, N, n);
        sigR := buf[Pos(cfg.inputR, N, n)];
      }
    }

    /** The target decision of the block, through processControl when a control bus is assigned. */
    method ChooseTarget(cfg: GroupConfig, buf: array<real>, N: int, numDests: int)
      requires ConfigOk(cfg, numDests) && N > 0 && buf.Length == MaxBusses * N
      modifies this`targetDest, this`lastTriggerHigh
      ensures var r := Decide(old(View()), cfg, buf[..], N, numDests);
              targetDest == r.dest && lastTriggerHigh == r.lastTriggerHigh
    {
      if cfg.control > 0 {
        PosInBuffer(cfg.control, N, N - 1);
        var dest := ProcessControl(buf[Pos(cfg.control, N, N - 1)], cfg.ctrlType, numDests);
        targetDest := dest;
      } else {
        targetDest := cfg.activeDest;
      }
    }

    /** The sample loop of a block: read inputs, apply the volume, slew the gains, distribute. */
    method RunSamples(cfg: GroupConfig, buf: array<real>, N: int, numDests: int)
      requires ConfigOk(cfg, numDests) && N > 0 && buf.Length == MaxBusses * N
      requires destGains.Length == MaxDestinations == targetGains.Length && destGains != targetGains
      requires buf != destGains && buf != targetGains
      modifies destGains, buf
      ensures destGains[..] == SlewN(old(destGains[..]), targetGains[..], cfg.rate, numDests, N)
      ensures buf[..] == MixBlock(old(buf[..]), cfg, old(destGains[..]), targetGains[..], N, numDests)
    {
      ghost var g0, b0, t := destGains[..], buf[..], targetGains[..];
      var n := 0;
      while n < N
        invariant 0 <= n <= N
        invariant targetGains[..] == t
        invariant destGains[..] == SlewN(g0, t, cfg.rate, numDests, n)
        invariant MixedBefore(buf[..], b0, cfg, g0, t, N, numDests, n)
      {
        RunSample(cfg, buf, N, n, numDests, g0, b0, t);
        n := n + 1;
      }
      MixedBeforeAll(buf[..], b0, cfg, g0, t, N, numDests);
    }

    /** Sample n of a block: read the inputs, apply the volume, slew the gains one step, distribute. */
    method RunSample(cfg: GroupConfig, buf: array<real>, N: int, n: int, numDests: int,
                     ghost g0: seq<real>, ghost b0: seq<real>, ghost t: seq<real>)
      requires ConfigOk(cfg, numDests) && 0 <= n < N && buf.Length == MaxBusses * N
      requires destGains.Length == MaxDestinations == targetGains.Length && destGains != targetGains
      requires buf != destGains && buf != targetGains
      requires |g0| == MaxDestinations && |b0| == MaxBusses * N && targetGains[..] == t
      requires destGains[..] == SlewN(g0, t, cfg.rate, numDests, n)
      requires MixedBefore(buf[..], b0, cfg, g0, t, N, numDests, n)
      modifies destGains, buf
      ensures destGains[..] == SlewN(g0, t, cfg.rate, numDests, n + 1)
      ensures MixedBefore(buf[..], b0, cfg, g0, t, N, numDests, n + 1)
    {
      ghost var cur := buf[..];
      var inL, inR := ReadInputs(cfg, buf, N, n);
      MixedBeforeUntouched(cur, b0, cfg, g0, t, N, numDests, n);
      var sigL, sigR := inL * cfg.volume, inR * cfg.volume;
      ScaledInputs(b0, cfg, N, n, inL, inR);
      SlewGains(cfg.rate, numDests);
      ghost var gains := destGains[..];
      assert gains == BlockGains(cfg, g0, t, numDests, n);
      Distribute(cfg, buf, N, n, numDests, sigL, sigR);
      assert destGains[..] == gains;
      ghost var next := buf[..];
      forall p | 0 <= p < |next|
        ensures next[p] == cur[p] + (if SampleOf(p, N) == n
                                     then SampleDelta(cfg, gains, sigL, sigR, BusOf(p, N), numDests)
                                     else 0.0)
      {
        assert next[p] == buf[p];
      }
      MixedBeforeStep(cur, next, b0, cfg, g0, t, N, numDests, n, gains, sigL, sigR);
    }

    /**
     * One block of step for this group: choose the target, rebuild the
     * target vector, then run the samples.
     */
    method Block(cfg: GroupConfig, buf: array<real>, N: int, numDests: int)
      requires Valid(numDests) && ConfigOk(cfg, numDests) && N > 0 && buf.Length == MaxBusses * N
      requires buf != destGains && buf != targetGains
      modifies this`targetDest, this`lastTriggerHigh, destGains, targetGains, buf
      ensures Valid(numDests)
      ensures View() == BlockState(old(View()), cfg, old(buf[..]), N, numDests)
      ensures buf[..] == BlockBuffer(old(View()), cfg, old(buf[..]), N, numDests)
    {
      ghost var s0 := View();
      ghost var b0 := buf[..];
      ChooseTarget(cfg, buf, N, numDests);
      RebuildTargets(numDests);
      assert targetGains[..] == BlockTargets(s0, cfg, b0, N, numDests);
      RunSamples(cfg, buf, N, numDests);
      BlockPreservesInv(s0, cfg, b0, N, numDests);
    }

    /**
     * midiMessage's update of a matching group: the MIDI decoder's choice on
     * the data byte, the new CC history and the rebuilt target vector.
     */
    method ApplyMidi(t: ControlType, numDests: int, byte2: int)
      requires Valid(numDests) && 0 <= byte2 < 256
      modifies this`lastMidiValue, this`targetDest, targetGains
      ensures Valid(numDests)
      ensures View() == MidiApply(old(View()), t, numDests, byte2)
    {
      ghost var s0 := View();
      var dest := MidiDecide(byte2, t, numDests, targetDest, lastMidiValue);
      lastMidiValue := byte2;
      targetDest := dest;
      RebuildTargets(numDests);
      MidiApplyEffects(s0, t, numDests, byte2);
    }
  }

  /** The plugin instance: its configuration, the group states and the parameter table and pages. */
  class SwitchingMixer {
    const numGroups: int        // uint8_t
    const numDests: int         // uint8_t
    const paramsPerGroup: int   // uint8_t
    const groupState: seq<GroupState>
    const params: array<ParamRange>
    const globalParamIndices: array<int>
    const groupParamIndices: array2<int>
    const numPages: int
    ghost const Repr: set<object>

    ghost predicate Valid()
      reads this, Repr
    {
      && 1 <= numGroups <= MaxGroups && 2 <= numDests <= MaxDestinations
      && paramsPerGroup == ParamsPerGroup(numDests)
      && Apart(groupState, Repr)
      && (forall g :: 0 <= g < MaxGroups ==> groupState[g].Valid(numDests))
    }

    /** Four group states whose footprints lie in repr and do not overlap. */
    static ghost predicate Apart(gs: seq<GroupState>, repr: set<object>)
    {
      && |gs| == MaxGroups
      && (forall g :: 0 <= g < MaxGroups ==> gs[g].Footprint() <= repr)
      && (forall g, h :: 0 <= g < h < MaxGroups ==> gs[g].Footprint() !! gs[h].Footprint())
    }

    /**
     * construct for accepted specification values: groups and destinations
     * are stored, the parameter table is written group by group, and the
     * global page lists parameters 0 and 1 while page g + 1 lists group g's
     * block.
     */
    constructor (groups: int, dests: int)
      requires 1 <= groups <= MaxGroups && 2 <= dests <= MaxDestinations
      ensures Valid() && fresh(Repr)
      ensures numGroups == groups && numDests == dests && paramsPerGroup == ParamsPerGroup(dests)
      ensures forall g :: 0 <= g < MaxGroups ==> Views()[g] == InitialView
      ensures fresh(params) && params.Length == MaxParams
      ensures params[..CalcReq(groups, dests)] == ParamTable(groups, dests)
      ensures fresh(globalParamIndices) && globalParamIndices.Length == GlobalParamCount
      ensures forall i :: 0 <= i < GlobalParamCount ==> globalParamIndices[i] == i
      ensures fresh(groupParamIndices)
      ensures groupParamIndices.Length0 == MaxGroups && groupParamIndices.Length1 == ParamsPerGroupMax
      ensures forall g, i :: 0 <= g < groups && 0 <= i < paramsPerGroup ==>
                groupParamIndices[g, i] == PageIndex(g, i, paramsPerGroup)
      ensures numPages == 1 + groups
    {
      numGroups := groups;
      numDests := dests;
      var ppg := 8 + (dests * 2) + 3;
      paramsPerGroup := ppg;
      var ps := BuildParams(groups, dests);
      var gi := BuildGlobalPage();
      var pi := BuildGroupPages(groups, ppg);
      params, globalParamIndices, groupParamIndices := ps, gi, pi;
      numPages := 1 + groups;

      var gs, repr := NewGroupStates();
      groupState := gs;
      Repr := repr;
      new;
      InitialViewInv(dests);
      assert Apart(groupState, Repr);
      forall g | 0 <= g < MaxGroups
        ensures groupState[g].Valid(numDests) && groupState[g].View() == InitialView
      {
      }
    }

    /**
     * construct: the specification values are narrowed to uint8 and
     * rejected (no instance) unless 1 <= groups <= MaxGroups and
     * 2 <= dests <= MaxDestinations.
     */
    static method Construct(specGroups: int, specDests: int) returns (m: SwitchingMixer?)
      ensures (m == null) == !Accepts(specGroups, specDests)
      ensures m != null ==> fresh(m) && m.Valid() && fresh(m.Repr)
      ensures m != null ==> m.numGroups == Uint8(specGroups) && m.numDests == Uint8(specDests)
      ensures m != null ==> m.params.Length == MaxParams
      ensures m != null ==> m.params[..CalcReq(m.numGroups, m.numDests)] == ParamTable(m.numGroups, m.numDests)
      ensures m != null ==> forall g :: 0 <= g < MaxGroups ==> m.Views()[g] == InitialView
    {
      var groups := Uint8(specGroups);
      var dests := Uint8(specDests);
      if groups < 1 || groups > MaxGroups {
        return null;
      }
      if dests < 2 || dests > MaxDestinations {
        return null;
      }
      m := new SwitchingMixer(groups, dests);
    }

    /** The MaxGroups default-initialised group states, on disjoint footprints. */
    static method NewGroupStates() returns (gs: seq<GroupState>, ghost repr: set<object>)
      ensures Apart(gs, repr) && fresh(repr)
      ensures forall g :: 0 <= g < MaxGroups ==> gs[g].destGains != gs[g].targetGains && gs[g].View() == InitialView
    {
      gs, repr := [], {};
      while |gs| < MaxGroups
        invariant |gs| <= MaxGroups && fresh(repr)
        invariant forall g :: 0 <= g < |gs| ==> gs[g].Footprint() <= repr
        invariant forall g, h :: 0 <= g < h < |gs| ==> gs[g].Footprint() !! gs[h].Footprint()
        invariant forall g :: 0 <= g < |gs| ==> gs[g].destGains != gs[g].targetGains && gs[g].View() == InitialView
        decreases MaxGroups - |gs|
      {
        var s := new GroupState();
        gs, repr := gs + [s], repr + s.Footprint();
      }
    }

    /** The parameter table: the globals, then one block per group. */
    static method BuildParams(groups: int, dests: int) returns (ps: array<ParamRange>)
      requires 1 <= groups <= MaxGroups && 2 <= dests <= MaxDestinations
      ensures fresh(ps) && ps.Length == MaxParams
      ensures CalcReq(groups, dests) <= MaxParams
      ensures ps[..CalcReq(groups, dests)] == ParamTable(groups, dests)
    {
      var ppg := 8 + (dests * 2) + 3;
      ps := new ParamRange[MaxParams];
      ps[0] := ParamRange(0, 1);         // Bypass
      ps[1] := ParamRange(0, 5000);      // Global Slew
      var p := GlobalParamCount;
      var g := 0;
      while g < groups
        invariant 0 <= g <= groups
        invariant p == GlobalParamCount + g * ppg
        invariant ps[..p] == ParamTable(g, dests)
      {
        AppendGroup(ps, p, g, dests);
        p := p + ppg;
        g := g + 1;
      }
      ParamTableSize(groups, dests);
    }

    /** Group g's block, written right after the blocks of groups 0 .. g-1. */
    static method AppendGroup(ps: array<ParamRange>, p: int, g: int, dests: int)
      requires 0 <= g < MaxGroups && 2 <= dests <= MaxDestinations && ps.Length == MaxParams
      requires p == GlobalParamCount + g * ParamsPerGroup(dests)
      requires ps[..p] == ParamTable(g, dests)
      modifies ps
      ensures p + ParamsPerGroup(dests) <= MaxParams
      ensures ps[..p + ParamsPerGroup(dests)] == ParamTable(g + 1, dests)
    {
      var ppg := ParamsPerGroup(dests);
      GroupBlockFits(g, dests);
      FillGroupParams(ps, p, dests);
      PrefixExtend(ps[..], p, p + ppg, ParamTable(g, dests), GroupRanges(dests));
      ParamTableStep(g, dests);
    }

    /** The global page's parameter list: 0 and 1. */
    static method BuildGlobalPage() returns (gi: array<int>)
      ensures fresh(gi) && gi.Length == GlobalParamCount
      ensures forall i :: 0 <= i < GlobalParamCount ==> gi[i] == i
    {
      gi := new int[GlobalParamCount];
      var i := 0;
      while i < GlobalParamCount
        invariant 0 <= i <= GlobalParamCount
        invariant forall j :: 0 <= j < i ==> gi[j] == j
      {
        gi[i] := i;
        i := i + 1;
      }
    }

    /** The group pages' parameter lists: entry i of page g is `GlobalParamCount + g * ppg + i`. */
    static method BuildGroupPages(groups: int, ppg: int) returns (pi: array2<int>)
      requires 0 <= groups <= MaxGroups && 0 <= ppg <= ParamsPerGroupMax
      ensures fresh(pi) && pi.Length0 == MaxGroups && pi.Length1 == ParamsPerGroupMax
      ensures forall g, i :: 0 <= g < groups && 0 <= i < ppg ==> pi[g, i] == PageIndex(g, i, ppg)
    {
      pi := new int[MaxGroups, ParamsPerGroupMax];
      var g := 0;
      while g < groups
        invariant 0 <= g <= groups
        invariant forall h, j :: 0 <= h < g && 0 <= j < ppg ==> pi[h, j] == PageIndex(h, j, ppg)
      {
        var baseIdx := GlobalParamCount + (g * ppg);
        var j := 0;
        while j < ppg
          invariant 0 <= j <= ppg
          invariant forall h, k :: 0 <= h < g && 0 <= k < ppg ==> pi[h, k] == PageIndex(h, k, ppg)
          invariant forall k :: 0 <= k < j ==> pi[g, k] == PageIndex(g, k, ppg)
        {
          pi[g, j] := baseIdx + j;
          j := j + 1;
        }
        g := g + 1;
      }
    }

    /** The parameters of one group's block, written from position p on, in declaration order. */
    static method FillGroupParams(ps: array<ParamRange>, p: int, dests: int)
      requires 0 <= p && 2 <= dests <= MaxDestinations && p + ParamsPerGroup(dests) <= ps.Length
      modifies ps
      ensures ps[..p] == old(ps[..p])
      ensures ps[p..p + ParamsPerGroup(dests)] == GroupRanges(dests)
      ensures ps[p + ParamsPerGroup(dests)..] == old(ps[p + ParamsPerGroup(dests)..])
    {
      ghost var s0 := ps[..];
      var q := p + GpDest1L;
      var e := q + dests * 2;
      FillFixed(ps, p, dests);
      ghost var s1 := ps[..];
      assert s1[..p] == old(ps[..p]) && s1[p..q] == FixedRanges(dests);
      FillDests(ps, q, dests);
      ghost var s2 := ps[..];
      assert s2[..q] == s1[..q] && s2[q..e] == DestRanges(dests);
      FillMidi(ps, e);
      ghost var s3 := ps[..];
      assert s3[..e] == s2[..e] && s3[e..e + 3] == MidiRanges;
      SameSlice(s2, s1, 0, p, q);
      SameSlice(s3, s2, 0, p, e);
      SameSlice(s2, s1, p, q, q);
      SameSlice(s3, s2, p, q, e);
      SameSlice(s3, s2, q, e, e);
      JoinSlices(s3, p, q, e, e + 3);
      assert e + 3 == p + ParamsPerGroup(dests);
      assert ps[..p] == s3[..p] && ps[p..e + 3] == s3[p..e + 3];
      assert s1[q..] == s0[q..] && s2[e..] == s1[e..] && s3[e + 3..] == s2[e + 3..];
      SameSuffix(s1, s0, q, e + 3);
      SameSuffix(s2, s1, e, e + 3);
      assert ps[e + 3..] == s3[e + 3..];
    }

    /** Input L, Input R, Control, Volume, Ctrl Type, Curve, Slew and Active Dest. */
    static method FillFixed(ps: array<ParamRange>, p: int, dests: int)
      requires 0 <= p && 0 <= dests && p + GpDest1L <= ps.Length
      modifies ps
      ensures ps[..p] == old(ps[..p]) && ps[p..p + GpDest1L] == FixedRanges(dests)
      ensures ps[p + GpDest1L..] == old(ps[p + GpDest1L..])
    {
      ps[p] := BusRange;
      ps[p + 1] := BusRange;
      ps[p + 2] := BusRange;
      ps[p + 3] := ParamRange(-400, 60);
      ps[p + 4] := ParamRange(0, ControlTypeCount - 1);
      ps[p + 5] := ParamRange(0, CurveCount - 1);
      ps[p + 6] := ParamRange(0, 5000);
      ps[p + 7] := ParamRange(1, dests);
    }

    /** A left and a right output bus for each destination. */
    static method FillDests(ps: array<ParamRange>, q: int, dests: int)
      requires 0 <= q && 0 <= dests && q + dests * 2 <= ps.Length
      modifies ps
      ensures ps[..q] == old(ps[..q]) && ps[q..q + dests * 2] == DestRanges(dests)
      ensures ps[q + dests * 2..] == old(ps[q + dests * 2..])
    {
      var d := 0;
      while d < dests
        invariant 0 <= d <= dests
        invariant ps[..q] == old(ps[..q]) && ps[q + dests * 2..] == old(ps[q + dests * 2..])
        invariant forall k :: q <= k < q + d * 2 ==> ps[k] == BusRange
      {
        ps[q + d * 2] := BusRange;        // Dest d+1 L
        ps[q + d * 2 + 1] := BusRange;    // Dest d+1 R
        d := d + 1;
      }
    }

    /** MIDI Enable, MIDI Channel and MIDI CC. */
    static method FillMidi(ps: array<ParamRange>, e: int)
      requires 0 <= e && e + 3 <= ps.Length
      modifies ps
      ensures ps[..e] == old(ps[..e]) && ps[e..e + 3] == MidiRanges
      ensures ps[e + 3..] == old(ps[e + 3..])
    {
      ps[e] := ParamRange(0, 1);
      ps[e + 1] := ParamRange(1, 16);
      ps[e + 2] := ParamRange(0, 127);
    }

    /** The group states as values. */
    ghost function Views(): (vs: seq<GroupView>)
      requires Valid()
      reads this, Repr
      ensures |vs| == MaxGroups
      ensures forall g :: 0 <= g < MaxGroups ==> vs[g] == groupState[g].View()
    {
      [groupState[0].View(), groupState[1].View(), groupState[2].View(), groupState[3].View()]
    }

    /**
     * midiMessage: a control change updates every group among the first
     * numGroups that matches it; everything else stays as it was.
     */
    method MidiMessage(v: seq<int>, byte0: int, byte1: int, byte2: int)
      requires Valid() && |v| == CalcReq(numGroups, numDests)
      requires 0 <= byte0 < 256 && 0 <= byte1 < 256 && 0 <= byte2 < 256
      modifies Repr
      ensures Valid()
      ensures forall g :: 0 <= g < MaxGroups ==>
                Views()[g] == if g < numGroups
                              then MidiEffect(old(Views())[g], v, g, numGroups, numDests, byte0, byte1, byte2)
                              else old(Views())[g]
    {
      ghost var v0 := Views();
      if Status(byte0) != ControlChange {
        forall g | 0 <= g < numGroups
          ensures MidiEffect(v0[g], v, g, numGroups, numDests, byte0, byte1, byte2) == v0[g]
        {
          GroupInsideCalcReq(v, g, numGroups, numDests);
        }
        return;
      }
      var g := 0;
      while g < numGroups
        invariant 0 <= g <= numGroups
        invariant Valid()
        invariant forall h :: 0 <= h < MaxGroups ==>
                    Views()[h] == if h < g
                                  then MidiEffect(v0[h], v, h, numGroups, numDests, byte0, byte1, byte2)
                                  else v0[h]
      {
        MidiGroup(v, g, byte0, byte1, byte2);
        g := g + 1;
      }
    }

    /** One iteration of midiMessage's group loop, for a control change. */
    method MidiGroup(v: seq<int>, g: int, byte0: int, byte1: int, byte2: int)
      requires Valid() && |v| == CalcReq(numGroups, numDests) && 0 <= g < numGroups
      requires 0 <= byte0 < 256 && 0 <= byte2 < 256 && Status(byte0) == ControlChange
      modifies groupState[g], groupState[g].targetGains
      ensures Valid()
      ensures GroupInside(v, g, numDests)
      ensures groupState[g].View() == MidiEffect(old(groupState[g].View()), v, g, numGroups, numDests, byte0, byte1, byte2)
      ensures forall h :: 0 <= h < MaxGroups && h != g ==> groupState[h].View() == old(groupState[h].View())
    {
      GroupInsideCalcReq(v, g, numGroups, numDests);
      MidiOffsetsAreLast(numDests);
      var base := GroupBase(g, numDests);
      if v[base + MidiEnableOffset(numDests)] != 0
         && Channel(byte0) == v[base + MidiChannelOffset(numDests)]
         && byte1 == v[base + MidiCCOffset(numDests)]
      {
        var ctrlType := ControlTypeOf(v[base + GpCtrlType]);
        groupState[g].ApplyMidi(ctrlType, numDests, byte2);
      }
      forall h | 0 <= h < MaxGroups && h != g
        ensures groupState[h].View() == old(groupState[h].View()) && groupState[h].Valid(numDests)
      {
        assert groupState[h].Footprint() !! groupState[g].Footprint();
      }
    }

    /**
     * step: with Bypass on nothing changes; otherwise every group in turn
     * runs its block of N = 4 * nBy4 samples on the shared bus buffer.
     * volumes[g] is the linear gain of group g's Volume parameter and
     * coefficients[g] the smoothing coefficient of its slew time at the
     * current sample rate.
     */
    method Step(v: seq<int>, buf: array<real>, nBy4: int, volumes: seq<real>, coefficients: seq<real>)
      requires Valid() && |v| == CalcReq(numGroups, numDests) && BussesOk(v, numGroups, numDests)
      requires nBy4 >= 1 && buf.Length == MaxBusses * (nBy4 * 4) && buf !in Repr
      requires |volumes| == numGroups == |coefficients|
      requires forall g :: 0 <= g < numGroups ==> 0.0 < coefficients[g] <= 1.0
      modifies Repr, buf
      ensures Valid()
      ensures v[ParamBypass] != 0 ==> buf[..] == old(buf[..]) && Views() == old(Views())
      ensures v[ParamBypass] == 0 ==>
                var cfgs := Configs(v, numGroups, numDests, volumes, coefficients);
                && buf[..] == BufferBefore(old(Views()), cfgs, old(buf[..]), nBy4 * 4, numDests, numGroups)
                && Views() == StepViews(old(Views()), cfgs, old(buf[..]), nBy4 * 4, numDests, numGroups)
    {
      if v[ParamBypass] != 0 {
        return;
      }
      RunGroups(v, buf, nBy4 * 4, volumes, coefficients);
    }

    /** step's loop over the groups, each running its block on the buffer as the groups before it left it. */
    method RunGroups(v: seq<int>, buf: array<real>, N: int, volumes: seq<real>, coefficients: seq<real>)
      requires Valid() && |v| == CalcReq(numGroups, numDests) && BussesOk(v, numGroups, numDests)
      requires N > 0 && buf.Length == MaxBusses * N && buf !in Repr
      requires |volumes| == numGroups == |coefficients|
      requires forall g :: 0 <= g < numGroups ==> 0.0 < coefficients[g] <= 1.0
      modifies Repr, buf
      ensures Valid()
      ensures var cfgs := Configs(v, numGroups, numDests, volumes, coefficients);
              && buf[..] == BufferBefore(old(Views()), cfgs, old(buf[..]), N, numDests, numGroups)
              && Views() == StepViews(old(Views()), cfgs, old(buf[..]), N, numDests, numGroups)
    {
      ghost var v0, b0 := Views(), buf[..];
      ghost var cfgs := Configs(v, numGroups, numDests, volumes, coefficients);
      assert ConfigsOk(v0, cfgs, numDests, numGroups);
      var g := 0;
      while g < numGroups
        invariant 0 <= g <= numGroups
        invariant Valid()
        invariant buf[..] == BufferBefore(v0, cfgs, b0, N, numDests, g)
        invariant Views() == StepViews(v0, cfgs, b0, N, numDests, g)
      {
        NextGroup(v, g, buf, N, volumes, coefficients, v0, b0, cfgs);
        g := g + 1;
      }
    }

    /** One turn of RunGroups: group g runs its block; the loop's invariant advances from g to g + 1. */
    method NextGroup(v: seq<int>, g: int, buf: array<real>, N: int, volumes: seq<real>, coefficients: seq<real>,
                     ghost v0: seq<GroupView>, ghost b0: seq<real>, ghost cfgs: seq<GroupConfig>)
      requires Valid() && |v| == CalcReq(numGroups, numDests) && 0 <= g < numGroups
      requires N > 0 && buf.Length == MaxBusses * N && buf !in Repr
      requires |volumes| == numGroups == |coefficients| && |b0| == MaxBusses * N
      requires cfgs == Configs(v, numGroups, numDests, volumes, coefficients)
      requires ConfigsOk(v0, cfgs, numDests, numGroups)
      requires buf[..] == BufferBefore(v0, cfgs, b0, N, numDests, g)
      requires Views() == StepViews(v0, cfgs, b0, N, numDests, g)
      modifies Repr, buf
      ensures Valid()
      ensures buf[..] == BufferBefore(v0, cfgs, b0, N, numDests, g + 1)
      ensures Views() == StepViews(v0, cfgs, b0, N, numDests, g + 1)
    {
      ghost var before := Views();
      ghost var s := BlockState(v0[g], cfgs[g], buf[..], N, numDests);
      StepViewsAdvance(v0, cfgs, b0, N, numDests, g, s);
      assert groupState[g].View() == v0[g];
      StepGroup(v, g, buf, N, volumes[g], coefficients[g]);
    }

    /** One iteration of step's group loop: decode group g's parameters and run its block. */
    method StepGroup(v: seq<int>, g: int, buf: array<real>, N: int, volume: real, coefficient: real)
      requires Valid() && 0 <= g < numGroups && GroupInside(v, g, numDests)
      requires N > 0 && buf.Length == MaxBusses * N && buf !in Repr
      requires ConfigOk(Config(v, g, numDests, volume, coefficient), numDests)
      modifies groupState[g], groupState[g].destGains, groupState[g].targetGains, buf
      ensures Valid()
      ensures groupState[g].View()
           == BlockState(old(groupState[g].View()), Config(v, g, numDests, volume, coefficient), old(buf[..]), N, numDests)
      ensures buf[..]
           == BlockBuffer(old(groupState[g].View()), Config(v, g, numDests, volume, coefficient), old(buf[..]), N, numDests)
      ensures Views() == old(Views())[g := groupState[g].View()]
    {
      ghost var before := Views();
      var cfg := Config(v, g, numDests, volume, coefficient);
      groupState[g].Block(cfg, buf, N, numDests);
      ghost var after := before[g := groupState[g].View()];
      forall h | 0 <= h < MaxGroups
        ensures groupState[h].View() == after[h] && groupState[h].Valid(numDests)
      {
        if h != g {
          assert groupState[h].Footprint() !! groupState[g].Footprint();
        }
      }
    }
  }
}
