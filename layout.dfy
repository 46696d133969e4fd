/**
 * Parameter layout, bus addressing and construction-time validation of the
 * switching mixer.
 *
 * The host keeps one flat array of parameter values: a block of global
 * parameters (Bypass, Global Slew) followed by one equally sized block per
 * group. Audio and CV signals live in one flat sample buffer holding
 * MaxBusses busses of N samples each; bus index 0 means "no bus".
 */
module Layout {

  datatype Option<T> = None | Some(value: T)

  const MaxGroups: int := 4
  const MaxDestinations: int := 4
  const MaxBusses: int := 28

  const ControlTypeCount: int := 6
  const CurveCount: int := 3

  // Global parameters.
  const ParamBypass: int := 0
  const ParamGlobalSlew: int := 1
  const GlobalParamCount: int := 2

  // Offsets inside one group's parameter block.
  const GpInputL: int := 0
  const GpInputR: int := 1
  const GpControl: int := 2
  const GpVolume: int := 3
  const GpCtrlType: int := 4
  const GpCurve: int := 5
  const GpSlew: int := 6
  const GpActiveDest: int := 7
  const GpDest1L: int := 8
  const GpDest1R: int := 9
  const ParamsPerGroupMax: int := 19

  /** Size of the fixed parameter table of an instance. */
  const MaxParams: int := GlobalParamCount + MaxGroups * ParamsPerGroupMax

  /* ---------------- integer helpers ---------------- */

  lemma MulMono(x: int, y: int, d: int)
    requires d >= 0 && x <= y
    ensures x * d <= y * d
  {
  }

  /** The block of a group below MaxGroups ends inside the parameter array. */
  lemma GroupBlockFits(g: int, dests: int)
    requires 0 <= g < MaxGroups && 0 <= dests <= MaxDestinations
    ensures GlobalParamCount + g * ParamsPerGroup(dests) + ParamsPerGroup(dests) <= MaxParams
  {
    var ppg := ParamsPerGroup(dests);
    MulMono(g + 1, MaxGroups, ppg);
    MulMono(ppg, ParamsPerGroupMax, MaxGroups);
    assert g * ppg + ppg == (g + 1) * ppg;
  }

  /** Euclidean division of q * d + r by d gives back q and r. */
  lemma DivModOf(q: int, r: int, d: int)
    requires d > 0 && 0 <= r < d
    ensures (q * d + r) / d == q && (q * d + r) % d == r
  {
    var p := q * d + r;
    var q2, r2 := p / d, p % d;
    assert p == q2 * d + r2 && 0 <= r2 < d;
    if q2 < q {
      MulMono(q2 + 1, q, d);
      assert false;
    } else if q2 > q {
      MulMono(q + 1, q2, d);
      assert false;
    }
  }

  /** Conversion of an int to uint8: C keeps the value modulo 256. */
  function Uint8(x: int): (b: int)
    ensures 0 <= b < 256
    ensures 0 <= x < 256 ==> b == x
  {
    x % 256
  }

  /* ---------------- bus addressing ---------------- */

  /**
   * `bus()`: the offset of bus `busIdx` (1-based) in the flat buffer of
   * busses of N samples, or None when the index selects no bus.
   */
  function Bus(busIdx: int, N: int): Option<int>
  {
    if busIdx > 0 then Some((busIdx - 1) * N) else None
  }

  /** Position of sample n of an assigned bus in the flat buffer. */
  function Pos(busIdx: int, N: int, n: int): int
    requires busIdx > 0
  {
    Bus(busIdx, N).value + n
  }

  /** Inverse of Pos: the bus a buffer position belongs to ... */
  function BusOf(p: int, N: int): int
    requires N > 0
  {
    p / N + 1
  }

  /** ... and the sample index inside that bus. */
  function SampleOf(p: int, N: int): int
    requires N > 0
  {
    p % N
  }

  lemma BusAddressing(busIdx: int, N: int)
    ensures Bus(busIdx, N).Some? <==> busIdx > 0
    ensures busIdx > 0 && N >= 0 ==> Bus(busIdx, N).value >= 0
    ensures busIdx > 0 && N >= 0 ==> Bus(busIdx, N).value + N == busIdx * N
  {
    if busIdx > 0 && N >= 0 {
      MulMono(0, busIdx - 1, N);
    }
  }

  /** Every sample of an assigned bus up to MaxBusses lies inside the buffer. */
  lemma PosInBuffer(busIdx: int, N: int, n: int)
    requires 1 <= busIdx <= MaxBusses && 0 <= n < N
    ensures 0 <= Pos(busIdx, N, n) < MaxBusses * N
  {
    MulMono(0, busIdx - 1, N);
    MulMono(busIdx, MaxBusses, N);
  }

  /** A buffer position determines its bus and its sample index. */
  lemma PosInverse(busIdx: int, N: int, n: int)
    requires busIdx > 0 && 0 <= n < N
    ensures BusOf(Pos(busIdx, N, n), N) == busIdx
    ensures SampleOf(Pos(busIdx, N, n), N) == n
  {
    DivModOf(busIdx - 1, n, N);
  }

  /** Every position of the buffer is a sample of one of the MaxBusses busses. */
  lemma PosCovers(p: int, N: int)
    requires N > 0 && 0 <= p < MaxBusses * N
    ensures 1 <= BusOf(p, N) <= MaxBusses && 0 <= SampleOf(p, N) < N
    ensures Pos(BusOf(p, N), N, SampleOf(p, N)) == p
  {
  }

  /** A buffer position is sample n of bus b exactly when its bus is b and its sample index is n. */
  lemma PosMatch(p: int, b: int, N: int, n: int)
    requires N > 0 && 0 <= p < MaxBusses * N && b > 0 && 0 <= n < N
    ensures p == Pos(b, N, n) <==> BusOf(p, N) == b && SampleOf(p, N) == n
  {
    PosCovers(p, N);
    PosInverse(b, N, n);
  }

  /** Quantified form of PosInverse, for one buffer length. */
  lemma PosInverseAll(N: int)
    requires N > 0
    ensures forall b, n :: b > 0 && 0 <= n < N ==>
              BusOf(Pos(b, N, n), N) == b && SampleOf(Pos(b, N, n), N) == n
    ensures forall b, n :: 1 <= b <= MaxBusses && 0 <= n < N ==>
              0 <= Pos(b, N, n) < MaxBusses * N
  {
    forall b, n | b > 0 && 0 <= n < N
      ensures BusOf(Pos(b, N, n), N) == b && SampleOf(Pos(b, N, n), N) == n
    {
      PosInverse(b, N, n);
    }
    forall b, n | 1 <= b <= MaxBusses && 0 <= n < N
      ensures 0 <= Pos(b, N, n) < MaxBusses * N
    {
      PosInBuffer(b, N, n);
    }
  }

  /* ---------------- parameter counts ---------------- */

  /** Parameters of one group: 8 fixed, a left/right pair per destination, 3 MIDI. */
  function ParamsPerGroup(dests: int): (n: int)
    ensures dests <= MaxDestinations ==> n <= ParamsPerGroupMax
    ensures dests >= 0 ==> n >= GpDest1L + 3
  {
    8 + (dests * 2) + 3
  }

  /** Index of the first parameter of group g. */
  function GroupBase(g: int, dests: int): int
  {
    GlobalParamCount + g * ParamsPerGroup(dests)
  }

  /**
   * calcReq: the number of parameters the host allocates for the given
   * specification values (number of groups, number of destinations).
   */
  function CalcReq(specGroups: int, specDests: int): (numParameters: int)
    ensures 1 <= specGroups <= MaxGroups && 2 <= specDests <= MaxDestinations ==>
              GlobalParamCount < numParameters <= MaxParams
  {
    var paramsPerGroup := 8 + (specDests * 2) + 3;
    GlobalParamCount + (specGroups * paramsPerGroup)
  }

  /**
   * construct's validation: the specification values are first narrowed to
   * uint8, then the group count must lie in [1, MaxGroups] and the
   * destination count in [2, MaxDestinations].
   */
  predicate Accepts(specGroups: int, specDests: int)
  {
    var groups := Uint8(specGroups);
    var dests := Uint8(specDests);
    !(groups < 1 || groups > MaxGroups) && !(dests < 2 || dests > MaxDestinations)
  }

  lemma AcceptsInRange(specGroups: int, specDests: int)
    requires 0 <= specGroups < 256 && 0 <= specDests < 256
    ensures Accepts(specGroups, specDests) <==>
              1 <= specGroups <= MaxGroups && 2 <= specDests <= MaxDestinations
  {
  }

  /**
   * construct narrows the specification values to uint8 while calcReq uses
   * them as int: a group count of 257 is accepted as one group, although the
   * requirement calcReq reports was computed for 257 groups.
   */
  lemma NarrowingDisagreesWithCalcReq()
    ensures Accepts(257, 2)
    ensures Uint8(257) == 1
    ensures CalcReq(257, 2) != CalcReq(Uint8(257), 2)
  {
  }

  /* ---------------- parameter table ---------------- */

  /** The declared range of one parameter (host metadata reduced to min and max). */
  datatype ParamRange = ParamRange(min: int, max: int)

  const BusRange: ParamRange := ParamRange(0, MaxBusses)

  /** Bypass (off/on) and Global Slew (0..5000 ms). */
  const GlobalRanges: seq<ParamRange> := [ParamRange(0, 1), ParamRange(0, 5000)]

  /** Destination pairs: a left and a right output bus per destination. */
  function DestRanges(dests: nat): (s: seq<ParamRange>)
    ensures |s| == 2 * dests
    ensures forall i :: 0 <= i < |s| ==> s[i] == BusRange
  {
    seq(2 * dests, _ => BusRange)
  }

  /** The eight fixed parameters at the head of a group's block. */
  function FixedRanges(dests: nat): (s: seq<ParamRange>)
    ensures |s| == GpDest1L
  {
    [ BusRange,                            // Input L
      BusRange,                            // Input R (0 = mono)
      BusRange,                            // Control (0 = none)
      ParamRange(-400, 60),                // Volume, tenths of dB
      ParamRange(0, ControlTypeCount - 1), // Ctrl Type
      ParamRange(0, CurveCount - 1),       // Curve
      ParamRange(0, 5000),                 // Slew, ms
      ParamRange(1, dests) ]               // Active Dest, 1-based
  }

  /** The three MIDI parameters at the end of a group's block. */
  const MidiRanges: seq<ParamRange> :=
    [ ParamRange(0, 1),                    // MIDI Enable
      ParamRange(1, 16),                   // MIDI Channel
      ParamRange(0, 127) ]                 // MIDI CC

  /** The ranges one group's block declares, in parameter order. */
  function GroupRanges(dests: nat): (s: seq<ParamRange>)
    ensures |s| == ParamsPerGroup(dests)
  {
    FixedRanges(dests) + DestRanges(dests) + MidiRanges
  }

  function GroupsRanges(groups: nat, dests: nat): seq<ParamRange>
  {
    if groups == 0 then [] else GroupsRanges(groups - 1, dests) + GroupRanges(dests)
  }

  /** The whole table construct writes: globals, then one block per group. */
  function ParamTable(groups: nat, dests: nat): seq<ParamRange>
  {
    GlobalRanges + GroupsRanges(groups, dests)
  }

  /** construct writes exactly as many parameters as calcReq requests. */
  lemma {:induction false} ParamTableSize(groups: nat, dests: nat)
    ensures |ParamTable(groups, dests)| == CalcReq(groups, dests)
  {
    if groups > 0 {
      ParamTableSize(groups - 1, dests);
    }
  }

  /** One more group appends its block to the table. */
  lemma ParamTableStep(g: nat, dests: nat)
    ensures ParamTable(g + 1, dests) == ParamTable(g, dests) + GroupRanges(dests)
  {
  }

  /** A prefix up to p followed by the slice p .. q is the prefix up to q. */
  lemma PrefixExtend<T>(a: seq<T>, p: int, q: int, x: seq<T>, y: seq<T>)
    requires 0 <= p <= q <= |a| && a[..p] == x && a[p..q] == y
    ensures a[..q] == x + y
  {
    assert a[..q] == a[..p] + a[p..q];
  }

  /** Two sequences that agree up to m agree on every slice below m. */
  lemma SameSlice<T>(a: seq<T>, b: seq<T>, i: int, j: int, m: int)
    requires 0 <= i <= j <= m <= |a| && m <= |b| && a[..m] == b[..m]
    ensures a[i..j] == b[i..j]
  {
    assert a[i..j] == a[..m][i..j];
  }

  /** Three adjacent slices make up the slice they span. */
  lemma SameSuffix<T>(a: seq<T>, b: seq<T>, i: int, j: int)
    requires 0 <= i <= j <= |a| == |b| && a[i..] == b[i..]
    ensures a[j..] == b[j..]
  {
    assert a[j..] == a[i..][j - i..];
    assert b[j..] == b[i..][j - i..];
  }

  lemma JoinSlices<T>(a: seq<T>, i: int, j: int, k: int, l: int)
    requires 0 <= i <= j <= k <= l <= |a|
    ensures a[i..l] == a[i..j] + a[j..k] + a[k..l]
  {
  }

  /** Index of parameter i of group g, as listed on the group's page. */
  function PageIndex(g: int, i: int, paramsPerGroup: int): int
  {
    GlobalParamCount + (g * paramsPerGroup) + i
  }

  /** Parameter i of group g sits at PageIndex(g, i) of the table. */
  lemma {:induction false} ParamTableEntry(groups: nat, dests: nat, g: nat, i: nat)
    requires g < groups && i < ParamsPerGroup(dests)
    ensures PageIndex(g, i, ParamsPerGroup(dests)) < CalcReq(groups, dests)
    ensures |ParamTable(groups, dests)| == CalcReq(groups, dests)
    ensures ParamTable(groups, dests)[PageIndex(g, i, ParamsPerGroup(dests))] == GroupRanges(dests)[i]
  {
    ParamTableSize(groups, dests);
    ParamTableSize(groups - 1, dests);
    var ppg := ParamsPerGroup(dests);
    assert ParamTable(groups, dests) == ParamTable(groups - 1, dests) + GroupRanges(dests);
    if g < groups - 1 {
      ParamTableEntry(groups - 1, dests, g, i);
    } else {
      assert PageIndex(g, i, ppg) == |ParamTable(groups - 1, dests)| + i;
    }
  }

  /* ---------------- MIDI offsets ---------------- */

  /** The MIDI parameters follow the destination pairs. */
  function MidiEnableOffset(dests: int): int { GpDest1L + (dests * 2) }
  function MidiChannelOffset(dests: int): int { MidiEnableOffset(dests) + 1 }
  function MidiCCOffset(dests: int): int { MidiEnableOffset(dests) + 2 }

  /** The three MIDI offsets are the last three slots of a group's block. */
  lemma MidiOffsetsAreLast(dests: nat)
    ensures MidiEnableOffset(dests) == ParamsPerGroup(dests) - 3
    ensures MidiChannelOffset(dests) == ParamsPerGroup(dests) - 2
    ensures MidiCCOffset(dests) == ParamsPerGroup(dests) - 1
    ensures GroupRanges(dests)[MidiEnableOffset(dests)] == ParamRange(0, 1)
    ensures GroupRanges(dests)[MidiChannelOffset(dests)] == ParamRange(1, 16)
    ensures GroupRanges(dests)[MidiCCOffset(dests)] == ParamRange(0, 127)
  {
  }

  /** The left and right bus of destination d lie between the fixed part and the MIDI part. */
  lemma DestOffsets(dests: nat, d: nat)
    requires d < dests
    ensures GpActiveDest < GpDest1L + d * 2 < GpDest1R + d * 2 < MidiEnableOffset(dests)
    ensures GroupRanges(dests)[GpDest1L + d * 2] == BusRange
    ensures GroupRanges(dests)[GpDest1R + d * 2] == BusRange
  {
  }

  /* ---------------- parameter pages ---------------- */

  /**
   * The group index parameterUiPrefix computes for parameter p: None for the
   * global parameters (which get no prefix), otherwise the block p falls in.
   */
  function GroupOfParam(p: int, paramsPerGroup: int): Option<int>
    requires paramsPerGroup > 0
  {
    if p < GlobalParamCount then None
    else Some((p - GlobalParamCount) / paramsPerGroup)
  }

  /** The prefix computation recovers the group from every page index of that group. */
  lemma GroupOfPageIndex(g: nat, i: nat, paramsPerGroup: int)
    requires 0 <= i < paramsPerGroup
    ensures GroupOfParam(PageIndex(g, i, paramsPerGroup), paramsPerGroup) == Some(g)
  {
    MulMono(0, g, paramsPerGroup);
    DivModOf(g, i, paramsPerGroup);
  }

  /** The global parameters get no group prefix. */
  lemma GlobalsHaveNoGroup(p: int, paramsPerGroup: int)
    requires paramsPerGroup > 0 && p < GlobalParamCount
    ensures GroupOfParam(p, paramsPerGroup) == None
  {
  }
}
