/**
 * The control decoders: how a control value (a CV sample in volts, or a
 * MIDI CC data byte) and one of six response policies choose a destination
 * index. Both decoders are pure here; the edge history they consult and
 * update is passed in and returned.
 *
 * Float arithmetic is modelled by exact reals (see README, "Left out").
 */
module Policy {
  import opened Layout

  /** Control response policies, in the order of the "Ctrl Type" parameter. */
  datatype ControlType = Unipolar | Bipolar | Trigger | TrigRev | Gate | GateRev

  /** Crossfade curves of the "Curve" parameter (decoded but never used by the routing). */
  datatype Curve = Linear | EqualPower | SCurve

  const TriggerThreshold: real := 2.5
  const GateThreshold: real := 2.5

  /** Upper clamp of a normalised control value: keeps the quantised index below the destination count. */
  const NormCeiling: real := 0.9999

  /** A MIDI data byte counts as high above this value. */
  const MidiHighAbove: int := 63

  /** std::clamp on integers. */
  function Clamp(x: int, lo: int, hi: int): (r: int)
    requires lo <= hi
    ensures lo <= r <= hi
    ensures lo <= x <= hi ==> r == x
    ensures x < lo ==> r == lo
    ensures hi < x ==> r == hi
  {
    if x < lo then lo else if hi < x then hi else x
  }

  /** std::clamp on floats, modelled on reals. */
  function ClampReal(x: real, lo: real, hi: real): (r: real)
    requires lo <= hi
    ensures lo <= r <= hi
    ensures lo <= x <= hi ==> r == x
  {
    if x < lo then lo else if hi < x then hi else x
  }

  function Min(a: int, b: int): int
  {
    if b < a then b else a
  }

  /** C's `%` on int: the remainder takes the sign of the dividend. */
  function TruncRem(a: int, b: int): (r: int)
    requires b > 0
    ensures a >= 0 ==> r == a % b
    ensures -b < r < b
  {
    if a >= 0 then a % b else -((-a) % b)
  }

  /** The position of a policy in the "Ctrl Type" enum. */
  function Ordinal(t: ControlType): int
  {
    match t
    case Unipolar => 0
    case Bipolar => 1
    case Trigger => 2
    case TrigRev => 3
    case Gate => 4
    case GateRev => 5
  }

  /** The validated conversion of a raw "Ctrl Type" value: clamp into the enum, then select. */
  function ControlTypeOf(raw: int): (t: ControlType)
    ensures Ordinal(t) == Clamp(raw, 0, ControlTypeCount - 1)
  {
    match Clamp(raw, 0, ControlTypeCount - 1)
    case 0 => Unipolar
    case 1 => Bipolar
    case 2 => Trigger
    case 3 => TrigRev
    case 4 => Gate
    case _ => GateRev
  }

  /** Every policy is reached from its own ordinal. */
  lemma ControlTypeRoundTrip(t: ControlType)
    ensures ControlTypeOf(Ordinal(t)) == t
  {
  }

  /** The validated conversion of a raw "Curve" value. */
  function CurveOf(raw: int): (c: Curve)
    ensures raw <= 0 ==> c == Linear
    ensures raw >= CurveCount - 1 ==> c == SCurve
  {
    match Clamp(raw, 0, CurveCount - 1)
    case 0 => Linear
    case 1 => EqualPower
    case _ => SCurve
  }

  function IsTriggerType(t: ControlType): bool
  {
    t == Trigger || t == TrigRev
  }

  /* ---------------- CV decoder (processControl) ---------------- */

  /** `(int)(normalized * numDests)` for a non-negative normalised value. */
  function Quantise(normalized: real, numDests: int): int
  {
    (normalized * (numDests as real)).Floor
  }

  /** Unipolar: 0 V selects the first destination, 10 V the last. */
  function UnipolarIndex(cv: real, numDests: int): int
  {
    Quantise(ClampReal(cv / 10.0, 0.0, NormCeiling), numDests)
  }

  /** Bipolar: -5 V selects the first destination, +5 V the last. */
  function BipolarIndex(cv: real, numDests: int): int
  {
    Quantise(ClampReal((cv + 5.0) / 10.0, 0.0, NormCeiling), numDests)
  }

  /** Gate: high selects the second destination (or the first when there is only one). */
  function GateIndex(high: bool, numDests: int): int
  {
    if high then Min(1, numDests - 1) else 0
  }

  /** The outcome of one decoder call: the destination, and the new edge history. */
  datatype Decision = Decision(dest: int, lastTriggerHigh: bool)

  /**
   * processControl: the destination a CV value selects under policy t, given
   * the group's current target and trigger history. Only the trigger
   * policies update the history.
   */
  function CvDecide(cv: real, t: ControlType, numDests: int, targetDest: int, lastTriggerHigh: bool): (r: Decision)
    requires numDests >= 1
    ensures 0 <= r.dest < numDests
    ensures IsTriggerType(t) ==> r.lastTriggerHigh == (cv > TriggerThreshold)
    ensures !IsTriggerType(t) ==> r.lastTriggerHigh == lastTriggerHigh
  {
    var high := cv > TriggerThreshold;
    var rising := high && !lastTriggerHigh;
    match t
    case Unipolar => Decision(Clamp(UnipolarIndex(cv, numDests), 0, numDests - 1), lastTriggerHigh)
    case Bipolar => Decision(Clamp(BipolarIndex(cv, numDests), 0, numDests - 1), lastTriggerHigh)
    case Trigger =>
      var dest := if rising then TruncRem(targetDest + 1, numDests) else targetDest;
      Decision(Clamp(dest, 0, numDests - 1), high)
    case TrigRev =>
      var dest := if rising then TruncRem(targetDest + numDests - 1, numDests) else targetDest;
      Decision(Clamp(dest, 0, numDests - 1), high)
    case Gate => Decision(Clamp(GateIndex(cv > GateThreshold, numDests), 0, numDests - 1), lastTriggerHigh)
    case GateRev => Decision(Clamp(GateIndex(!(cv > GateThreshold), numDests), 0, numDests - 1), lastTriggerHigh)
  }

  /** The quantiser never reaches numDests: the ceiling 0.9999 keeps the product below it. */
  lemma QuantiseBounds(x: real, numDests: int)
    requires 0.0 <= x <= NormCeiling && 1 <= numDests <= MaxDestinations
    ensures 0 <= Quantise(x, numDests) <= numDests - 1
  {
    assert 0.0 <= x * (numDests as real) <= NormCeiling * (numDests as real);
  }

  lemma QuantiseMonotone(x: real, y: real, numDests: int)
    requires 0.0 <= x <= y && numDests >= 1
    ensures Quantise(x, numDests) <= Quantise(y, numDests)
  {
    assert x * (numDests as real) <= y * (numDests as real);
  }

  /**
   * Unipolar: at or below 0 V the first destination, at or above 10 V the
   * last one, and monotone in between.
   */
  lemma UnipolarEnds(cv: real, numDests: int, targetDest: int, lastHigh: bool)
    requires 1 <= numDests <= MaxDestinations
    ensures cv <= 0.0 ==> CvDecide(cv, Unipolar, numDests, targetDest, lastHigh).dest == 0
    ensures cv >= 10.0 ==> CvDecide(cv, Unipolar, numDests, targetDest, lastHigh).dest == numDests - 1
  {
    if cv >= 10.0 {
      assert ClampReal(cv / 10.0, 0.0, NormCeiling) == NormCeiling;
      assert Quantise(NormCeiling, numDests) == numDests - 1;
    }
  }

  lemma UnipolarMonotone(cv1: real, cv2: real, numDests: int, targetDest: int, lastHigh: bool)
    requires cv1 <= cv2 && 1 <= numDests
    ensures CvDecide(cv1, Unipolar, numDests, targetDest, lastHigh).dest
         <= CvDecide(cv2, Unipolar, numDests, targetDest, lastHigh).dest
  {
    QuantiseMonotone(ClampReal(cv1 / 10.0, 0.0, NormCeiling), ClampReal(cv2 / 10.0, 0.0, NormCeiling), numDests);
  }

  /** Bipolar is Unipolar on the value shifted up by 5 volts. */
  lemma BipolarIsShiftedUnipolar(cv: real, numDests: int, targetDest: int, lastHigh: bool)
    requires numDests >= 1
    ensures CvDecide(cv, Bipolar, numDests, targetDest, lastHigh)
         == CvDecide(cv + 5.0, Unipolar, numDests, targetDest, lastHigh)
  {
  }

  lemma BipolarEnds(cv: real, numDests: int, targetDest: int, lastHigh: bool)
    requires 1 <= numDests <= MaxDestinations
    ensures cv <= -5.0 ==> CvDecide(cv, Bipolar, numDests, targetDest, lastHigh).dest == 0
    ensures cv >= 5.0 ==> CvDecide(cv, Bipolar, numDests, targetDest, lastHigh).dest == numDests - 1
  {
    BipolarIsShiftedUnipolar(cv, numDests, targetDest, lastHigh);
    UnipolarEnds(cv + 5.0, numDests, targetDest, lastHigh);
  }

  lemma BipolarMonotone(cv1: real, cv2: real, numDests: int, targetDest: int, lastHigh: bool)
    requires cv1 <= cv2 && 1 <= numDests
    ensures CvDecide(cv1, Bipolar, numDests, targetDest, lastHigh).dest
         <= CvDecide(cv2, Bipolar, numDests, targetDest, lastHigh).dest
  {
    BipolarIsShiftedUnipolar(cv1, numDests, targetDest, lastHigh);
    BipolarIsShiftedUnipolar(cv2, numDests, targetDest, lastHigh);
    UnipolarMonotone(cv1 + 5.0, cv2 + 5.0, numDests, targetDest, lastHigh);
  }

  /** Four destinations: 0 V, 9.999 V and 10 V select destinations 0, 3 and 3. */
  lemma UnipolarFourDestinations(targetDest: int, lastHigh: bool)
    ensures CvDecide(0.0, Unipolar, 4, targetDest, lastHigh).dest == 0
    ensures CvDecide(9.999, Unipolar, 4, targetDest, lastHigh).dest == 3
    ensures CvDecide(10.0, Unipolar, 4, targetDest, lastHigh).dest == 3
  {
    assert Quantise(0.9999, 4) == 3;
  }

  /**
   * Trigger moves only on a rising edge (high now, low before), one step
   * forward modulo the destination count; it always records the level.
   */
  lemma TriggerSteps(cv: real, numDests: int, targetDest: int, lastHigh: bool)
    requires 0 <= targetDest < numDests
    ensures CvDecide(cv, Trigger, numDests, targetDest, lastHigh).dest
         == if cv > TriggerThreshold && !lastHigh then (targetDest + 1) % numDests else targetDest
    ensures CvDecide(cv, Trigger, numDests, targetDest, lastHigh).lastTriggerHigh == (cv > TriggerThreshold)
  {
  }

  /** Trig Rev: the same edge detection, one step backwards modulo the destination count. */
  lemma TrigRevSteps(cv: real, numDests: int, targetDest: int, lastHigh: bool)
    requires 0 <= targetDest < numDests
    ensures CvDecide(cv, TrigRev, numDests, targetDest, lastHigh).dest
         == if cv > TriggerThreshold && !lastHigh then (targetDest + numDests - 1) % numDests else targetDest
    ensures CvDecide(cv, TrigRev, numDests, targetDest, lastHigh).lastTriggerHigh == (cv > TriggerThreshold)
  {
  }

  /** A sustained high level after a trigger call selects nothing new. */
  lemma TriggerSustainedHigh(cv1: real, cv2: real, t: ControlType, numDests: int, targetDest: int, lastHigh: bool)
    requires IsTriggerType(t) && numDests >= 1
    requires cv1 > TriggerThreshold && cv2 > TriggerThreshold
    ensures var r1 := CvDecide(cv1, t, numDests, targetDest, lastHigh);
            CvDecide(cv2, t, numDests, r1.dest, r1.lastTriggerHigh) == r1
  {
  }

  /**
   * Gate and Gate Rev depend on the level only: with at least two
   * destinations Gate selects 1 when high and 0 when low, Gate Rev the
   * reverse; neither reads nor writes the trigger history.
   */
  lemma GateIsLevel(cv: real, numDests: int, targetDest: int, lastHigh: bool)
    requires 2 <= numDests
    ensures CvDecide(cv, Gate, numDests, targetDest, lastHigh)
         == Decision(if cv > GateThreshold then 1 else 0, lastHigh)
    ensures CvDecide(cv, GateRev, numDests, targetDest, lastHigh)
         == Decision(if cv > GateThreshold then 0 else 1, lastHigh)
  {
  }

  /** Feeding the same level to a gate policy twice gives the same decision both times. */
  lemma GateRepeatable(cv: real, t: ControlType, numDests: int, targetDest: int, lastHigh: bool)
    requires (t == Gate || t == GateRev) && numDests >= 2
    ensures var r1 := CvDecide(cv, t, numDests, targetDest, lastHigh);
            CvDecide(cv, t, numDests, r1.dest, r1.lastTriggerHigh) == r1
  {
    GateIsLevel(cv, numDests, targetDest, lastHigh);
    var r1 := CvDecide(cv, t, numDests, targetDest, lastHigh);
    GateIsLevel(cv, numDests, r1.dest, r1.lastTriggerHigh);
  }

  /* ---------------- MIDI decoder (midiMessage) ---------------- */

  /** `(int)(byte2 / 127.0f * 0.9999f * numDests)`, on exact reals. */
  function MidiQuantise(value: int, numDests: int): int
  {
    (value as real / 127.0 * NormCeiling * (numDests as real)).Floor
  }

  function MidiHigh(value: int): bool
  {
    value > MidiHighAbove
  }

  /**
   * midiMessage's decision: the destination a CC data byte selects under
   * policy t, given the group's current target and the previous CC value.
   * Unipolar and Bipolar share one mapping of 0..127; the result is
   * clamped into the destination range.
   */
  function MidiDecide(value: int, t: ControlType, numDests: int, targetDest: int, lastMidiValue: int): (dest: int)
    requires numDests >= 1
    ensures 0 <= dest < numDests
  {
    var rising := MidiHigh(value) && !MidiHigh(lastMidiValue);
    var raw :=
      match t
      case Unipolar => MidiQuantise(value, numDests)
      case Bipolar => MidiQuantise(value, numDests)
      case Trigger => if rising then TruncRem(targetDest + 1, numDests) else targetDest
      case TrigRev => if rising then TruncRem(targetDest + numDests - 1, numDests) else targetDest
      case Gate => GateIndex(MidiHigh(value), numDests)
      case GateRev => GateIndex(!MidiHigh(value), numDests);
    Clamp(raw, 0, numDests - 1)
  }

  /** CC 0 selects the first destination and CC 127 the last, under Unipolar and Bipolar. */
  lemma MidiRangeEnds(t: ControlType, numDests: int, targetDest: int, lastMidiValue: int)
    requires (t == Unipolar || t == Bipolar) && 1 <= numDests <= MaxDestinations
    ensures MidiDecide(0, t, numDests, targetDest, lastMidiValue) == 0
    ensures MidiDecide(127, t, numDests, targetDest, lastMidiValue) == numDests - 1
  {
    assert 127 as real / 127.0 * NormCeiling == NormCeiling;
    assert NormCeiling * (numDests as real) >= (numDests - 1) as real;
  }

  /** The MIDI range mapping is monotone in the data byte. */
  lemma MidiRangeMonotone(v1: int, v2: int, t: ControlType, numDests: int, targetDest: int, lastMidiValue: int)
    requires (t == Unipolar || t == Bipolar) && 0 <= v1 <= v2 && numDests >= 1
    ensures MidiDecide(v1, t, numDests, targetDest, lastMidiValue)
         <= MidiDecide(v2, t, numDests, targetDest, lastMidiValue)
  {
    var a := v1 as real / 127.0 * NormCeiling;
    var b := v2 as real / 127.0 * NormCeiling;
    assert a <= b;
    assert a * (numDests as real) <= b * (numDests as real);
    assert MidiQuantise(v1, numDests) <= MidiQuantise(v2, numDests);
  }

  /** MIDI Trigger and Trig Rev step only on a transition from <= 63 to > 63. */
  lemma MidiTriggerSteps(value: int, numDests: int, targetDest: int, lastMidiValue: int)
    requires 0 <= targetDest < numDests
    ensures MidiDecide(value, Trigger, numDests, targetDest, lastMidiValue)
         == if value > MidiHighAbove && lastMidiValue <= MidiHighAbove then (targetDest + 1) % numDests else targetDest
    ensures MidiDecide(value, TrigRev, numDests, targetDest, lastMidiValue)
         == if value > MidiHighAbove && lastMidiValue <= MidiHighAbove then (targetDest + numDests - 1) % numDests else targetDest
  {
  }

  /** MIDI Gate and Gate Rev depend on the data byte alone. */
  lemma MidiGateIsLevel(value: int, numDests: int, targetDest: int, lastMidiValue: int)
    requires 2 <= numDests
    ensures MidiDecide(value, Gate, numDests, targetDest, lastMidiValue) == if value > MidiHighAbove then 1 else 0
    ensures MidiDecide(value, GateRev, numDests, targetDest, lastMidiValue) == if value > MidiHighAbove then 0 else 1
  {
  }
}
