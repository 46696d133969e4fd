# Switching Mixer — a Dafny model

This project models the core of the Switching Mixer plugin
(`SwitchingMixer.cpp`). The plugin has up to four *groups*. Each group takes
a mono or stereo input from the host's bus buffer and routes it to one of two
to four *destinations*. Each destination is a pair of output buses. A group
picks its destination in one of two ways:

- from a control voltage (CV) on a control bus, read once per block and
  decoded under one of six policies: Unipolar, Bipolar, Trigger,
  Trigger-Reverse, Gate and Gate-Reverse;
- from the Active Dest parameter, when no control bus is assigned.

A MIDI Control Change can also move the destination. The one-hot vector of
target gains is rebuilt on every block and on every matching Control Change,
whether or not the destination changed. On every sample, a
one-pole slew moves each destination gain towards its target. The scaled
input is then added into every destination whose gain is above 0.0001.

The model has six modules:

| Module | File | What it covers |
|---|---|---|
| `Layout` | `layout.dfy` | The flat bus buffer and `bus`. `calcReq`. `construct`'s uint8 narrowing and validation. The parameter table `construct` writes, its pages, the MIDI parameter offsets, and the group index `parameterUiPrefix` prints. |
| `Policy` | `policy.dfy` | `processControl` and the decision switch of `midiMessage`, as pure functions over the edge history. Lemmas state how each policy behaves. |
| `Gains` | `gains.dfy` | The one-hot rebuild, the slew step and how the slew rate is chosen. |
| `Routing` | `routing.dfy` | One group's sample loop over the bus buffer, as a closed-form function on `seq<real>`. |
| `Group` | `group.dfy` | `MixerGroupState` as a value (`GroupView`) and its invariant. What one block of `step` and one `midiMessage` do to a group. `step` over all groups as a fold. |
| `Mixer` | `mixer.dfy` | The classes `GroupState` (`MixerGroupState`, with its gain arrays) and `SwitchingMixer`. Their methods `ProcessControl`, `Block`, `Step`, `MidiMessage` and the constructor / `Construct` update the objects in place. Each is proved against the functions above. |

### Quirks modelled as the code has them

- `currentDest` is never written.
- The Curve parameter is clamped and then ignored.
- There is no pan stage.
- The stereo input is not summed to mono. A missing right input copies the left one.
- The Gate policies leave `lastTriggerHigh` untouched.
- The group Slew time cannot be negative: its declared minimum is 0. So the
  Global Slew fallback never applies (`Gains.GlobalSlewIgnored`).
- `construct` narrows the specification values to `uint8` and `calcReq` does
  not. A group count of 257 is accepted as one group, while `calcReq`
  requested parameters for 257 groups (`Layout.NarrowingDisagreesWithCalcReq`).
- Groups run one after another on the same buffer. A later group reads as its
  input whatever earlier groups added to that bus. `Group.BufferBefore` and
  `Group.StepViews` state this. `Group.BlockSuperposition` shows that when one
  group writes neither the inputs nor the control bus of a later group, the
  later group decides as if alone, and the two blocks add up independently.
- The CV is read once per block, at the block's last sample (`ctrl[N - 1]`).
- Within one group, sample `n` writes only column `n` of every bus. So each
  sample reads the input as the block started, even when an input bus is also
  a destination (`Routing.MixedBeforeUntouched`).

## Model

| member | source | states |
|---|---|---|
| Layout.Uint8 | SwitchingMixer.cpp:219-220 | Narrowing to uint8 gives a value in [0, 256) and keeps values already in that range. |
| Layout.Bus | SwitchingMixer.cpp:169-171 | `bus`: no bus for index 0 and below, else offset (index - 1) * N. Properties in BusAddressing, PosInBuffer, PosInverse and PosCovers. |
| Layout.Pos | SwitchingMixer.cpp:169-171 | The flat buffer position of sample n of a bus. Inverted by BusOf and SampleOf (PosInverse, PosCovers, PosMatch). |
| Layout.BusOf | SwitchingMixer.cpp:169-171 | The bus a buffer position belongs to (PosCovers, PosInverse). |
| Layout.SampleOf | SwitchingMixer.cpp:169-171 | The sample a buffer position holds (PosCovers, PosInverse). |
| Layout.BusAddressing | SwitchingMixer.cpp:169-171 | `bus` gives a bus address exactly when the bus index is positive. Its offset is (index - 1) * N, so the bus ends at index * N. |
| Layout.PosInBuffer | SwitchingMixer.cpp:169-171 | Sample n of buses 1..28 lies inside the buffer of 28 * N samples. |
| Layout.PosInverse | SwitchingMixer.cpp:169-171 | From the flat position of (bus, sample) you recover both the bus and the sample. |
| Layout.PosCovers | SwitchingMixer.cpp:169-171 | Every position of the buffer is sample n of exactly one bus in 1..28. |
| Layout.PosMatch | SwitchingMixer.cpp:169-171 | A position is that of (b, n) if and only if its bus is b and its sample is n. |
| Layout.PosInverseAll | SwitchingMixer.cpp:169-171 | The inverse and in-buffer facts, for all buses and samples at once. |
| Layout.ParamsPerGroup | SwitchingMixer.cpp:206 | A group has at most ParamsPerGroupMax parameters and always has its eight fixed ones plus the three MIDI ones. |
| Layout.GroupBase | SwitchingMixer.cpp:387 | The index of group g's first parameter, GLOBAL_PARAM_COUNT + g * paramsPerGroup (also at 488). GroupInsideCalcReq bounds it. |
| Layout.CalcReq | SwitchingMixer.cpp:201-213 | For accepted specification values the parameter count is above the globals and at most MAX_PARAMS. |
| Layout.Accepts | SwitchingMixer.cpp:219-227 | construct's validation after the uint8 narrowing. Characterised by AcceptsInRange and NarrowingDisagreesWithCalcReq; used by Construct. |
| Layout.AcceptsInRange | SwitchingMixer.cpp:219-227 | For values that fit in uint8, construct accepts exactly 1..4 groups and 2..4 destinations. |
| Layout.NarrowingDisagreesWithCalcReq | SwitchingMixer.cpp:201-227 | 257 groups pass validation as 1 group. calcReq's count for 257 groups differs from the count for 1. |
| Layout.DestRanges | SwitchingMixer.cpp:277-281 | Each destination adds two parameters, each a bus selector 0..28. |
| Layout.FixedRanges | SwitchingMixer.cpp:250-274 | The eight fixed group parameters, ending right before the first destination parameter. |
| Layout.GroupRanges | SwitchingMixer.cpp:250-286 | One group's block declares exactly paramsPerGroup ranges. |
| Layout.ParamTable | SwitchingMixer.cpp:234-287 | The ranges construct writes: Bypass and Global Slew, then one block per group. Its length is calcReq's count (ParamTableSize); BuildParams writes exactly it. |
| Layout.PageIndex | SwitchingMixer.cpp:303-307 | The parameter listed at entry i of group g's page. ParamTableEntry shows it is slot i of group g's block. |
| Layout.ParamTableSize | SwitchingMixer.cpp:234-287 | construct writes exactly as many parameters as calcReq requests. |
| Layout.ParamTableStep | SwitchingMixer.cpp:245-287 | Each turn of construct's group loop appends one group block to the table. |
| Layout.ParamTableEntry | SwitchingMixer.cpp:245-311 | Page entry (g, i) indexes a parameter that exists, and that parameter is the i-th of group g's block. |
| Layout.MidiOffsetsAreLast | SwitchingMixer.cpp:483-485 | The MIDI offsets are the last three of the block, with ranges 0..1, 1..16 and 0..127 as construct declares them. |
| Layout.MidiEnableOffset | SwitchingMixer.cpp:483 | The offset of MIDI Enable in a group's block. MidiOffsetsAreLast places it and the next two offsets at the end of the block. |
| Layout.DestOffsets | SwitchingMixer.cpp:277-281 | Destination d's L and R parameters sit after Active Dest and before the MIDI block, and both are bus selectors. |
| Layout.GroupOfParam | SwitchingMixer.cpp:552-555 | The group index the prefix prints, none for globals. Properties in GroupOfPageIndex and GlobalsHaveNoGroup. |
| Layout.GroupOfPageIndex | SwitchingMixer.cpp:555 | The prefix's group index of any parameter on group g's page is g. |
| Layout.GlobalsHaveNoGroup | SwitchingMixer.cpp:552-553 | Global parameters get no group prefix. |
| Policy.Clamp | SwitchingMixer.cpp:369 | std::clamp: the result is in [lo, hi]. It equals x when x is in range, lo below and hi above. |
| Policy.ClampReal | SwitchingMixer.cpp:329 | The float clamp: the result is in [lo, hi] and equals x when x is already in range. |
| Policy.TruncRem | SwitchingMixer.cpp:343 | C++ `%`, which truncates: it agrees with the Euclidean remainder for non-negative operands and stays strictly inside (-b, b). |
| Policy.ControlTypeOf | SwitchingMixer.cpp:395-396 | A raw Ctrl Type value decodes to the ordinal of its clamp into 0..5. |
| Policy.ControlTypeRoundTrip | SwitchingMixer.cpp:395-396 | Decoding the ordinal of a policy gives that policy back. |
| Policy.CurveOf | SwitchingMixer.cpp:397-398 | The raw Curve value is clamped into Linear..S-curve. |
| Policy.Quantise | SwitchingMixer.cpp:330 | `(int)(normalized * numDests)` for a non-negative value. Bounded by QuantiseBounds, monotone by QuantiseMonotone. |
| Policy.UnipolarIndex | SwitchingMixer.cpp:329-330 | The Unipolar index before the final clamp. Properties through CvDecide in UnipolarEnds and UnipolarMonotone. |
| Policy.BipolarIndex | SwitchingMixer.cpp:335-336 | The Bipolar index before the final clamp. BipolarIsShiftedUnipolar relates it to Unipolar. |
| Policy.GateIndex | SwitchingMixer.cpp:357-364 | Gate's choice by level: `std::min(1, numDests - 1)` when high, else 0. GateIsLevel states it through CvDecide. |
| Policy.CvDecide | SwitchingMixer.cpp:323-370 | processControl returns a destination in [0, numDests). Trigger policies record whether cv > 2.5 V; other policies leave the edge history unchanged. |
| Policy.QuantiseBounds | SwitchingMixer.cpp:329-330 | A normalized value in [0, 0.9999] times numDests truncates to an index in [0, numDests). |
| Policy.QuantiseMonotone | SwitchingMixer.cpp:329-330 | A larger normalized value selects a destination at least as high. |
| Policy.UnipolarEnds | SwitchingMixer.cpp:327-332 | Unipolar: 0 V or below selects the first destination, 10 V or above the last. |
| Policy.UnipolarMonotone | SwitchingMixer.cpp:327-332 | Unipolar: a higher CV never selects a lower destination. |
| Policy.UnipolarFourDestinations | SwitchingMixer.cpp:327-332 | With four destinations: 0 V gives 0, 9.999 V gives 3, and 10 V is clamped to 3. |
| Policy.BipolarIsShiftedUnipolar | SwitchingMixer.cpp:333-338 | Bipolar at cv decides as Unipolar at cv + 5. |
| Policy.BipolarEnds | SwitchingMixer.cpp:333-338 | Bipolar: -5 V or below gives the first destination, +5 V or above the last. |
| Policy.BipolarMonotone | SwitchingMixer.cpp:333-338 | Bipolar: a higher CV never selects a lower destination. |
| Policy.TriggerSteps | SwitchingMixer.cpp:339-347 | Trigger advances to (target + 1) mod numDests exactly on a rising edge. Otherwise it stays, and it records the level. |
| Policy.TrigRevSteps | SwitchingMixer.cpp:348-356 | Trigger-Reverse steps back by one, wrapping, exactly on a rising edge. Otherwise it stays. |
| Policy.TriggerSustainedHigh | SwitchingMixer.cpp:339-356 | Once the trigger input is high, further high inputs change nothing. |
| Policy.GateIsLevel | SwitchingMixer.cpp:357-364 | Gate selects 1 above 2.5 V and 0 otherwise. Gate-Reverse does the opposite. Neither depends on history. |
| Policy.GateRepeatable | SwitchingMixer.cpp:357-364 | Applying a gate policy twice to the same CV gives the same decision. |
| Policy.MidiDecide | SwitchingMixer.cpp:498-540 | midiMessage's decision is always a destination in [0, numDests). |
| Policy.MidiQuantise | SwitchingMixer.cpp:504-505 | `(int)(byte2 / 127 * 0.9999 * numDests)`. MidiRangeEnds and MidiRangeMonotone state its ends and monotonicity through MidiDecide. |
| Policy.MidiHigh | SwitchingMixer.cpp:509-510 | A CC value counts as high above 63. Used by MidiTriggerSteps and MidiGateIsLevel. |
| Policy.MidiRangeEnds | SwitchingMixer.cpp:501-507 | For Unipolar and Bipolar, CC value 0 gives the first destination and 127 the last. |
| Policy.MidiRangeMonotone | SwitchingMixer.cpp:501-507 | A larger CC value never selects a lower destination. |
| Policy.MidiTriggerSteps | SwitchingMixer.cpp:508-527 | MIDI Trigger steps forward and Trigger-Reverse steps back exactly when the value rises over 63 from at most 63. |
| Policy.MidiGateIsLevel | SwitchingMixer.cpp:528-533 | MIDI Gate selects 1 above 63 and 0 otherwise. Gate-Reverse does the opposite. |
| Gains.RetargetOneHot | SwitchingMixer.cpp:428-431 | Rebuilding a one-hot target vector for an in-range destination makes it one-hot at that destination. |
| Gains.Retarget | SwitchingMixer.cpp:428-431 | The target rebuild: slots below numDests one-hot at dest, slots above kept. RetargetOneHot and RebuildTargets state its meaning. |
| Gains.Slew | SwitchingMixer.cpp:453-455 | One slew sample of every slot below numDests. Properties in SlewTowardTarget and SlewResidual. |
| Gains.SlewN | SwitchingMixer.cpp:443-455 | N slew samples towards a fixed target. Properties in SlewNResidual, SlewNInUnit, SlewNMonotone, SlewNUntouched and SlewInstant. |
| Gains.Seconds | SwitchingMixer.cpp:381 | A millisecond parameter times 0.001. Used by SlewRate for both slew times. |
| Gains.SlewTowardTarget | SwitchingMixer.cpp:453-455 | One slew sample with rate in (0, 1] lands between the old gain and its target. It never overshoots. |
| Gains.SlewResidual | SwitchingMixer.cpp:454 | One slew sample multiplies the distance to the target by 1 - rate. |
| Gains.SlewNResidual | SwitchingMixer.cpp:443-455 | After k samples the distance to the target is the initial distance times (1 - rate)^k. |
| Gains.SlewNUntouched | SwitchingMixer.cpp:453 | Gain slots at or above numDests are never changed. |
| Gains.SlewNInUnit | SwitchingMixer.cpp:443-455 | Gains and targets in [0, 1] keep the gains in [0, 1] for any number of samples. |
| Gains.SlewNMonotone | SwitchingMixer.cpp:443-455 | Each gain moves monotonically towards its target, one sample after another. |
| Gains.SlewInstant | SwitchingMixer.cpp:436-437 | With rate 1 every gain equals its target after the first sample. |
| Gains.SlewRate | SwitchingMixer.cpp:433-440 | The chosen rate is in (0, 1] whenever the smoothing coefficient is. |
| Gains.GlobalSlewIgnored | SwitchingMixer.cpp:434 | With a non-negative group Slew, the Global Slew value has no effect on the rate. |
| Gains.SlewRateChoice | SwitchingMixer.cpp:434-440 | A group Slew of 0 ms switches instantly (rate 1). 1 ms or more uses the smoothing coefficient. |
| Routing.MonoFeedsBothSides | SwitchingMixer.cpp:446 | With no right input, the right signal equals the left one. |
| Routing.InputL | SwitchingMixer.cpp:445 | The left input sample, 0 without a left bus. |
| Routing.InputR | SwitchingMixer.cpp:446 | The right input sample, the left one without a right bus (MonoFeedsBothSides). |
| Routing.SigL | SwitchingMixer.cpp:449 | The left input times the volume (ScaledInputs). |
| Routing.SigR | SwitchingMixer.cpp:450 | The right input times the volume (ScaledInputs). |
| Routing.Routed | SwitchingMixer.cpp:460-462 | Destination d writes bus b this sample: its gain is above 0.0001 and its L or R bus is b. Used by SampleDeltaUnrouted. |
| Routing.Contribution | SwitchingMixer.cpp:459-463 | What destination d adds to bus b: its gain times sigL on its L bus and times sigR on its R bus, only when the gain is above 0.0001. |
| Routing.SampleDelta | SwitchingMixer.cpp:458-464 | The sum of all destinations' contributions to bus b for one sample. SampleDeltaUnrouted shows an unrouted bus gets 0. |
| Routing.BlockGains | SwitchingMixer.cpp:453-455 | The gains in force at sample n: n + 1 slew samples from the block's start. |
| Routing.MixBlock | SwitchingMixer.cpp:443-465 | The buffer after one group's sample loop. Properties in MixBlockAt, MixBlockFrame, MixBlockReadsOnlyInputs and Superposition; RunSamples computes exactly it. |
| Routing.ScaledInputs | SwitchingMixer.cpp:449-450 | The signals sent out are the input samples times the group volume. |
| Routing.SampleDeltaUnrouted | SwitchingMixer.cpp:458-464 | A bus that no destination with a significant gain writes receives nothing from the sample. |
| Routing.MixedBeforeStep | SwitchingMixer.cpp:443-465 | One pass of the sample loop extends the "samples before n are mixed" invariant to n + 1. |
| Routing.MixedBeforeAll | SwitchingMixer.cpp:443-465 | When all N samples are mixed, the buffer is the closed-form block result. |
| Routing.MixedBeforeUntouched | SwitchingMixer.cpp:445-446 | Mixing earlier samples does not change the inputs read at sample n. |
| Routing.MixBlockAt | SwitchingMixer.cpp:443-464 | After the block, sample n of bus b is its old value plus the sum, over significant destinations on b, of signal times that sample's slewed gain. |
| Routing.MixBlockFrame | SwitchingMixer.cpp:458-464 | Buses that are not destinations of the group are unchanged. |
| Routing.MixBlockReadsOnlyInputs | SwitchingMixer.cpp:443-465 | What a block adds depends on the buffer only through the group's input buses. |
| Routing.Superposition | SwitchingMixer.cpp:458-464 | For given target vectors, when group a writes none of group b's inputs, mixing a then b adds to each sample what each adds alone. |
| Group.InitialViewInv | SwitchingMixer.cpp:121-128 | The default MixerGroupState satisfies the group invariant: one-hot target at destination 1, gains in [0, 1]. |
| Group.Inv | SwitchingMixer.cpp:121-128 | The group invariant: destinations in range, targets one-hot at targetDest, gains in [0, 1], unused slots silent. Kept by BlockPreservesInv, MidiEffectInv and StepPreservesInv. |
| Group.GroupInside | SwitchingMixer.cpp:488 | Group g's block of parameters lies inside the parameter store. Given by GroupInsideCalcReq. |
| Group.BusParamsOk | SwitchingMixer.cpp:406-416 | Group g's input, control and destination bus parameters are at most 28. Given by HostRangesSuffice. |
| Group.BussesOk | SwitchingMixer.cpp:386-416 | BusParamsOk for every group. Given by HostRangesGiveBusses; Step requires it. |
| Group.GroupInsideCalcReq | SwitchingMixer.cpp:488 | Every group's parameter block lies inside a parameter array of calcReq's size. |
| Group.AllGroupsInside | SwitchingMixer.cpp:387-388 | The same, for all groups at once. |
| Group.Config | SwitchingMixer.cpp:391-417 | A group's parameters decode to one L and one R bus per destination. |
| Group.ConfigOkFrom | SwitchingMixer.cpp:391-417 | Bus parameters in 0..28 and a coefficient in (0, 1] give a well-formed group configuration. |
| Group.HostRangesSuffice | SwitchingMixer.cpp:245-287 | Parameter values within their declared ranges keep every bus index at most 28 and the Slew time non-negative. |
| Group.DestWithinRange | SwitchingMixer.cpp:277-281 | A destination parameter within its declared range selects a bus in 0..28. |
| Group.SlotWithinRange | SwitchingMixer.cpp:245-287 | Slot i of group g's block lies within the range declared for slot i. |
| Group.Decide | SwitchingMixer.cpp:419-426 | The block's destination decision is always in [0, numDests). |
| Group.BlockTargets | SwitchingMixer.cpp:428-431 | The block's target vector: Retarget at the decided destination. One-hot by BlockTarget. |
| Group.BlockState | SwitchingMixer.cpp:419-465 | The group state after a block: decision, edge history, targets and N slew samples. Properties in BlockPreservesInv, BlockTarget and BlockInstant; Block computes exactly it. |
| Group.BlockBuffer | SwitchingMixer.cpp:419-465 | The buffer after a group's block. Block computes exactly it; BlockSuperposition relates two blocks. |
| Group.BlockSuperposition | SwitchingMixer.cpp:386-466 | When group a writes neither the inputs nor the control bus of group b, b's block after a's gives b the same state as on the untouched buffer, and each sample receives exactly what each block adds alone. |
| Group.BlockPreservesInv | SwitchingMixer.cpp:419-465 | One block of step keeps the group invariant: one-hot target matching targetDest, gains in [0, 1]. |
| Group.BlockTarget | SwitchingMixer.cpp:419-431 | With a control bus, the new target is processControl at ctrl[N - 1]. Without one, it is the clamped Active Dest minus 1 and the edge history is kept. Either way the targets are one-hot there. |
| Group.BlockInstant | SwitchingMixer.cpp:434-437 | A Slew of 0 makes the gains equal the targets at the end of the block. |
| Group.BufferBeforeFrame | SwitchingMixer.cpp:386-466 | A bus that none of the first k groups writes is unchanged after them. |
| Group.BufferBefore | SwitchingMixer.cpp:386-466 | The buffer after the first k groups' blocks, each on the buffer its predecessors left. BufferBeforeFrame and Step use it. |
| Group.StepViews | SwitchingMixer.cpp:386-466 | The group states after the first k groups' blocks. StepPreservesInv, StepViewsNext and StepViewsAdvance state its properties. |
| Group.StepPreservesInv | SwitchingMixer.cpp:386-466 | Running the groups' blocks in order keeps every group's invariant. |
| Group.ConfigsOkFromBusses | SwitchingMixer.cpp:386-417 | Bus parameters in 0..28 and coefficients in (0, 1] give well-formed configurations for all groups, whatever the other parameters hold. |
| Group.HostRangesGiveBusses | SwitchingMixer.cpp:245-287 | Values within their declared ranges keep every group's bus parameters in 0..28. |
| Group.Configs | SwitchingMixer.cpp:386-417 | The per-group configurations step reads, one per group, well-formed whenever the bus parameters name busses of the buffer and the coefficients lie in (0, 1]. |
| Group.StepViewsNext | SwitchingMixer.cpp:386-466 | Group k's block leaves the other groups' states alone and runs on the buffer that groups 0..k-1 left. |
| Group.StepViewsAdvance | SwitchingMixer.cpp:386-466 | Updating group k's state advances the fold over groups from k to k + 1. |
| Group.ControlChangeBytes | SwitchingMixer.cpp:473-476 | The status is Control Change exactly for bytes 0xB0..0xBF. The channel is 1..16, and it is byte0 - 0xB0 + 1 for a Control Change. |
| Group.Status | SwitchingMixer.cpp:473 | `byte0 & 0xF0`. ControlChangeBytes says when it is Control Change. |
| Group.Channel | SwitchingMixer.cpp:474 | `(byte0 & 0x0F) + 1`. ControlChangeBytes bounds it to 1..16. |
| Group.MidiMatches | SwitchingMixer.cpp:490-492 | MIDI is enabled for the group and both the channel and the CC number match. MidiEffectInv shows non-matching groups are unchanged. |
| Group.MidiApply | SwitchingMixer.cpp:539-545 | The update of a matching group. MidiApplyEffects states its effects; ApplyMidi computes exactly it. |
| Group.MidiRun | SwitchingMixer.cpp:487-546 | A sequence of matching CC values applied in order. Used by MidiTriggerOnce. |
| Group.MidiEffect | SwitchingMixer.cpp:473-546 | What one message does to one group. Properties in MidiIgnoresOtherStatus and MidiEffectInv; MidiMessage computes exactly it for every group. |
| Group.MidiApplyEffects | SwitchingMixer.cpp:498-545 | A matched CC records byte2, sets targetDest to the MIDI decision and makes the targets one-hot there. It leaves gains, trigger history and currentDest alone, and keeps the invariant. |
| Group.MidiTriggerOnce | SwitchingMixer.cpp:508-521 | A CC sequence 0, 0, 100, 100, 0 under Trigger advances the destination exactly once. |
| Group.MidiIgnoresOtherStatus | SwitchingMixer.cpp:473-476 | A message that is not a Control Change leaves the group unchanged. |
| Group.MidiEffectInv | SwitchingMixer.cpp:487-546 | midiMessage keeps the group invariant. A group whose MIDI is disabled, or whose channel or CC does not match, is unchanged. |
| Mixer.GroupState.constructor | SwitchingMixer.cpp:121-128 | The default initialisers: destinations 0, gains [1, 0, 0, 0], no edge history, on two distinct arrays. |
| Mixer.GroupState.ProcessControl | SwitchingMixer.cpp:323-370 | Returns CvDecide's destination and stores its edge history. |
| Mixer.GroupState.RebuildTargets | SwitchingMixer.cpp:428-431 | The target array becomes one-hot at targetDest below numDests. Slots above are kept. |
| Mixer.GroupState.SlewGains | SwitchingMixer.cpp:453-455 | The gain array becomes one slew sample of its old value towards the targets. |
| Mixer.GroupState.AddSample | SwitchingMixer.cpp:461-462 | Adds x to sample n of bus b and to no other position. |
| Mixer.GroupState.RouteDestination | SwitchingMixer.cpp:459-463 | One destination's update to the buffer equals its contribution. |
| Mixer.GroupState.Distribute | SwitchingMixer.cpp:458-464 | Column n of every bus gains the sum of all destinations' contributions. Other columns are unchanged. |
| Mixer.GroupState.ReadInputs | SwitchingMixer.cpp:445-446 | Reads the left input, or 0 without one, and the right input, or the left without one. |
| Mixer.GroupState.ChooseTarget | SwitchingMixer.cpp:419-426 | targetDest and the edge history become the block's decision. |
| Mixer.GroupState.RunSample | SwitchingMixer.cpp:444-464 | One sample: the gains advance one slew step and the mix invariant advances by one sample. |
| Mixer.GroupState.RunSamples | SwitchingMixer.cpp:443-465 | After N samples the gains are N slew steps further and the buffer is the closed-form block result. |
| Mixer.GroupState.Block | SwitchingMixer.cpp:419-465 | One group's block: the state becomes BlockState and the buffer BlockBuffer, keeping the invariant. |
| Mixer.GroupState.ApplyMidi | SwitchingMixer.cpp:498-545 | A matched CC decides as MidiDecide, records byte2, rebuilds the targets and so updates the group state as MidiApply says, keeping the invariant. |
| Mixer.SwitchingMixer.constructor | SwitchingMixer.cpp:229-316 | Stores groups, destinations and paramsPerGroup. Writes exactly ParamTable for the first calcReq parameters. Fills the global page and each group's page. Sets numPages = 1 + groups. Default-initialises four disjoint group states. |
| Mixer.SwitchingMixer.Construct | SwitchingMixer.cpp:216-232 | Gives no instance exactly when the uint8-narrowed values fail validation. Otherwise the instance stores the narrowed counts. |
| Mixer.SwitchingMixer.NewGroupStates | SwitchingMixer.cpp:121-128 | MAX_GROUPS fresh default group states on pairwise disjoint objects. |
| Mixer.SwitchingMixer.BuildParams | SwitchingMixer.cpp:234-287 | The parameter array holds the globals, then one block per group, exactly as ParamTable. |
| Mixer.SwitchingMixer.AppendGroup | SwitchingMixer.cpp:245-287 | One turn of the group loop extends the written prefix from ParamTable(g) to ParamTable(g + 1). |
| Mixer.SwitchingMixer.FillGroupParams | SwitchingMixer.cpp:250-286 | Writes exactly one group's block at p: the slots before p and from p + paramsPerGroup on keep their values. |
| Mixer.SwitchingMixer.FillFixed | SwitchingMixer.cpp:250-274 | Writes the eight fixed ranges at p and no other slot. |
| Mixer.SwitchingMixer.FillDests | SwitchingMixer.cpp:277-281 | Writes a bus range for each destination's L and R slots and no other slot. |
| Mixer.SwitchingMixer.FillMidi | SwitchingMixer.cpp:284-286 | Writes the three MIDI ranges at e and no other slot. |
| Mixer.SwitchingMixer.BuildGlobalPage | SwitchingMixer.cpp:294-296 | The global page lists parameters 0 and 1. |
| Mixer.SwitchingMixer.BuildGroupPages | SwitchingMixer.cpp:303-307 | Page g lists globals + g * paramsPerGroup + i for each i. |
| Mixer.SwitchingMixer.MidiMessage | SwitchingMixer.cpp:470-547 | Every active group's state becomes MidiEffect of its old state. Unused group slots are unchanged and the instance stays valid. |
| Mixer.SwitchingMixer.MidiGroup | SwitchingMixer.cpp:487-546 | One turn of midiMessage's group loop changes group g as MidiEffect says and no other group. |
| Mixer.SwitchingMixer.Step | SwitchingMixer.cpp:373-467 | Under Bypass, the buffer and states are unchanged. Otherwise the buffer and all group states are the fold of the groups' blocks, in group order. Only the bus parameters must name busses of the buffer: out-of-range Ctrl Type, Curve, Active Dest and a negative Slew go through the clamps and the Global Slew fallback. |
| Mixer.SwitchingMixer.RunGroups | SwitchingMixer.cpp:386-466 | The loop over the groups produces the fold over all groups. |
| Mixer.SwitchingMixer.NextGroup | SwitchingMixer.cpp:386-466 | One turn of the group loop advances the fold from group g to g + 1. |
| Mixer.SwitchingMixer.StepGroup | SwitchingMixer.cpp:391-465 | Group g runs its block with the configuration its parameters give. Other groups are unchanged. |

## Left out

- The volume `dbToGain(v * 0.1)` (`std::pow`) and the slew coefficient `1 - exp(-1 / (sampleRate * slewTime))` are not computed. They enter `Step` as one abstract number each per group, with the coefficient required to lie in (0, 1].
- getSampleRateFloat is left out: the sample rate only feeds the abstract slew coefficient.
- Floating point is modelled as exact reals. Rounding in `normalized * numDests`, `cv / 10` and the gain updates is not modelled.
- Parameter metadata (names, defaults, units, scaling, enum strings) is not modelled. Only each parameter's declared minimum and maximum is kept.
- The page names and the page table record handed to the host are left out.
- NT_intToString and the text of the prefix are not modelled. Only the group index that is printed is kept.
- The compiler helper `__aeabi_i2f`, the factory record, the request/serialise plumbing and the host API are not modelled.
- The audio callback and the MIDI callback are modelled as separate calls. Any concurrency between them is left out.
- The host parameter store `v` is a `seq<int>`: the int16 storage width is not modelled.
- Mixer.SwitchingMixer.Step: requires every group's bus parameters to be at most 28 (`BussesOk`), because the code indexes the buffer with them unchecked; the host guarantees this by the declared ranges (`Group.HostRangesGiveBusses`).
- Mixer.SwitchingMixer.Step: requires `nBy4 >= 1`, because the control bus is read at `ctrl[N - 1]`.
- Mixer.SwitchingMixer.Step: requires the slew coefficient in (0, 1], because it is abstract.
- Policy.CurveOf: the Curve value is decoded but never used, as in the code, so no crossfade curve is modelled.
