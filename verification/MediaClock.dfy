/** Tick and millisecond conversions, and the AAC sample clock rebuilt from rounded times. */
module MediaClock {
  import opened Wrappers
  import opened Words

  const TICKS_PER_SECOND: nat := 90_000
  const AAC_FRAME: nat := 1_024
  const AAC_FRAME_TICKS: nat := AAC_FRAME * TICKS_PER_SECOND

  function MsToTicks(ms: u32): u64 { ms * TICKS_PER_SECOND / 1_000 }

  function MsToTicksU64(ms: nat): u64 { SatMul(ms, TICKS_PER_SECOND) / 1_000 }

  function TicksToMs(ticks: nat): u64 {
    SatAdd(SatMul(ticks, 1_000), TICKS_PER_SECOND / 2) / TICKS_PER_SECOND
  }

  /** Part targets survive the trip through ticks. */
  lemma TicksToMsInvertsMsToTicks(ms: u32)
    ensures TicksToMs(MsToTicks(ms)) == ms
  {
    assert MsToTicks(ms) == ms * 90;
    assert SatAdd(SatMul(ms * 90, 1_000), 45_000) == ms * 90_000 + 45_000;
  }

  /** Milliseconds count 90 ticks; ticks become the nearest millisecond, half a millisecond up. */
  lemma ConversionsAreNearest(ms: u32, x: nat)
    ensures MsToTicks(ms) == 90 * ms
    ensures 90_000 * x <= U64_MAX ==> MsToTicksU64(x) == 90 * x
    ensures 1_000 * x + 45_000 <= U64_MAX ==> 90 * TicksToMs(x) <= x + 45 < 90 * TicksToMs(x) + 90
  {
  }

  datatype AacTimeline = AacTimeline(sampleRate: u32, nextDecodeTime: u64)

  /** Rounded sample position of a millisecond time. */
  function InputDecodeTime(ptsMs: nat, sampleRate: u32): u64 {
    SatAdd(SatMul(ptsMs, sampleRate), 500) / 1_000
  }

  /** The nearest sample, half a sample up. */
  lemma DecodeTimeIsNearest(ptsMs: nat, sampleRate: u32)
    requires ptsMs * sampleRate + 500 <= U64_MAX
    ensures var d := InputDecodeTime(ptsMs, sampleRate); 1_000 * d <= ptsMs * sampleRate + 500 < 1_000 * d + 1_000
  {
  }

  /** The time due if the input is near it, else the input; one frame later is due next. */
  function Advance(timeline: Option<AacTimeline>, sampleRate: u32, input: u64): (u64, AacTimeline) {
    var decode :=
      if timeline.Some? && timeline.value.sampleRate == sampleRate then
        (if AbsDiff(timeline.value.nextDecodeTime, input) > AAC_FRAME then input else timeline.value.nextDecodeTime)
      else input;
    (decode, AacTimeline(sampleRate, SatAdd(decode, AAC_FRAME)))
  }

  /** `apply_aac_timeline` for a unit with a readable ADTS header. */
  function ApplyTimeline(timeline: Option<AacTimeline>, sampleRate: u32, ptsMs: nat): (u64, AacTimeline) {
    Advance(timeline, sampleRate, InputDecodeTime(ptsMs, sampleRate))
  }

  function Inputs(sampleRate: u32, ptsMs: seq<nat>): seq<u64> {
    seq(|ptsMs|, i requires 0 <= i < |ptsMs| => InputDecodeTime(ptsMs[i], sampleRate))
  }

  /** Output decode times for a run of units of one sample rate, from their rounded inputs. */
  function Run(timeline: Option<AacTimeline>, sampleRate: u32, inputs: seq<u64>): (r: seq<u64>)
    ensures |r| == |inputs|
    decreases |inputs|
  {
    if inputs == [] then []
    else
      var (decode, next) := Advance(timeline, sampleRate, inputs[0]);
      [decode] + Run(Some(next), sampleRate, inputs[1..])
  }

  /** A first output is its input. After an output, one frame later is right as long as it is within
      1024 samples of the input, and the input itself is right otherwise; so every output is. */
  lemma {:induction false} RunStaysNearInput(timeline: Option<AacTimeline>, sampleRate: u32, inputs: seq<u64>, k: nat)
    requires k < |inputs|
    ensures var out := Run(timeline, sampleRate, inputs);
      && AbsDiff(out[k], inputs[k]) <= 1_024
      && (k > 0 ==> out[k] == NextTime(out[k - 1], inputs[k]))
      && (k == 0 && (timeline.None? || timeline.value.sampleRate != sampleRate) ==> out[k] == inputs[k])
    decreases |inputs|
  {
    var (decode, next) := Advance(timeline, sampleRate, inputs[0]);
    if k > 0 {
      RunStaysNearInput(Some(next), sampleRate, inputs[1..], k - 1);
      if k == 1 {
        assert Run(Some(next), sampleRate, inputs[1..])[0] == Advance(Some(next), sampleRate, inputs[1]).0;
      }
    }
  }

  /** One frame after `previous`, as far as 64 bits go, unless the input is more than 1024 samples away. */
  function NextTime(previous: nat, input: nat): nat {
    var due := Min(U64_MAX, previous + 1_024);
    if -1_024 <= due - input <= 1_024 then due else input
  }

  // ---------------------------------------------------------------- no drift

  /** Tick `t` is within 800 ticks of the ideal position of frame `k` after `t0`. */
  predicate OnGrid(t0: nat, t: nat, k: nat, sampleRate: u32) {
    AbsDiff(t * sampleRate, t0 * sampleRate + k * AAC_FRAME_TICKS) <= 800 * sampleRate
  }

  /** The roundings of this tick do not reach the end of the 64-bit range. */
  predicate InRange(t: nat, sampleRate: u32) {
    && t * 1_000 + 45_000 <= U64_MAX
    && TicksToMs(t) * sampleRate + 500 <= U64_MAX
  }

  /** Two roundings move a tick by at most half a millisecond and half a sample. */
  lemma RoundingError(t: nat, sampleRate: u32)
    requires InRange(t, sampleRate)
    ensures AbsDiff(TICKS_PER_SECOND * InputDecodeTime(TicksToMs(t), sampleRate), t * sampleRate)
         <= 45_000 + 45 * sampleRate
  {
    var ms: nat := TicksToMs(t);
    assert AbsDiff(90 * ms, t) <= 45;
    var p := ms * sampleRate;
    var input: nat := InputDecodeTime(ms, sampleRate);
    assert AbsDiff(1_000 * input, p) <= 500;
    ScaledDiff(90 * ms, t, sampleRate, 45);
    assert (90 * ms) * sampleRate == 90 * p;
    assert AbsDiff(90_000 * input, 90 * p) <= 45_000;
  }

  lemma ScaledDiff(a: nat, b: nat, m: nat, bound: nat)
    requires AbsDiff(a, b) <= bound
    ensures AbsDiff(a * m, b * m) <= bound * m
  {
    if a >= b {
      assert a * m - b * m == (a - b) * m;
      assert (bound - (a - b)) * m >= 0;
    } else {
      assert b * m - a * m == (b - a) * m;
      assert (bound - (b - a)) * m >= 0;
    }
  }

  /** On the grid, input `k` is within one frame of `k` frames after input 0. */
  lemma GridInputNearIdeal(t0: nat, t: nat, k: nat, sampleRate: u32)
    requires sampleRate <= 96_000 && OnGrid(t0, t, k, sampleRate)
    requires InRange(t0, sampleRate) && InRange(t, sampleRate)
    ensures AbsDiff(InputDecodeTime(TicksToMs(t), sampleRate),
                    InputDecodeTime(TicksToMs(t0), sampleRate) + k * AAC_FRAME) <= AAC_FRAME
  {
    RoundingError(t0, sampleRate);
    RoundingError(t, sampleRate);
    var d0: nat := InputDecodeTime(TicksToMs(t0), sampleRate);
    var d: nat := InputDecodeTime(TicksToMs(t), sampleRate);
    var x0, x := t0 * sampleRate, t * sampleRate;
    assert k * AAC_FRAME_TICKS == 90_000 * (k * AAC_FRAME);
    assert AbsDiff(90_000 * d, 90_000 * (d0 + k * AAC_FRAME)) <= 90_000 + 890 * sampleRate;
  }

  /** For 90 kHz inputs on the grid the double rounding never triggers a resync: output `k`
      is exactly `k` frames after the first. */
  lemma {:induction false} NoDrift(sampleRate: u32, ticks: seq<nat>, k: nat)
    requires k < |ticks| && sampleRate <= 96_000
    requires forall i :: 0 <= i < |ticks| ==> OnGrid(ticks[0], ticks[i], i, sampleRate) && InRange(ticks[i], sampleRate)
    requires InputDecodeTime(TicksToMs(ticks[0]), sampleRate) + |ticks| * AAC_FRAME <= U64_MAX
    ensures Run(None, sampleRate, Inputs(sampleRate, Rounded(ticks)))[k]
         == InputDecodeTime(TicksToMs(ticks[0]), sampleRate) + k * AAC_FRAME
  {
    var inputs := Inputs(sampleRate, Rounded(ticks));
    forall i | 0 <= i < |ticks| ensures AbsDiff(inputs[i], inputs[0] + i * AAC_FRAME) <= AAC_FRAME {
      GridInputNearIdeal(ticks[0], ticks[i], i, sampleRate);
    }
    if k > 0 {
      SteadyRun(sampleRate, inputs, inputs[0], 1, k);
    }
  }

  function Rounded(ticks: seq<nat>): seq<nat> {
    seq(|ticks|, i requires 0 <= i < |ticks| => TicksToMs(ticks[i]))
  }

  /** Once the clock expects `d0 + i` frames, inputs near the ideal keep it there. */
  lemma {:induction false} SteadyRun(sampleRate: u32, inputs: seq<u64>, d0: nat, i: nat, k: nat)
    requires i <= k < |inputs|
    requires forall j :: i <= j < |inputs| ==> AbsDiff(inputs[j], d0 + j * AAC_FRAME) <= AAC_FRAME
    requires d0 + |inputs| * AAC_FRAME <= U64_MAX
    ensures Run(Some(AacTimeline(sampleRate, d0 + i * AAC_FRAME)), sampleRate, inputs[i..])[k - i] == d0 + k * AAC_FRAME
    decreases k - i
  {
    var rest := inputs[i..];
    assert rest[0] == inputs[i] && rest[1..] == inputs[i + 1..];
    var (decode, next) := Advance(Some(AacTimeline(sampleRate, d0 + i * AAC_FRAME)), sampleRate, rest[0]);
    assert decode == d0 + i * AAC_FRAME && next == AacTimeline(sampleRate, d0 + (i + 1) * AAC_FRAME);
    if k > i { SteadyRun(sampleRate, inputs, d0, i + 1, k); }
  }

  /** Tick of frame `k` of one demuxed payload: each frame adds its duration rounded up. */
  function FrameTick(t0: nat, sampleRate: u32, k: nat): nat
    requires sampleRate > 0
  {
    t0 + k * ((AAC_FRAME_TICKS + sampleRate - 1) / sampleRate)
  }

  /** How far one rounded-up frame overshoots, in ticks times the rate. */
  function Excess(sampleRate: u32): (e: nat)
    requires sampleRate > 0
    ensures e < sampleRate
  {
    (AAC_FRAME_TICKS + sampleRate - 1) / sampleRate * sampleRate - AAC_FRAME_TICKS
  }

  lemma FrameTickIs(t0: nat, sampleRate: u32, k: nat)
    requires sampleRate > 0
    ensures FrameTick(t0, sampleRate, k) * sampleRate == t0 * sampleRate + k * AAC_FRAME_TICKS + k * Excess(sampleRate)
  {
    var step := (AAC_FRAME_TICKS + sampleRate - 1) / sampleRate;
    Spread(t0, k, step, sampleRate);
    assert step * sampleRate == AAC_FRAME_TICKS + Excess(sampleRate);
    Distribute(k, AAC_FRAME_TICKS, Excess(sampleRate));
  }

  lemma Spread(t0: nat, k: nat, step: nat, m: nat)
    ensures (t0 + k * step) * m == t0 * m + k * (step * m)
  {
  }

  lemma Distribute(k: nat, a: nat, b: nat)
    ensures k * (a + b) == k * a + k * b
  {
  }

  /** The rounded-up ticks of one payload's frames are on the grid exactly as long as the
      overshoots add up to no more than 800 ticks: for any rate, through frame 800. */
  lemma PayloadTicksOnGridIff(t0: nat, sampleRate: u32, k: nat)
    requires 0 < sampleRate
    ensures OnGrid(t0, FrameTick(t0, sampleRate, k), k, sampleRate) <==> k * Excess(sampleRate) <= 800 * sampleRate
    ensures k <= 800 ==> OnGrid(t0, FrameTick(t0, sampleRate, k), k, sampleRate)
  {
    FrameTickIs(t0, sampleRate, k);
    if k <= 800 { ProductsOrdered(k, Excess(sampleRate), 800, sampleRate); }
  }

  lemma ProductsOrdered(a: nat, b: nat, c: nat, d: nat)
    requires a <= c && b <= d
    ensures a * b <= c * d
  {
    assert a * b <= c * b by { Distribute(b, a, c - a); }
    assert c * b <= c * d by { Distribute(c, b, d - b); }
  }
}
