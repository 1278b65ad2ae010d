/** Exact accounts of one push: which units are taken in, which pushes discard units, where
    parts are cut, and how the AAC clock runs through whole pushes. */
module SegmenterPushes {
  import opened Wrappers
  import opened Words
  import opened NaluSamples
  import opened MediaClock
  import opened Segmenter
  import opened SegmenterRuns
  import opened SegmenterTheorems

  // ---------------------------------------------------------------- which video is taken in

  predicate HasMedia(data: Bytes) { Strip(data).Ok? && Strip(data).value != [] }

  /** The sample announces a configuration other than the installed one. */
  predicate Announces(f: Foreign, s: State, data: Bytes) {
    var parsed := ParseConfig(f, s.sps, s.pps, data);
    parsed.Some? && s.videoSignature != Some(parsed.value.1)
  }

  /** A change of configuration is obeyed on a keyframe; on any other unit it is overlooked
      when the dimensions stay, and costs the unit otherwise. */
  predicate TakesVideo(f: Foreign, s: State, u: Unit) {
    && HasMedia(u.data)
    && (Announces(f, s, u.data) ==>
          u.key || s.config == Some(ParseConfig(f, s.sps, s.pps, u.data).value.0))
  }

  function Stripped(u: Unit): Unit
    requires HasMedia(u.data)
  {
    u.(data := Strip(u.data).value)
  }

  lemma AcceptVideoIntake(f: Foreign, s: State, u: Unit, needsKey: bool)
    ensures AcceptVideo(f, s, u, needsKey).videoIn
         == if s.config.Some? && needsKey && !u.key then s.videoIn else s.videoIn + [u]
  {
    FlushKeepsIntake(f, s, u.dts);
  }

  lemma PushVideoIntake(f: Foreign, s: State, u: Unit)
    requires Shape(s)
    ensures PushVideo(f, s, u).videoIn == if TakesVideo(f, s, u) then s.videoIn + [Stripped(u)] else s.videoIn
  {
    ApplyConfigKeepsIntake(f, s, u);
    var (s1, outcome) := ApplyConfig(f, s, u);
    if !outcome.Rejected? && HasMedia(u.data) {
      AcceptVideoIntake(f, s1, Stripped(u), s.config.None? || outcome.Accepted?);
    }
  }

  /** The state a unit meets after a backward jump: nothing is known any more. */
  function Met(s: State, u: Unit): State { if Rewinds(s, u) then Reset(s) else s }

  function FramedUnit(f: Foreign, u: Unit): Option<Unit> {
    match f.frame(u.data, u.key)
    case None => None
    case Some(framed) => Some(u.(data := framed.0, key := framed.1))
  }

  /** Any H.264 unit is noted as video, whatever becomes of it. */
  function Seen(s: State): State { s.(seenVideo := true) }

  lemma VideoPushIs(f: Foreign, s: State, u: Unit)
    requires u.streamType.H264?
    ensures Push(f, s, u)
         == if FramedUnit(f, u).None? then Seen(s) else PushFramed(f, Seen(s), FramedUnit(f, u).value)
    ensures FramedUnit(f, u).Some? ==> FramedUnit(f, u).value.streamType.H264?
  {
  }

  predicate TakesUnit(f: Foreign, s: State, u: Unit) {
    FramedUnit(f, u).Some? && var v := FramedUnit(f, u).value; TakesVideo(f, Met(Seen(s), v), v)
  }

  /** What the buffer receives: the framed unit without parameter sets, at normalized times. */
  function TakenUnit(f: Foreign, s: State, u: Unit): Unit
    requires TakesUnit(f, s, u)
  {
    var v := FramedUnit(f, u).value; Stripped(Normalize(Met(Seen(s), v), v).1)
  }

  lemma FramedIntake(f: Foreign, s: State, v: Unit)
    requires Inv(s) && v.streamType.H264?
    ensures PushFramed(f, s, v).videoIn
         == if TakesVideo(f, Met(s, v), v) then s.videoIn + [Stripped(Normalize(Met(s, v), v).1)] else s.videoIn
  {
    FlushCurrentKeepsIntake(f, s);
    if Rewinds(s, v) {
      FlushCurrentKeepsInv(f, s);
      ResetKeepsInv(FlushCurrent(f, s));
      var s1 := Reset(FlushCurrent(f, s));
      NormalizeKeeps(s1, v);
      PushVideoIntake(f, Normalize(s1, v).0, Normalize(s1, v).1);
    } else {
      NormalizeKeeps(s, v);
      PushVideoIntake(f, Normalize(s, v).0, Normalize(s, v).1);
    }
  }

  lemma FramedTakesNoAudio(f: Foreign, s: State, v: Unit)
    requires v.streamType.H264?
    ensures PushFramed(f, s, v).audioIn == s.audioIn
  {
    FramedVideoAdds(f, s, v);
  }

  /** A video push takes in its unit exactly when it can be framed, has media, and does not
      announce a change of configuration it may not bring; nothing else enters the buffers. */
  lemma VideoPushTakesIff(f: Foreign, s: State, u: Unit)
    requires Inv(s) && u.streamType.H264?
    ensures var s' := Push(f, s, u);
      && s'.videoIn == (if TakesUnit(f, s, u) then s.videoIn + [TakenUnit(f, s, u)] else s.videoIn)
      && s'.audioIn == s.audioIn
  {
    VideoPushIs(f, s, u);
    SeenKeepsInv(s);
    if FramedUnit(f, u).Some? {
      FramedIntake(f, Seen(s), FramedUnit(f, u).value);
      FramedTakesNoAudio(f, Seen(s), FramedUnit(f, u).value);
    }
  }

  lemma SeenKeepsInv(s: State)
    requires Inv(s)
    ensures Inv(Seen(s)) && Seen(s).trace == s.trace && PendingUnits(Seen(s)) == PendingUnits(s)
  {
  }

  // ---------------------------------------------------------------- which steps discard units

  lemma NotLossless(a: State, b: State, c: State)
    requires a.trace <= b.trace <= c.trace
    requires exists k :: |a.trace| <= k < |b.trace| && !EmptyDrop(b.trace[k])
    ensures !Lossless(a, c)
  {
    var k :| |a.trace| <= k < |b.trace| && !EmptyDrop(b.trace[k]);
    assert c.trace[k] == b.trace[k];
  }

  lemma ClearDiscards(s: State, s': State)
    requires s'.trace == ClearPending(s).trace && PendingUnits(s) > 0
    ensures exists k :: |s.trace| <= k < |s'.trace| && !EmptyDrop(s'.trace[k])
  {
    assert !EmptyDrop(s'.trace[|s.trace|]);
  }

  lemma AcceptConfiguredIsLossless(f: Foreign, s: State, u: Unit, needsKey: bool)
    requires s.config.Some?
    ensures Lossless(s, AcceptVideo(f, s, u, needsKey))
  {
    FlushIsLossless(f, s, u.dts);
  }

  /** Video pushed without a configuration: a new one clears what is pending, and so does the
      181st pending unit. */
  predicate VideoDiscards(f: Foreign, s: State, u: Unit) {
    s.config.None? &&
      if ParseConfig(f, s.sps, s.pps, u.data).Some? then PendingUnits(s) > 0
      else HasMedia(u.data) && PendingUnits(s) + 1 > 180
  }

  lemma FirstConfigDiscardsIff(f: Foreign, s: State, u: Unit)
    requires Inv(s) && s.config.None? && ParseConfig(f, s.sps, s.pps, u.data).Some?
    ensures Lossless(s, PushVideo(f, s, u)) <==> PendingUnits(s) == 0
  {
    var (s1, outcome) := ApplyConfig(f, s, u);
    var s' := PushVideo(f, s, u);
    if HasMedia(u.data) { AcceptConfiguredIsLossless(f, s1, Stripped(u), true); }
    assert Lossless(s1, s');
    if PendingUnits(s) > 0 {
      ClearDiscards(s, s1);
      NotLossless(s, s1, s');
    } else {
      ClearIsLossless(s);
      LosslessChain(s, s1, s');
    }
  }

  lemma PendingVideoDiscardsIff(f: Foreign, s: State, u: Unit)
    requires Inv(s) && s.config.None? && ParseConfig(f, s.sps, s.pps, u.data).None?
    ensures Lossless(s, PushVideo(f, s, u)) <==>
      !(HasMedia(u.data) && PendingUnits(s) + 1 > 180)
  {
    if HasMedia(u.data) {
      var s1 := BufferVideo(s, Stripped(u));
      assert PushVideo(f, s, u) == DropPendingIfNeeded(s1);
      if PendingUnits(s1) > 180 {
        ClearDiscards(s1, ClearPending(s1));
        NotLossless(s, ClearPending(s1), ClearPending(s1));
      }
    }
  }

  lemma VideoDiscardsIff(f: Foreign, s: State, u: Unit)
    requires Inv(s)
    ensures Lossless(s, PushVideo(f, s, u)) <==> !VideoDiscards(f, s, u)
  {
    if s.config.Some? {
      PushVideoIsLossless(f, s, u);
    } else if ParseConfig(f, s.sps, s.pps, u.data).Some? {
      FirstConfigDiscardsIff(f, s, u);
    } else {
      PendingVideoDiscardsIff(f, s, u);
    }
  }

  /** A backward jump without a configuration clears what is pending. */
  predicate FramedDiscards(f: Foreign, s: State, v: Unit) {
    if Rewinds(s, v) then s.config.None? && PendingUnits(s) > 0 else VideoDiscards(f, s, v)
  }

  lemma JumpDiscardsIff(f: Foreign, s: State, v: Unit)
    requires Inv(s) && s.seenVideo && v.streamType.H264? && Rewinds(s, v)
    ensures Lossless(s, PushFramed(f, s, v)) <==> !(s.config.None? && PendingUnits(s) > 0)
  {
    var flushed := FlushCurrent(f, s);
    var s1 := Reset(flushed);
    FlushCurrentKeepsInv(f, s);
    FlushCurrentFlushes(f, s);
    ResetKeepsInv(flushed);
    ClearIsLossless(flushed);
    NormalizeKeeps(s1, v);
    var (s2, u2) := Normalize(s1, v);
    PushVideoIsLossless(f, s2, u2);
    LosslessChain(flushed, s1, s2);
    LosslessChain(flushed, s2, PushVideo(f, s2, u2));
    if s.config.None? && PendingUnits(s) > 0 {
      ClearDiscards(s, flushed);
      NotLossless(s, flushed, PushFramed(f, s, v));
    } else {
      if s.config.Some? { FlushIsLossless(f, s, ClosingDts(s)); }
      LosslessChain(s, flushed, PushFramed(f, s, v));
    }
  }

  lemma FramedDiscardsIff(f: Foreign, s: State, v: Unit)
    requires Inv(s) && s.seenVideo && v.streamType.H264?
    ensures Lossless(s, PushFramed(f, s, v)) <==> !FramedDiscards(f, s, v)
  {
    if Rewinds(s, v) {
      JumpDiscardsIff(f, s, v);
    } else {
      NormalizeKeeps(s, v);
      var (s2, u2) := Normalize(s, v);
      VideoDiscardsIff(f, s2, u2);
      assert s2.trace == s.trace;
    }
  }

  lemma WaitingAudioDiscardsIff(f: Foreign, s: State, u: Unit)
    requires Waiting(s)
    ensures Lossless(s, AcceptAudio(f, s, u)) <==> PendingUnits(s) + 1 <= 180
  {
    var s1 := BufferAudio(s, u, f.audioDurationMs(u, s.audioConfig));
    if PendingUnits(s1) > 180 {
      ClearDiscards(s1, ClearPending(s1));
      NotLossless(s, ClearPending(s1), ClearPending(s1));
    }
  }

  lemma AudioDiscardsIff(f: Foreign, s: State, u: Unit)
    ensures Lossless(s, PushAudio(f, s, u)) <==>
      !(Waiting(s) && PendingUnits(s) + 1 > 180)
  {
    if Waiting(s) {
      var (s1, u1) := ApplyAacTimeline(f, s, u);
      WaitingAudioDiscardsIff(f, NoteAudioSignature(f, s1, u1), u1);
    } else {
      PushAudioIsLossless(f, s, u);
    }
  }

  predicate StepDiscards(f: Foreign, s: State, op: Op) {
    match op
    case PushUnit(u) =>
      (match u.streamType
       case Unsupported => false
       case Audio(_) => Waiting(s) && PendingUnits(s) + 1 > 180
       case H264 => FramedUnit(f, u).Some? && FramedDiscards(f, Seen(s), FramedUnit(f, u).value))
    case Finish => s.config.None? && s.seenVideo && PendingUnits(s) > 0
    case ResetAll => PendingUnits(s) > 0
    case SetAudio(_) => false
  }

  lemma VideoPushDiscardsIff(f: Foreign, s: State, u: Unit)
    requires Inv(s) && u.streamType.H264?
    ensures Lossless(s, Push(f, s, u)) <==>
      !(FramedUnit(f, u).Some? && FramedDiscards(f, Seen(s), FramedUnit(f, u).value))
  {
    VideoPushIs(f, s, u);
    SeenKeepsInv(s);
    if FramedUnit(f, u).Some? { FramedDiscardsIff(f, Seen(s), FramedUnit(f, u).value); }
  }

  lemma AudioPushDiscardsIff(f: Foreign, s: State, u: Unit)
    requires Inv(s) && u.streamType.Audio?
    ensures Lossless(s, Push(f, s, u)) <==>
      !(Waiting(s) && PendingUnits(s) + 1 > 180)
  {
    var (s2, u2) := Normalize(s, u);
    AudioDiscardsIff(f, s2, u2);
    assert s2 == s.(timestampBase := s2.timestampBase);
  }

  lemma FinishDiscardsIff(f: Foreign, s: State)
    requires Inv(s)
    ensures Lossless(s, FlushCurrent(f, s)) <==> !(s.config.None? && s.seenVideo && PendingUnits(s) > 0)
  {
    FlushCurrentFlushes(f, s);
    if s.config.None? && s.seenVideo && PendingUnits(s) > 0 {
      ClearDiscards(s, FlushCurrent(f, s));
      NotLossless(s, FlushCurrent(f, s), FlushCurrent(f, s));
    } else if PendingUnits(s) > 0 {
      FlushIsLossless(f, s, ClosingDts(s));
    }
  }

  lemma ResetDiscardsIff(s: State)
    ensures Lossless(s, Reset(s)) <==> PendingUnits(s) == 0
  {
    if PendingUnits(s) > 0 {
      ClearDiscards(s, Reset(s));
      NotLossless(s, Reset(s), Reset(s));
    } else {
      ClearIsLossless(s);
    }
  }

  /** A step discards buffered units exactly when it clears them: a reset with anything pending;
      and, only without a configuration, a finish, a backward jump or a first configuration with
      anything pending, and the 181st pending unit. With a configuration and video started,
      nothing is ever lost but by a reset. */
  lemma StepDiscardsIff(f: Foreign, s: State, op: Op)
    requires Inv(s)
    ensures Lossless(s, Apply(f, s, op)) <==> !StepDiscards(f, s, op)
  {
    match op
    case Finish => FinishDiscardsIff(f, s);
    case ResetAll => ResetDiscardsIff(s);
    case SetAudio(_) =>
    case PushUnit(u) =>
      match u.streamType {
        case Unsupported =>
        case Audio(_) => AudioPushDiscardsIff(f, s, u);
        case H264 => VideoPushDiscardsIff(f, s, u);
      }
  }

  /** With a configuration no push and no finish discards a unit, but for audio that still waits
      for the first keyframe: configuration changes and backward jumps cut what is buffered first. */
  lemma ConfiguredStepsLoseNothing(f: Foreign, s: State, op: Op)
    requires Inv(s) && s.config.Some? && !op.ResetAll?
    requires op.PushUnit? && op.u.streamType.Audio? ==> s.startedVideo
    ensures Lossless(s, Apply(f, s, op))
  {
    StepDiscardsIff(f, s, op);
  }

  // ---------------------------------------------------------------- what an audio push prepares

  /** The unit an audio push buffers: normalized, and on the sample clock when it is ADTS. */
  function TrackedUnit(f: Foreign, s: State, u: Unit): Unit {
    var (s1, u1) := Normalize(s, u); ApplyAacTimeline(f, s1, u1).1
  }

  /** The buffers and what has happened to them. */
  predicate SameBuffers(s: State, s': State) {
    && s'.videoBuf == s.videoBuf && s'.audioBuf == s.audioBuf && s'.audioDurations == s.audioDurations
    && s'.audioBufferedMs == s.audioBufferedMs && s'.trace == s.trace && s'.minPartTicks == s.minPartTicks
    && s'.audioConfig == s.audioConfig && s'.seenVideo == s.seenVideo
  }

  /** Normalizing, tracking the clock and noting the signature touch no buffer. */
  function Prepared(f: Foreign, s: State, u: Unit): State {
    var (s1, u1) := Normalize(s, u);
    var (s2, u2) := ApplyAacTimeline(f, s1, u1);
    NoteAudioSignature(f, s2, u2)
  }

  /** Only the clocks and what the next init depends on differ. */
  predicate SameButClocks(s: State, s': State) {
    s' == s.(timestampBase := s'.timestampBase, aacTimeline := s'.aacTimeline,
             audioSignature := s'.audioSignature, forceNextInit := s'.forceNextInit)
  }

  lemma ClocksKeepInv(s: State, s': State)
    requires Inv(s) && SameButClocks(s, s')
    ensures Inv(s') && SameBuffers(s, s')
  {
  }

  lemma PreparingKeeps(f: Foreign, s: State, u: Unit)
    ensures SameButClocks(s, Prepared(f, s, u))
  {
  }

  lemma AudioPushIs(f: Foreign, s: State, u: Unit)
    requires u.streamType.Audio?
    ensures Push(f, s, u) == AcceptAudio(f, Prepared(f, s, u), TrackedUnit(f, s, u))
  {
  }

  // ---------------------------------------------------------------- the AAC clock through pushes

  /** The clocks, the settings and the intake are the same. */
  predicate SameClock(s: State, s': State) {
    && s'.aacTimeline == s.aacTimeline && s'.audioConfig == s.audioConfig
    && s'.timestampBase == s.timestampBase && s'.input == s.input && s'.audioIn == s.audioIn
  }

  lemma FlushKeepsClock(f: Foreign, s: State, nextDts: u64)
    ensures SameClock(s, Flush(f, s, nextDts))
  {
  }

  lemma AcceptAudioKeepsClock(f: Foreign, s: State, u: Unit)
    ensures SameClock(s.(audioIn := s.audioIn + [u]), AcceptAudio(f, s, u))
  {
    var durationMs := f.audioDurationMs(u, s.audioConfig);
    var s1 := if AudioCutsBefore(s, u) then Flush(f, s, 0) else s;
    FlushKeepsClock(f, s, 0);
    BufferingKeepsClock(s, s1, u, durationMs);
    FlushKeepsClock(f, BufferAudio(s1, u, durationMs), 0);
  }

  lemma BufferingKeepsClock(s: State, s1: State, u: Unit, durationMs: Option<nat>)
    requires SameClock(s, s1)
    ensures SameClock(s.(audioIn := s.audioIn + [u]), BufferAudio(s1, u, durationMs))
  {
  }

  /** A unit keeps its time, or for ADTS without a configured track gets its place on the sample
      clock, which moves on by one frame. */
  predicate OnClock(f: Foreign, s: State, n: Unit, v: Unit, timeline: Option<AacTimeline>) {
    match if s.audioConfig.Some? then None else f.adtsSampleRate(n.data)
    case None => v == n && timeline == s.aacTimeline
    case Some(rate) =>
      var input := InputDecodeTime(n.pts, rate);
      var d := match s.aacTimeline
               case None => input
               case Some(t) =>
                 if t.sampleRate == rate && -1_024 <= t.nextDecodeTime - input <= 1_024 then t.nextDecodeTime else input;
      v == n.(pts := d, dts := d) && timeline == Some(AacTimeline(rate, Min(U64_MAX, d + 1_024)))
  }

  lemma TrackedIsOnClock(f: Foreign, s: State, n: Unit)
    ensures OnClock(f, s, n, ApplyAacTimeline(f, s, n).1, ApplyAacTimeline(f, s, n).0.aacTimeline)
  {
  }

  /** An audio push takes in its unit, at its normalized time put on the clock. */
  lemma AudioPushTakes(f: Foreign, s: State, u: Unit)
    requires u.streamType.Audio?
    ensures var s', v := Push(f, s, u), TrackedUnit(f, s, u);
      s'.audioIn == s.audioIn + [v] && OnClock(f, s, Normalize(s, u).1, v, s'.aacTimeline)
  {
    AudioPushIs(f, s, u);
    AcceptAudioKeepsClock(f, Prepared(f, s, u), TrackedUnit(f, s, u));
    PreparingKeepsIntake(f, s, u);
    var (s1, u1) := Normalize(s, u);
    TrackedIsOnClock(f, s1, u1);
  }

  lemma PreparingKeepsIntake(f: Foreign, s: State, u: Unit)
    ensures var (s1, u1) := Normalize(s, u);
      var t := Prepared(f, s, u);
      t.audioIn == s.audioIn && t.aacTimeline == ApplyAacTimeline(f, s1, u1).0.aacTimeline
  {
  }

  /** An ADTS stream of one rate whose ticks, counted from the first unit, keep to the grid. */
  ghost predicate OnGridStream(f: Foreign, units: seq<Unit>, sampleRate: u32) {
    && sampleRate <= 96_000
    && (forall i :: 0 <= i < |units| ==>
          && units[i].streamType.Audio? && f.adtsSampleRate(units[i].data) == Some(sampleRate)
          && OnGrid(TickOf(units, 0), TickOf(units, i), i, sampleRate) && InRange(TickOf(units, i), sampleRate))
    && (units != [] ==> FirstDecodeTime(units, sampleRate) + |units| * AAC_FRAME <= U64_MAX)
  }

  /** Ticks of unit `i` once the first decode time is taken off. */
  function TickOf(units: seq<Unit>, i: nat): u64
    requires i < |units|
  {
    SatSub(units[i].pts, units[0].dts)
  }

  function FirstDecodeTime(units: seq<Unit>, sampleRate: u32): u64
    requires units != []
  {
    InputDecodeTime(TicksToMs(TickOf(units, 0)), sampleRate)
  }

  function Pushes(units: seq<Unit>): seq<Op> { seq(|units|, i requires 0 <= i < |units| => PushUnit(units[i])) }

  /** After `n` units the clock stands `n` frames after the first, and so did every unit taken in. */
  ghost predicate ClockAt(units: seq<Unit>, sampleRate: u32, s: State, n: nat)
    requires units != []
  {
    var d0 := FirstDecodeTime(units, sampleRate);
    && s.input.Ticks90Khz? && s.audioConfig.None?
    && s.timestampBase == (if n == 0 then None else Some(units[0].dts))
    && d0 + n * AAC_FRAME <= U64_MAX
    && s.aacTimeline == (if n == 0 then None else Some(AacTimeline(sampleRate, d0 + n * AAC_FRAME)))
    && |s.audioIn| == n
    && forall k :: 0 <= k < n ==> s.audioIn[k].pts == s.audioIn[k].dts == d0 + k * AAC_FRAME
  }

  /** The next unit of the stream gets exactly the time the clock expects. */
  lemma NextUnitIsOnTime(f: Foreign, units: seq<Unit>, sampleRate: u32, s: State, n: nat)
    requires OnGridStream(f, units, sampleRate) && n < |units| && ClockAt(units, sampleRate, s, n)
    ensures var d := FirstDecodeTime(units, sampleRate) + n * AAC_FRAME;
      && d + AAC_FRAME <= U64_MAX
      && TrackedUnit(f, s, units[n]) == units[n].(pts := d, dts := d)
      && SameClock(s.(timestampBase := Some(units[0].dts), aacTimeline := Some(AacTimeline(sampleRate, d + AAC_FRAME))),
                   Prepared(f, s, units[n]))
  {
    GridInputNearIdeal(TickOf(units, 0), TickOf(units, n), n, sampleRate);
    var d0 := FirstDecodeTime(units, sampleRate);
    assert (n + 1) * AAC_FRAME <= |units| * AAC_FRAME;
    assert Normalize(s, units[n]).1.pts == TicksToMs(TickOf(units, n));
  }

  lemma PushTicksClock(f: Foreign, units: seq<Unit>, sampleRate: u32, s: State, n: nat)
    requires OnGridStream(f, units, sampleRate) && n < |units| && ClockAt(units, sampleRate, s, n)
    ensures ClockAt(units, sampleRate, Push(f, s, units[n]), n + 1)
  {
    NextUnitIsOnTime(f, units, sampleRate, s, n);
    AudioPushIs(f, s, units[n]);
    AcceptAudioKeepsClock(f, Prepared(f, s, units[n]), TrackedUnit(f, s, units[n]));
  }

  lemma LastPush(f: Foreign, s: State, units: seq<Unit>, n: nat)
    requires 0 < n <= |units|
    ensures ApplyAll(f, s, Pushes(units)[..n]) == Push(f, ApplyAll(f, s, Pushes(units)[..n - 1]), units[n - 1])
  {
    var ops := Pushes(units)[..n];
    assert ops[..n - 1] == Pushes(units)[..n - 1] && ops[n - 1] == PushUnit(units[n - 1]);
  }

  lemma {:induction false} PushesTickClock(f: Foreign, minPartMs: u32, units: seq<Unit>, sampleRate: u32, n: nat)
    requires OnGridStream(f, units, sampleRate) && units != [] && n <= |units|
    ensures ClockAt(units, sampleRate, ApplyAll(f, Fresh(Ticks90Khz, minPartMs), Pushes(units)[..n]), n)
  {
    if n > 0 {
      PushesTickClock(f, minPartMs, units, sampleRate, n - 1);
      LastPush(f, Fresh(Ticks90Khz, minPartMs), units, n);
      PushTicksClock(f, units, sampleRate, ApplyAll(f, Fresh(Ticks90Khz, minPartMs), Pushes(units)[..n - 1]), n - 1);
    }
  }

  /** The sample clock does not drift through whole pushes: of an ADTS stream on the grid, unit
      `k` is taken in exactly `k` frames after the first. */
  lemma PushesDoNotDrift(f: Foreign, minPartMs: u32, units: seq<Unit>, sampleRate: u32, k: nat)
    requires OnGridStream(f, units, sampleRate) && k < |units|
    ensures var s := ApplyAll(f, Fresh(Ticks90Khz, minPartMs), Pushes(units));
      && |s.audioIn| == |units|
      && s.audioIn[k].pts == FirstDecodeTime(units, sampleRate) + k * AAC_FRAME
  {
    PushesTickClock(f, minPartMs, units, sampleRate, |units|);
    assert Pushes(units)[..|units|] == Pushes(units);
  }

  // ---------------------------------------------------------------- what each operation owes

  /** Every published part carries its init or follows the published one it belongs to. */
  predicate InitsInOrder(trace: seq<Batch>) { forall k :: 0 <= k < |trace| ==> InitDue(trace[..k], trace[k]) }

  /** What any operation owes: batches of the past stand, inits are in order, every unit taken in
      is in a batch or in the buffers, in order, and configured video within the part limit. */
  predicate Keeps(s: State, s': State) {
    && s.trace <= s'.trace && InitsInOrder(s'.trace)
    && VideoOf(s'.trace) + s'.videoBuf == s'.videoIn && AudioOf(s'.trace) + s'.audioBuf == s'.audioIn
    && (s'.config.Some? ==> forall i :: 1 <= i < |s'.videoBuf| ==>
          SatSub(s'.videoBuf[i].dts, s'.videoBuf[0].dts) < Min(s.minPartTicks, 180_000))
  }

  /** A push takes in its unit, audio always and video when it may, and discards units only
      where it must. */
  predicate PushOwes(f: Foreign, s: State, u: Unit, s': State) {
    && Keeps(s, s')
    && (Lossless(s, s') <==> !StepDiscards(f, s, PushUnit(u)))
    && match u.streamType
       case Unsupported => s' == s
       case Audio(_) => s'.videoIn == s.videoIn && s'.audioIn == s.audioIn + [TrackedUnit(f, s, u)]
       case H264 =>
         && s'.audioIn == s.audioIn
         && s'.videoIn == if TakesUnit(f, s, u) then s.videoIn + [TakenUnit(f, s, u)] else s.videoIn
  }

  lemma TraceOnlyGrows(f: Foreign, s: State, op: Op)
    requires Inv(s)
    ensures s.trace <= Apply(f, s, op).trace
  {
    match op
    case Finish => FlushCurrentTraceGrows(f, s);
    case ResetAll =>
    case SetAudio(_) =>
    case PushUnit(u) =>
      match u.streamType {
        case Unsupported =>
        case Audio(_) =>
          AudioPushIs(f, s, u);
          PreparingKeeps(f, s, u);
          AudioTraceGrows(f, Prepared(f, s, u), TrackedUnit(f, s, u));
        case H264 =>
          VideoPushIs(f, s, u);
          SeenKeepsInv(s);
          if FramedUnit(f, u).Some? { FramedTraceGrows(f, Seen(s), FramedUnit(f, u).value); }
      }
  }

  lemma FlushTraceGrows(f: Foreign, s: State, nextDts: u64)
    ensures s.trace <= Flush(f, s, nextDts).trace
  {
  }

  lemma AudioTraceGrows(f: Foreign, s: State, u: Unit)
    ensures s.trace <= AcceptAudio(f, s, u).trace
  {
    var durationMs := f.audioDurationMs(u, s.audioConfig);
    FlushTraceGrows(f, s, 0);
    FlushTraceGrows(f, BufferAudio(if AudioCutsBefore(s, u) then Flush(f, s, 0) else s, u, durationMs), 0);
  }

  lemma FlushCurrentTraceGrows(f: Foreign, s: State)
    requires Inv(s)
    ensures s.trace <= FlushCurrent(f, s).trace
  {
    FlushCurrentFlushes(f, s);
    FlushTraceGrows(f, s, ClosingDts(s));
  }

  lemma ConfigTraceGrows(f: Foreign, s: State, u: Unit)
    requires Inv(s)
    ensures s.trace <= ApplyConfig(f, s, u).0.trace
  {
    FlushCurrentTraceGrows(f, s);
  }

  lemma AcceptVideoTraceGrows(f: Foreign, s: State, u: Unit, needsKey: bool)
    ensures s.trace <= AcceptVideo(f, s, u, needsKey).trace
  {
    FlushTraceGrows(f, s, u.dts);
  }

  lemma VideoTraceGrows(f: Foreign, s: State, u: Unit)
    requires Inv(s)
    ensures s.trace <= PushVideo(f, s, u).trace
  {
    ConfigTraceGrows(f, s, u);
    var (s1, outcome) := ApplyConfig(f, s, u);
    if HasMedia(u.data) { AcceptVideoTraceGrows(f, s1, Stripped(u), s.config.None? || outcome.Accepted?); }
  }

  lemma JumpTraceGrows(f: Foreign, s: State)
    requires Inv(s)
    ensures var s1 := Reset(FlushCurrent(f, s)); s.trace <= s1.trace && Inv(s1)
  {
    FlushCurrentTraceGrows(f, s);
    FlushCurrentKeepsInv(f, s);
    ResetKeepsInv(FlushCurrent(f, s));
  }

  lemma FramedTraceGrows(f: Foreign, s: State, v: Unit)
    requires Inv(s) && v.streamType.H264?
    ensures s.trace <= PushFramed(f, s, v).trace
  {
    var s1 := if Rewinds(s, v) then Reset(FlushCurrent(f, s)) else s;
    JumpTraceGrows(f, s);
    NormalizeKeeps(s1, v);
    VideoTraceGrows(f, Normalize(s1, v).0, Normalize(s1, v).1);
  }

  lemma StepKeeps(f: Foreign, s: State, op: Op)
    requires Inv(s)
    ensures Inv(Apply(f, s, op)) && Keeps(s, Apply(f, s, op))
  {
    StepKeepsInv(f, s, op);
    StepKeepsTarget(f, s, op);
    TraceOnlyGrows(f, s, op);
    KeptByInv(s, Apply(f, s, op));
  }

  lemma KeptByInv(s: State, s': State)
    requires Inv(s') && s.trace <= s'.trace && s'.minPartTicks == s.minPartTicks
    ensures Keeps(s, s')
  {
    forall k | 0 <= k < |s'.trace| ensures InitDue(s'.trace[..k], s'.trace[k]) {
      assert BatchOk(TargetMs(s'), s'.trace[..k], s'.trace[k]);
    }
  }

  lemma FreshIsSound(input: TimestampInput, minPartMs: u32)
    ensures Inv(Fresh(input, minPartMs))
  {
    RunKeepsInv(PLAIN, input, minPartMs, []);
  }

  lemma ResetKeeps(s: State)
    requires Inv(s)
    ensures Inv(Reset(s)) && Keeps(s, Reset(s))
  {
    ResetKeepsInv(s);
    KeptByInv(s, Reset(s));
  }

  lemma SetAudioKeeps(s: State, audioConfig: Option<AudioTrack>)
    requires Inv(s)
    ensures Inv(SetAudioConfig(s, audioConfig))
  {
  }

  lemma PushKeepsPromise(f: Foreign, s: State, u: Unit)
    requires Inv(s)
    ensures Inv(Push(f, s, u)) && PushOwes(f, s, u, Push(f, s, u))
  {
    assert Apply(f, s, PushUnit(u)) == Push(f, s, u);
    StepKeeps(f, s, PushUnit(u));
    StepDiscardsIff(f, s, PushUnit(u));
    PushBuffersItsUnit(f, s, u);
    if u.streamType.H264? { VideoPushTakesIff(f, s, u); }
    if u.streamType.Audio? { AudioPushTakes(f, s, u); }
  }
}
