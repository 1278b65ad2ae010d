/** The segmenter's promises, read off its invariant for all runs. */
module SegmenterTheorems {
  import opened Wrappers
  import opened Words
  import opened NaluSamples
  import opened MediaClock
  import opened Segmenter
  import opened SegmenterRuns

  // ---------------------------------------------------------------- init segments

  /** Every published part carries an init of its own signature, or the latest init that was
      published before it has that signature: under any publish failures, resets,
      configuration changes and timestamp jumps. */
  lemma InitDiscipline(f: Foreign, input: TimestampInput, minPartMs: u32, ops: seq<Op>, k: nat)
    requires var trace := ApplyAll(f, Fresh(input, minPartMs), ops).trace;
      k < |trace| && PublishedBatch(trace[k])
    ensures var trace := ApplyAll(f, Fresh(input, minPartMs), ops).trace;
      trace[k].part.init || LatestInit(trace[..k]) == Some(trace[k].part.signature)
  {
    RunKeepsInv(f, input, minPartMs, ops);
    var s := ApplyAll(f, Fresh(input, minPartMs), ops);
    assert BatchOk(TargetMs(s), s.trace[..k], s.trace[k]);
  }

  /** Every video unit of a part was buffered under the configuration the part is boxed with;
      parts are numbered by the boxes before them and fragments by the attempts. */
  lemma PartsMatchConfiguration(f: Foreign, input: TimestampInput, minPartMs: u32, ops: seq<Op>, k: nat)
    requires var trace := ApplyAll(f, Fresh(input, minPartMs), ops).trace; k < |trace| && trace[k].Cut?
    ensures var trace := ApplyAll(f, Fresh(input, minPartMs), ops).trace; PartMatches(trace[..k], trace[k].part)
  {
    RunKeepsInv(f, input, minPartMs, ops);
    var s := ApplyAll(f, Fresh(input, minPartMs), ops);
    assert BatchOk(TargetMs(s), s.trace[..k], s.trace[k]);
    SoundBatchMatches(TargetMs(s), s.trace[..k], s.trace[k]);
  }

  predicate PartMatches(before: seq<Batch>, p: Part) {
    && |p.videoTags| == |p.video|
    && (forall i :: 0 <= i < |p.video| ==> p.videoTags[i] == p.signature.video)
    && (p.boxing.Boxed? ==> p.sequence == BoxedCount(before))
    && p.segmentSequence == (1 + CutCount(before)) % (U32_MAX + 1)
  }

  lemma SoundBatchMatches(targetMs: nat, before: seq<Batch>, b: Batch)
    requires BatchOk(targetMs, before, b) && b.Cut?
    ensures PartMatches(before, b.part)
  {
  }

  // ---------------------------------------------------------------- conservation

  /** Units handed to parts or discarded, then units still buffered, are exactly the units
      that entered the buffers, in order; the timestamp lists stay parallel. */
  lemma UnitsAreConserved(f: Foreign, input: TimestampInput, minPartMs: u32, ops: seq<Op>)
    ensures var s := ApplyAll(f, Fresh(input, minPartMs), ops);
      && VideoOf(s.trace) + s.videoBuf == s.videoIn
      && AudioOf(s.trace) + s.audioBuf == s.audioIn
      && s.videoTimestamps == seq(|s.videoBuf|, i requires 0 <= i < |s.videoBuf| => s.videoBuf[i].dts)
      && s.audioTimestamps == seq(|s.audioBuf|, i requires 0 <= i < |s.audioBuf| => s.audioBuf[i].pts)
  {
    RunKeepsInv(f, input, minPartMs, ops);
  }

  /** Same settings and same record of buffered units. */
  predicate SameIntake(s: State, s': State) {
    && s'.minPartTicks == s.minPartTicks && s'.input == s.input
    && s'.videoIn == s.videoIn && s'.audioIn == s.audioIn
  }

  lemma FlushKeepsIntake(f: Foreign, s: State, nextDts: u64)
    ensures SameIntake(s, Flush(f, s, nextDts))
  {
  }

  lemma FlushCurrentKeepsIntake(f: Foreign, s: State)
    ensures SameIntake(s, FlushCurrent(f, s))
  {
    var n := |s.videoTimestamps|;
    if n >= 2 {
      var last := s.videoTimestamps[n - 1];
      FlushKeepsIntake(f, s, WrapAdd(last, Max(SatSub(last, s.videoTimestamps[n - 2]), 1)));
    } else if n == 1 {
      FlushKeepsIntake(f, s, WrapAdd(s.videoTimestamps[0], MsToTicks(DEFAULT_MIN_PART_MS)));
    } else {
      FlushKeepsIntake(f, s, 0);
    }
  }

  lemma ApplyConfigKeepsIntake(f: Foreign, s: State, u: Unit)
    ensures SameIntake(s, ApplyConfig(f, s, u).0)
  {
    FlushCurrentKeepsIntake(f, s);
  }

  predicate OneMore(before: seq<Unit>, after: seq<Unit>, u: Unit) {
    |after| == |before| + 1 && after[..|before|] == before
    && after[|before|].id == u.id && after[|before|].streamType == u.streamType
  }

  lemma AcceptVideoAdds(f: Foreign, s: State, u: Unit, needsKey: bool)
    ensures var s' := AcceptVideo(f, s, u, needsKey);
      && s'.audioIn == s.audioIn && s'.minPartTicks == s.minPartTicks && s'.input == s.input
      && (s'.videoIn == s.videoIn || OneMore(s.videoIn, s'.videoIn, u))
  {
    FlushKeepsIntake(f, s, u.dts);
  }

  lemma PushVideoAdds(f: Foreign, s: State, u: Unit)
    ensures var s' := PushVideo(f, s, u);
      && s'.audioIn == s.audioIn && s'.minPartTicks == s.minPartTicks && s'.input == s.input
      && (s'.videoIn == s.videoIn || OneMore(s.videoIn, s'.videoIn, u))
  {
    ApplyConfigKeepsIntake(f, s, u);
    var (s1, outcome) := ApplyConfig(f, s, u);
    if !outcome.Rejected? && Strip(u.data).Ok? && Strip(u.data).value != [] {
      AcceptVideoAdds(f, s1, u.(data := Strip(u.data).value), s.config.None? || outcome.Accepted?);
    }
  }

  lemma AcceptAudioAdds(f: Foreign, s: State, u: Unit)
    ensures var s' := AcceptAudio(f, s, u);
      && s'.videoIn == s.videoIn && s'.minPartTicks == s.minPartTicks && s'.input == s.input
      && s'.audioIn == s.audioIn + [u]
  {
    var durationMs := f.audioDurationMs(u, s.audioConfig);
    FlushKeepsIntake(f, s, 0);
    FlushKeepsIntake(f, BufferAudio(if AudioCutsBefore(s, u) then Flush(f, s, 0) else s, u, durationMs), 0);
  }

  lemma PushAudioAdds(f: Foreign, s: State, u: Unit)
    ensures var s' := PushAudio(f, s, u);
      && s'.videoIn == s.videoIn && s'.minPartTicks == s.minPartTicks && s'.input == s.input
      && OneMore(s.audioIn, s'.audioIn, u) && s'.audioIn[|s.audioIn|].data == u.data
  {
    var (s1, u1) := ApplyAacTimeline(f, s, u);
    AcceptAudioAdds(f, NoteAudioSignature(f, s1, u1), u1);
  }

  lemma FramedVideoAdds(f: Foreign, s: State, u: Unit)
    requires u.streamType.H264?
    ensures var s' := PushFramed(f, s, u);
      s'.audioIn == s.audioIn && (s'.videoIn == s.videoIn || OneMore(s.videoIn, s'.videoIn, u))
  {
    FlushCurrentKeepsIntake(f, s);
    var s1 := if Rewinds(s, u) then Reset(FlushCurrent(f, s)) else s;
    var (s2, u2) := Normalize(s1, u);
    PushVideoAdds(f, s2, u2);
  }

  /** A push buffers its own unit and nothing else: supported audio always, with its bytes
      unchanged, video at most once. */
  lemma PushBuffersItsUnit(f: Foreign, s: State, u: Unit)
    ensures var s' := Push(f, s, u);
      match u.streamType
      case Unsupported => s' == s
      case Audio(_) =>
        s'.videoIn == s.videoIn && OneMore(s.audioIn, s'.audioIn, u) && s'.audioIn[|s.audioIn|].data == u.data
      case H264 => s'.audioIn == s.audioIn && (s'.videoIn == s.videoIn || OneMore(s.videoIn, s'.videoIn, u))
  {
    match u.streamType
    case Unsupported =>
    case Audio(_) =>
      var (s2, u2) := Normalize(s, u);
      PushAudioAdds(f, s2, u2);
    case H264 =>
      var framed := f.frame(u.data, u.key);
      if framed.Some? {
        FramedVideoAdds(f, s.(seenVideo := true), u.(data := framed.value.0, key := framed.value.1));
      }
  }

  // ---------------------------------------------------------------- times

  /** What normalization makes of both times of a unit: relative to the session's first unless they
      are absolute, ticks for video and milliseconds for audio. */
  lemma NormalizedTimes(s: State, u: Unit)
    ensures var (s', v) := Normalize(s, u);
      var base := if s.input.MillisAbsolute? then 0 else if s.timestampBase.Some? then s.timestampBase.value else u.dts;
      && v == u.(pts := v.pts, dts := v.dts)
      && s' == (if s.input.MillisAbsolute? then s else s.(timestampBase := Some(base)))
      && Scaled(s.input, u.streamType.H264?, SatSub(u.pts, base), v.pts)
      && Scaled(s.input, u.streamType.H264?, SatSub(u.dts, base), v.dts)
  {
    var base := if s.input.MillisAbsolute? then 0 else if s.timestampBase.Some? then s.timestampBase.value else u.dts;
    ConversionsAreNearest(0, SatSub(u.pts, base));
    ConversionsAreNearest(0, SatSub(u.dts, base));
  }

  /** `y` is `x` in the unit of the track, exactly or to the nearest millisecond. */
  predicate Scaled(input: TimestampInput, video: bool, x: nat, y: nat) {
    if video == input.Ticks90Khz? then y == x
    else if video then 90_000 * x <= U64_MAX ==> y == 90 * x
    else 1_000 * x + 45_000 <= U64_MAX ==> 90 * y <= x + 45 < 90 * y + 90
  }

  /** A session's first unit starts at zero unless times are absolute; later units of its kind
      keep their order, and 90 kHz video keeps the distance between its two times exactly. */
  lemma NormalizationKeepsOrder(s: State, a: Unit, b: Unit)
    requires a.streamType == b.streamType && a.dts <= b.dts
    ensures var (s1, a1) := Normalize(s, a);
      var (s2, b1) := Normalize(s1, b);
      && a1.dts <= b1.dts && s2 == s1
      && (!s.input.MillisAbsolute? && s.timestampBase.None? ==> a1.dts == 0 && s1.timestampBase == Some(a.dts))
      && (s.input.Ticks90Khz? && a.streamType.H264? && s1.timestampBase.value <= Min(a.pts, a.dts) ==>
            a1.pts - a1.dts == a.pts - a.dts)
      && (s.input.MillisAbsolute? && !a.streamType.H264? ==> a1 == a)
  {
    var base := if s.timestampBase.Some? then s.timestampBase.value else a.dts;
    ScalingKeepsOrder(SatSub(a.dts, base), SatSub(b.dts, base));
    ScalingKeepsOrder(a.dts, b.dts);
  }

  lemma ScalingKeepsOrder(x: u64, y: u64)
    requires x <= y
    ensures MsToTicksU64(x) <= MsToTicksU64(y) && TicksToMs(x) <= TicksToMs(y)
  {
  }

  /** What is buffered became the one new part of `after`, which ends at `nextDts`. */
  predicate CutInto(s: State, after: State, nextDts: u64) {
    && |after.trace| == |s.trace| + 1 && after.trace[|s.trace|].Cut?
    && var part := after.trace[|s.trace|].part;
       part.video == s.videoBuf && part.audio == s.audioBuf && part.nextDts == nextDts
  }

  lemma FlushCuts(f: Foreign, s: State, nextDts: u64)
    requires s.videoBuf != [] && (s.config.Some? || !s.seenVideo)
    ensures CutInto(s, Flush(f, s, nextDts), nextDts)
  {
  }

  /** Finishing boxes everything buffered into one part that ends at the closing time, which is
      after the last decode time exactly when their sum fits 64 bits. */
  lemma FinishEndsAfterLastUnit(f: Foreign, s: State)
    requires Inv(s) && s.videoBuf != [] && (s.config.Some? || !s.seenVideo)
    ensures CutInto(s, FlushCurrent(f, s), ClosingDts(s))
    ensures var n := |s.videoBuf|;
      var last := s.videoBuf[n - 1].dts;
      var step := if n == 1 then 4_500 else if last > s.videoBuf[n - 2].dts then last - s.videoBuf[n - 2].dts else 1;
      && ClosingDts(s) == (last + step) % 0x1_0000_0000_0000_0000
      && (last < ClosingDts(s) <==> last + step <= U64_MAX)
  {
    FlushCurrentFlushes(f, s);
    FlushCuts(f, s, ClosingDts(s));
    ClosesAfterLastUnit(s);
    WrapIsLater(s.videoBuf[|s.videoBuf| - 1].dts, ClosingStep(s));
  }

  lemma ClosesAfterLastUnit(s: State)
    requires Inv(s) && s.videoBuf != []
    ensures ClosingStep(s) >= 1 && ClosingDts(s) == WrapAdd(s.videoBuf[|s.videoBuf| - 1].dts, ClosingStep(s))
    ensures var n := |s.videoBuf|;
      var last := s.videoBuf[n - 1].dts;
      ClosingStep(s) == if n == 1 then 4_500
                        else if last > s.videoBuf[n - 2].dts then last - s.videoBuf[n - 2].dts else 1
  {
    assert s.videoTimestamps[|s.videoBuf| - 1] == s.videoBuf[|s.videoBuf| - 1].dts;
    if |s.videoBuf| > 1 { assert s.videoTimestamps[|s.videoBuf| - 2] == s.videoBuf[|s.videoBuf| - 2].dts; }
  }

  lemma WrapIsLater(a: u64, b: u64)
    requires b >= 1
    ensures a < WrapAdd(a, b) <==> a + b <= U64_MAX
  {
  }

  // ---------------------------------------------------------------- nothing lost while configured

  predicate EmptyDrop(b: Batch) { b.Dropped? ==> b.video == [] && b.audio == [] }

  /** `s'` continues `s` without discarding a unit. */
  predicate Lossless(s: State, s': State) {
    s.trace <= s'.trace && forall k :: |s.trace| <= k < |s'.trace| ==> EmptyDrop(s'.trace[k])
  }

  lemma FlushIsLossless(f: Foreign, s: State, nextDts: u64)
    requires s.config.Some? || !s.seenVideo
    ensures Lossless(s, Flush(f, s, nextDts))
  {
  }

  lemma ClearIsLossless(s: State)
    requires s.videoBuf == [] && s.audioBuf == []
    ensures Lossless(s, ClearPending(s)) && Lossless(s, Reset(s))
  {
  }

  lemma LosslessChain(a: State, b: State, c: State)
    requires Lossless(a, b) && Lossless(b, c)
    ensures Lossless(a, c)
  {
    forall k | |a.trace| <= k < |c.trace| ensures EmptyDrop(c.trace[k]) {
      if k < |b.trace| { assert c.trace[k] == b.trace[k]; }
    }
  }

  lemma ApplyConfigIsLossless(f: Foreign, s: State, u: Unit)
    requires Inv(s)
    requires s.config.Some? || (s.videoBuf == [] && s.audioBuf == [])
    ensures Lossless(s, ApplyConfig(f, s, u).0)
    ensures ApplyConfig(f, s, u).0.videoBuf == [] || ApplyConfig(f, s, u).0 == s
    ensures s.config.Some? ==> ApplyConfig(f, s, u).0.config.Some?
  {
    if ApplyConfig(f, s, u).1.Accepted? {
      if s.config.None? {
        ClearIsLossless(s);
      } else {
        FlushCurrentKeepsInv(f, s);
        FlushCurrentFlushes(f, s);
        FlushIsLossless(f, s, ClosingDts(s));
        ClearIsLossless(FlushCurrent(f, s));
        LosslessChain(s, FlushCurrent(f, s), ClearPending(FlushCurrent(f, s)));
      }
    }
  }

  lemma AcceptVideoIsLossless(f: Foreign, s: State, u: Unit, needsKey: bool)
    requires s.config.Some? || (s.videoBuf == [] && s.audioBuf == [])
    ensures Lossless(s, AcceptVideo(f, s, u, needsKey))
  {
    if s.config.Some? { FlushIsLossless(f, s, u.dts); }
  }

  lemma PushVideoIsLossless(f: Foreign, s: State, u: Unit)
    requires Inv(s)
    requires s.config.Some? || (s.videoBuf == [] && s.audioBuf == [])
    ensures Lossless(s, PushVideo(f, s, u))
  {
    ApplyConfigIsLossless(f, s, u);
    var (s1, outcome) := ApplyConfig(f, s, u);
    if !outcome.Rejected? && Strip(u.data).Ok? && Strip(u.data).value != [] {
      var v, needsKey := u.(data := Strip(u.data).value), s.config.None? || outcome.Accepted?;
      AcceptVideoIsLossless(f, s1, v, needsKey);
      LosslessChain(s, s1, AcceptVideo(f, s1, v, needsKey));
    }
  }

  lemma PushAudioIsLossless(f: Foreign, s: State, u: Unit)
    requires !Waiting(s)
    ensures Lossless(s, PushAudio(f, s, u))
  {
    var (s1, u1) := ApplyAacTimeline(f, s, u);
    var s2 := NoteAudioSignature(f, s1, u1);
    var durationMs := f.audioDurationMs(u1, s2.audioConfig);
    var s3 := if AudioCutsBefore(s2, u1) then Flush(f, s2, 0) else s2;
    FlushIsLossless(f, s2, 0);
    FlushEmpties(f, s2, 0);
    var s4 := BufferAudio(s3, u1, durationMs);
    FlushIsLossless(f, s4, 0);
    assert Lossless(s, s3) && Lossless(s3, s4);
    LosslessChain(s, s3, s4);
    LosslessChain(s, s4, Flush(f, s4, 0));
  }

  /** Changing the base loses nothing and keeps the buffers. */
  lemma NormalizeKeeps(s: State, u: Unit)
    requires Inv(s)
    ensures var s2 := Normalize(s, u).0;
      Inv(s2) && Lossless(s, s2) && s2 == s.(timestampBase := s2.timestampBase)
  {
  }

  /** An audio-only stream never discards audio. */
  lemma AudioOnlyStepsLoseNothing(f: Foreign, s: State, u: Unit)
    requires !s.seenVideo && !u.streamType.H264?
    ensures Lossless(s, Push(f, s, u))
  {
    if u.streamType.Audio? {
      PushAudioIsLossless(f, Normalize(s, u).0, Normalize(s, u).1);
    }
  }

  function PendingUnits(s: State): nat { |s.videoBuf| + |s.audioBuf| }

  lemma UnconfiguredVideoIsBounded(f: Foreign, s: State, u: Unit)
    ensures var s' := PushVideo(f, s, u);
      s'.config.None? && s'.videoIn != s.videoIn ==> PendingUnits(s') <= 180
  {
    ApplyConfigKeepsIntake(f, s, u);
    var (s1, outcome) := ApplyConfig(f, s, u);
    if !outcome.Rejected? && Strip(u.data).Ok? && Strip(u.data).value != [] && s1.config.Some? {
      FlushKeepsConfig(f, s1, u.dts);
    }
  }

  lemma FlushKeepsConfig(f: Foreign, s: State, nextDts: u64)
    ensures Flush(f, s, nextDts).config == s.config
  {
  }

  /** A push that buffers its unit while a configuration is awaited leaves at most 180 units
      pending: audio held back for video, and video without a configuration. */
  lemma PendingIsBounded(f: Foreign, s: State, u: Unit)
    ensures var s' := Push(f, s, u);
      && (u.streamType.Audio? && Waiting(s) ==> PendingUnits(s') <= 180)
      && (u.streamType.H264? && s'.config.None? && s'.videoIn != s.videoIn ==>
            PendingUnits(s') <= 180)
  {
    match u.streamType
    case Unsupported =>
    case Audio(_) =>
    case H264 =>
      var framed := f.frame(u.data, u.key);
      if framed.Some? {
        var v := u.(data := framed.value.0, key := framed.value.1);
        var s0 := s.(seenVideo := true);
        FlushCurrentKeepsIntake(f, s0);
        var s1 := if Rewinds(s0, v) then Reset(FlushCurrent(f, s0)) else s0;
        var (s2, u2) := Normalize(s1, v);
        UnconfiguredVideoIsBounded(f, s2, u2);
      }
  }

  // ---------------------------------------------------------------- where parts are cut

  /** A configured part is cut before a unit exactly when that unit would lie at or past the
      limit, so every buffered unit is within the limit and every cut is due. */
  lemma CutsAreTight(f: Foreign, input: TimestampInput, minPartMs: u32, ops: seq<Op>, u: Unit)
    requires var s := ApplyAll(f, Fresh(input, minPartMs), ops); s.config.Some? && s.videoBuf != []
    ensures var s := ApplyAll(f, Fresh(input, minPartMs), ops);
      && (forall i :: 1 <= i < |s.videoBuf| ==> SatSub(s.videoBuf[i].dts, s.videoBuf[0].dts) < PartLimit(s))
      && PartLimit(s) == Min(90 * minPartMs, 180_000)
      && var s' := AcceptVideo(f, s, u, false);
         (s'.trace == s.trace <==> SatSub(u.dts, s.videoBuf[0].dts) < PartLimit(s))
  {
    RunKeepsInv(f, input, minPartMs, ops);
    RunKeepsTarget(f, input, minPartMs, ops);
    var s := ApplyAll(f, Fresh(input, minPartMs), ops);
    assert |Flush(f, s, u.dts).trace| == |s.trace| + 1;
  }

  lemma {:induction false} RunKeepsTarget(f: Foreign, input: TimestampInput, minPartMs: u32, ops: seq<Op>)
    ensures ApplyAll(f, Fresh(input, minPartMs), ops).minPartTicks == MsToTicks(minPartMs)
    ensures ApplyAll(f, Fresh(input, minPartMs), ops).input == input
  {
    if ops != [] {
      RunKeepsTarget(f, input, minPartMs, ops[..|ops| - 1]);
      StepKeepsTarget(f, ApplyAll(f, Fresh(input, minPartMs), ops[..|ops| - 1]), ops[|ops| - 1]);
    }
  }

  lemma StepKeepsTarget(f: Foreign, s: State, op: Op)
    ensures Apply(f, s, op).minPartTicks == s.minPartTicks && Apply(f, s, op).input == s.input
  {
    if op.PushUnit? && op.u.streamType.H264? {
      var framed := f.frame(op.u.data, op.u.key);
      if framed.Some? {
        var s0 := s.(seenVideo := true);
        var v := op.u.(data := framed.value.0, key := framed.value.1);
        FramedKeepsTarget(f, s0, v);
      }
    } else if op.PushUnit? && op.u.streamType.Audio? {
      FramedKeepsTarget(f, s, op.u);
    }
  }

  lemma FramedKeepsTarget(f: Foreign, s: State, u: Unit)
    ensures PushFramed(f, s, u).minPartTicks == s.minPartTicks && PushFramed(f, s, u).input == s.input
  {
    FlushCurrentKeepsIntake(f, s);
    var s1 := if Rewinds(s, u) then Reset(FlushCurrent(f, s)) else s;
    var (s2, u2) := Normalize(s1, u);
    if u.streamType.H264? { PushVideoAdds(f, s2, u2); } else { PushAudioAdds(f, s2, u2); }
  }

  /** Audio-only parts of known durations: the running total is their sum, it stays below the
      target between operations, and a part reaches the target only with its last unit. */
  lemma AudioTargetIsTight(f: Foreign, input: TimestampInput, minPartMs: u32, ops: seq<Op>)
    ensures var s := ApplyAll(f, Fresh(input, minPartMs), ops);
      && s.audioBufferedMs == TotalMs(s.audioDurations) && |s.audioDurations| == |s.audioBuf|
      && (!s.seenVideo && s.audioBuf != [] && s.audioBufferedMs.Some? ==> s.audioBufferedMs.value < minPartMs)
      && (forall k :: 0 <= k < |s.trace| && s.trace[k].Cut? ==> PartOk(minPartMs, s.trace[k].part))
  {
    RunKeepsInv(f, input, minPartMs, ops);
    RunKeepsTarget(f, input, minPartMs, ops);
    TicksToMsInvertsMsToTicks(minPartMs);
    var s := ApplyAll(f, Fresh(input, minPartMs), ops);
    forall k | 0 <= k < |s.trace| && s.trace[k].Cut? ensures PartOk(minPartMs, s.trace[k].part) {
      assert BatchOk(TargetMs(s), s.trace[..k], s.trace[k]);
    }
  }

  // ---------------------------------------------------------------- video without a configuration

  /** Buffered video is configured, or the segmenter still knows that video was seen. */
  predicate VideoExpected(s: State) { s.videoBuf != [] ==> s.config.Some? || s.seenVideo }

  predicate ConfiguredBatch(b: Batch) { b.Cut? && b.part.video != [] ==> b.part.signature.video.Some? }

  predicate TraceConfigured(trace: seq<Batch>) { forall b :: b in trace ==> ConfiguredBatch(b) }

  predicate VideoConfigured(s: State) {
    VideoExpected(s) && (s.config.Some? ==> s.videoSignature.Some?) && TraceConfigured(s.trace)
  }

  /** A flush cuts an unconfigured video part exactly when video is buffered without a
      configuration and `seenVideo` has been forgotten. */
  lemma UnconfiguredCutIff(f: Foreign, s: State, nextDts: u64)
    requires Inv(s)
    ensures var s' := Flush(f, s, nextDts);
      (|s'.trace| > |s.trace| && !ConfiguredBatch(s'.trace[|s.trace|])) <==> !VideoExpected(s)
  {
  }

  /** A timestamp reset by a unit that carries media but no configuration of its own. */
  predicate RewindsUnconfigured(f: Foreign, s: State, u: Unit) {
    && u.streamType.H264? && f.frame(u.data, u.key).Some?
    && var data := f.frame(u.data, u.key).value.0;
       && Rewinds(s, u)
       && ParseConfig(f, None, None, data).None?
       && Strip(data).Ok? && Strip(data).value != []
  }

  lemma FlushKeepsConfigured(f: Foreign, s: State, nextDts: u64)
    requires VideoConfigured(s)
    ensures VideoConfigured(Flush(f, s, nextDts))
  {
  }

  lemma FlushCurrentKeepsConfigured(f: Foreign, s: State)
    requires VideoConfigured(s)
    ensures VideoConfigured(FlushCurrent(f, s))
  {
    var n := |s.videoTimestamps|;
    if n >= 2 {
      var last := s.videoTimestamps[n - 1];
      FlushKeepsConfigured(f, s, WrapAdd(last, Max(SatSub(last, s.videoTimestamps[n - 2]), 1)));
    } else if n == 1 {
      FlushKeepsConfigured(f, s, WrapAdd(s.videoTimestamps[0], MsToTicks(DEFAULT_MIN_PART_MS)));
    } else {
      FlushKeepsConfigured(f, s, 0);
    }
  }

  lemma ClearKeepsConfigured(s: State)
    requires VideoConfigured(s)
    ensures VideoConfigured(ClearPending(s)) && VideoConfigured(Reset(s))
  {
  }

  lemma InstallKeepsConfigured(s: State, config: Dimensions, signature: VideoSignature)
    requires VideoConfigured(s)
    ensures VideoConfigured(InstallConfig(s, config, signature))
  {
  }

  lemma ApplyConfigKeepsConfigured(f: Foreign, s: State, u: Unit)
    requires VideoConfigured(s)
    ensures VideoConfigured(ApplyConfig(f, s, u).0)
    ensures ApplyConfig(f, s, u).0 == s || ApplyConfig(f, s, u).0.config.Some?
  {
    if ApplyConfig(f, s, u).1.Accepted? {
      var parsed := ParseConfig(f, s.sps, s.pps, u.data).value;
      var flushed := if s.config.None? then s else FlushCurrent(f, s);
      FlushCurrentKeepsConfigured(f, s);
      ClearKeepsConfigured(flushed);
      InstallKeepsConfigured(ClearPending(flushed), parsed.0, parsed.1);
    }
  }

  lemma AcceptVideoKeepsConfigured(f: Foreign, s: State, u: Unit, needsKey: bool)
    requires VideoConfigured(s) && (s.config.Some? || s.seenVideo)
    ensures VideoConfigured(AcceptVideo(f, s, u, needsKey))
  {
    if s.config.None? {
      assert VideoConfigured(BufferVideo(s, u));
      ClearKeepsConfigured(BufferVideo(s, u));
    } else {
      FlushKeepsConfigured(f, s, u.dts);
      FlushEmpties(f, s, u.dts);
    }
  }

  /** Video pushed where a configuration is present or still expected. */
  lemma PushVideoKeepsConfigured(f: Foreign, s: State, u: Unit)
    requires VideoConfigured(s) && (s.config.Some? || s.seenVideo)
    ensures VideoConfigured(PushVideo(f, s, u))
  {
    ApplyConfigKeepsConfigured(f, s, u);
    var (s1, outcome) := ApplyConfig(f, s, u);
    if !outcome.Rejected? && Strip(u.data).Ok? && Strip(u.data).value != [] {
      AcceptVideoKeepsConfigured(f, s1, u.(data := Strip(u.data).value), s.config.None? || outcome.Accepted?);
    }
  }

  lemma AcceptAudioKeepsConfigured(f: Foreign, s: State, u: Unit)
    requires VideoConfigured(s)
    ensures VideoConfigured(AcceptAudio(f, s, u))
  {
    var durationMs := f.audioDurationMs(u, s.audioConfig);
    if Waiting(s) {
      assert VideoConfigured(BufferAudio(s, u, durationMs));
      ClearKeepsConfigured(BufferAudio(s, u, durationMs));
    } else {
      var s0 := if AudioCutsBefore(s, u) then Flush(f, s, 0) else s;
      FlushKeepsConfigured(f, s, 0);
      var s1 := BufferAudio(s0, u, durationMs);
      assert VideoConfigured(s1);
      FlushKeepsConfigured(f, s1, 0);
    }
  }

  lemma PushAudioKeepsConfigured(f: Foreign, s: State, u: Unit)
    requires VideoConfigured(s)
    ensures VideoConfigured(PushAudio(f, s, u))
  {
    var (s1, u1) := ApplyAacTimeline(f, s, u);
    assert VideoConfigured(NoteAudioSignature(f, s1, u1));
    AcceptAudioKeepsConfigured(f, NoteAudioSignature(f, s1, u1), u1);
  }

  /** After a reset the first video unit leaves unconfigured video behind exactly when it has
      media but no configuration. */
  lemma PushAfterReset(f: Foreign, s: State, u: Unit)
    requires VideoConfigured(s) && s.videoBuf == [] && s.audioBuf == []
    requires s.config.None? && s.sps.None? && s.pps.None? && s.videoSignature.None? && !s.seenVideo
    ensures var s' := PushVideo(f, s, u);
      && TraceConfigured(s'.trace) && (s'.config.Some? ==> s'.videoSignature.Some?)
      && (!VideoExpected(s') <==>
            ParseConfig(f, None, None, u.data).None? && Strip(u.data).Ok? && Strip(u.data).value != [])
  {
    if ParseConfig(f, None, None, u.data).None? {
      assert ApplyConfig(f, s, u) == (s, Unchanged);
      if Strip(u.data).Ok? && Strip(u.data).value != [] {
        var s' := BufferVideo(s, u.(data := Strip(u.data).value));
        assert DropPendingIfNeeded(s') == s';
      }
    } else {
      ApplyConfigKeepsConfigured(f, s, u);
      var (s1, outcome) := ApplyConfig(f, s, u);
      assert outcome == Accepted && s1.config.Some?;
      if Strip(u.data).Ok? && Strip(u.data).value != [] {
        AcceptVideoKeepsConfigured(f, s1, u.(data := Strip(u.data).value), true);
        FlushEmpties(f, s1, u.dts);
      }
    }
  }

  lemma FramedVideoKeepsConfiguredIff(f: Foreign, s: State, u: Unit)
    requires VideoConfigured(s) && s.seenVideo && u.streamType.H264?
    ensures TraceConfigured(PushFramed(f, s, u).trace)
    ensures VideoConfigured(PushFramed(f, s, u)) <==>
      !(Rewinds(s, u) && ParseConfig(f, None, None, u.data).None? && Strip(u.data).Ok? && Strip(u.data).value != [])
  {
    if Rewinds(s, u) {
      FlushCurrentKeepsConfigured(f, s);
      ClearKeepsConfigured(FlushCurrent(f, s));
      var (s2, u2) := Normalize(Reset(FlushCurrent(f, s)), u);
      PushAfterReset(f, s2, u2);
    } else {
      var (s2, u2) := Normalize(s, u);
      PushVideoKeepsConfigured(f, s2, u2);
    }
  }

  /** One push keeps video configured exactly when it is not such a reset. */
  lemma PushKeepsConfiguredIff(f: Foreign, s: State, u: Unit)
    requires VideoConfigured(s)
    ensures TraceConfigured(Push(f, s, u).trace)
    ensures VideoConfigured(Push(f, s, u)) <==> !RewindsUnconfigured(f, s, u)
  {
    match u.streamType
    case Unsupported =>
    case Audio(_) => PushAudioKeepsConfigured(f, Normalize(s, u).0, Normalize(s, u).1);
    case H264 =>
      var framed := f.frame(u.data, u.key);
      if framed.Some? {
        FramedVideoKeepsConfiguredIff(f, s.(seenVideo := true), u.(data := framed.value.0, key := framed.value.1));
      }
  }

  predicate NeverRewindsUnconfigured(f: Foreign, s: State, ops: seq<Op>) {
    ops == [] || (NeverRewindsUnconfigured(f, s, ops[..|ops| - 1])
                  && (ops[|ops| - 1].PushUnit? ==>
                        !RewindsUnconfigured(f, ApplyAll(f, s, ops[..|ops| - 1]), ops[|ops| - 1].u)))
  }

  /** Without such resets, every part that contains video is boxed with a configuration. */
  lemma {:induction false} VideoPartsAreConfigured(f: Foreign, input: TimestampInput, minPartMs: u32, ops: seq<Op>)
    requires NeverRewindsUnconfigured(f, Fresh(input, minPartMs), ops)
    ensures VideoConfigured(ApplyAll(f, Fresh(input, minPartMs), ops))
  {
    if ops != [] {
      var before, op := ops[..|ops| - 1], ops[|ops| - 1];
      VideoPartsAreConfigured(f, input, minPartMs, before);
      RunKeepsInv(f, input, minPartMs, before);
      var s := ApplyAll(f, Fresh(input, minPartMs), before);
      match op {
        case PushUnit(u) => PushKeepsConfiguredIff(f, s, u);
        case Finish => FlushCurrentKeepsConfigured(f, s);
        case ResetAll => ClearKeepsConfigured(s);
        case SetAudio(audioConfig) =>
      }
    }
  }

  lemma FinishCutsUnconfigured(f: Foreign, s: State)
    requires Inv(s) && !VideoExpected(s)
    ensures var done := FlushCurrent(f, s);
      |done.trace| == |s.trace| + 1 && !ConfiguredBatch(done.trace[|s.trace|])
  {
    FlushCurrentFlushes(f, s);
    UnconfiguredCutIff(f, s, ClosingDts(s));
  }

  /** With such a reset the promise fails: finishing right after it boxes the unit with no
      configuration at all. */
  lemma UnconfiguredResetIsPublished(f: Foreign, s: State, u: Unit)
    requires Inv(s) && VideoConfigured(s) && RewindsUnconfigured(f, s, u)
    ensures var s' := Push(f, s, u);
      var done := FlushCurrent(f, s');
      |done.trace| == |s'.trace| + 1 && !ConfiguredBatch(done.trace[|s'.trace|])
  {
    var s' := Push(f, s, u);
    assert Inv(s') by { StepKeepsInv(f, s, PushUnit(u)); }
    assert !VideoExpected(s') by { ResetLeavesUnexpected(f, s, u); }
    FinishCutsUnconfigured(f, s');
  }

  lemma FramedResetLeavesUnexpected(f: Foreign, s: State, v: Unit)
    requires VideoConfigured(s) && v.streamType.H264? && Rewinds(s, v)
    requires ParseConfig(f, None, None, v.data).None? && Strip(v.data).Ok? && Strip(v.data).value != []
    ensures !VideoExpected(PushFramed(f, s, v))
  {
    FlushCurrentKeepsConfigured(f, s);
    ClearKeepsConfigured(FlushCurrent(f, s));
    var (s2, u2) := Normalize(Reset(FlushCurrent(f, s)), v);
    PushAfterReset(f, s2, u2);
  }

  lemma ResetLeavesUnexpected(f: Foreign, s: State, u: Unit)
    requires VideoConfigured(s) && RewindsUnconfigured(f, s, u)
    ensures !VideoExpected(Push(f, s, u))
  {
    var framed := f.frame(u.data, u.key).value;
    FramedResetLeavesUnexpected(f, s.(seenVideo := true), u.(data := framed.0, key := framed.1));
  }

  const SLICE: Bytes := [0, 0, 0, 1, 1]
  const PLAIN: Foreign := Foreign((d, k) => Some((d, k)), d => None, d => None, u => None, (u, a) => None, n => Boxed(true))

  function SliceAt(dts: u64): Unit { Unit(dts, H264, true, dts, dts, SLICE) }

  /** Such a reset exists: two plain slices, the second one tick earlier than the first. */
  lemma UnconfiguredResetExists()
    ensures var s := Push(PLAIN, Fresh(Ticks90Khz, 50), SliceAt(1));
      Inv(s) && VideoConfigured(s) && RewindsUnconfigured(PLAIN, s, SliceAt(0))
  {
    var s0 := Fresh(Ticks90Khz, 50);
    RunKeepsInv(PLAIN, Ticks90Khz, 50, []);
    StepKeepsInv(PLAIN, s0, PushUnit(SliceAt(1)));
    PushKeepsConfiguredIff(PLAIN, s0, SliceAt(1));
    SliceHasMediaOnly();
    var s1 := s0.(seenVideo := true);
    assert Normalize(s1, SliceAt(1)).0.timestampBase == Some(1);
    PushKeepsBase(Normalize(s1, SliceAt(1)).0, Normalize(s1, SliceAt(1)).1);
  }

  lemma SliceHasMediaOnly()
    ensures Parse(SLICE) == Ok([[1]]) && Strip(SLICE) == Ok(SLICE)
    ensures ParseConfig(PLAIN, None, None, SLICE) == None
  {
    assert SLICE == Frame([1]) by { assert LengthPrefix(1) == [0, 0, 0, 1]; }
    assert Serialize([[1]]) == Frame([1]) + Serialize([]);
    assert Serialize([[1]]) == SLICE;
    ParseInvertsSerialize([[1]]);
    assert MediaNalus([[1]]) == [[1]];
  }

  lemma PushKeepsBase(s: State, u: Unit)
    requires s.config.None? && u.data == SLICE && s.sps.None? && s.pps.None?
    ensures PushVideo(PLAIN, s, u).timestampBase == s.timestampBase
  {
    SliceHasMediaOnly();
  }
}
