/** What every run of the segmenter keeps, for every behaviour of the foreign code. */
module SegmenterRuns {
  import opened Wrappers
  import opened Words
  import opened NaluSamples
  import opened MediaClock
  import opened Segmenter

  // ---------------------------------------------------------------- reading the trace

  predicate PublishedBatch(b: Batch) { b.Cut? && b.part.boxing.Boxed? && b.part.boxing.published }

  predicate BoxedBatch(b: Batch) { b.Cut? && b.part.boxing.Boxed? }

  function BatchVideo(b: Batch): seq<Unit> { if b.Cut? then b.part.video else b.video }

  function BatchAudio(b: Batch): seq<Unit> { if b.Cut? then b.part.audio else b.audio }

  function VideoOf(trace: seq<Batch>): seq<Unit> {
    if trace == [] then [] else VideoOf(trace[..|trace| - 1]) + BatchVideo(trace[|trace| - 1])
  }

  function AudioOf(trace: seq<Batch>): seq<Unit> {
    if trace == [] then [] else AudioOf(trace[..|trace| - 1]) + BatchAudio(trace[|trace| - 1])
  }

  /** Signature of the latest init segment that reached the publisher. */
  function LatestInit(trace: seq<Batch>): Option<InitSignature> {
    if trace == [] then None
    else
      var b := trace[|trace| - 1];
      if PublishedBatch(b) && b.part.init then Some(b.part.signature) else LatestInit(trace[..|trace| - 1])
  }

  function BoxedCount(trace: seq<Batch>): nat {
    if trace == [] then 0
    else BoxedCount(trace[..|trace| - 1]) + if BoxedBatch(trace[|trace| - 1]) then 1 else 0
  }

  function CutCount(trace: seq<Batch>): nat {
    if trace == [] then 0
    else CutCount(trace[..|trace| - 1]) + if trace[|trace| - 1].Cut? then 1 else 0
  }

  /** Fragment number of the next box: attempts are counted from 1, modulo 2^32. */
  function NextFragment(trace: seq<Batch>): u32 { (1 + CutCount(trace)) % (U32_MAX + 1) }

  function TotalMs(durations: seq<Option<nat>>): Option<nat> {
    if durations == [] then Some(0)
    else AddMs(TotalMs(durations[..|durations| - 1]), durations[|durations| - 1])
  }

  // ---------------------------------------------------------------- the invariant

  /** A published part without its own init follows one with the same signature. */
  predicate InitDue(before: seq<Batch>, b: Batch) {
    PublishedBatch(b) ==> b.part.init || LatestInit(before) == Some(b.part.signature)
  }

  /** Video units of a part were buffered under the configuration its signature names; an
      audio-only part of known durations reaches the target only with its last unit. */
  predicate PartOk(targetMs: nat, p: Part) {
    && |p.videoTags| == |p.video|
    && (forall i :: 0 <= i < |p.videoTags| ==> p.videoTags[i] == p.signature.video)
    && |p.audioDurations| == |p.audio|
    && (p.audioOnly && p.audio != [] && TotalMs(p.audioDurations).Some? ==>
          |p.audio| == 1 || TotalMs(p.audioDurations[..|p.audio| - 1]).value < targetMs)
  }

  predicate BatchOk(targetMs: nat, before: seq<Batch>, b: Batch) {
    && InitDue(before, b)
    && (b.Cut? ==> PartOk(targetMs, b.part) && b.part.segmentSequence == NextFragment(before))
    && (BoxedBatch(b) ==> b.part.sequence == BoxedCount(before))
  }

  predicate TraceOk(targetMs: nat, trace: seq<Batch>) {
    forall k :: 0 <= k < |trace| ==> BatchOk(targetMs, trace[..k], trace[k])
  }

  /** The timestamp lists run parallel to the buffers and buffered video belongs to the
      installed configuration. */
  predicate Shape(s: State) {
    && |s.videoTimestamps| == |s.videoBuf| == |s.videoTags|
    && (forall i :: 0 <= i < |s.videoBuf| ==>
          s.videoTimestamps[i] == s.videoBuf[i].dts && s.videoTags[i] == s.videoSignature)
    && |s.audioTimestamps| == |s.audioBuf| == |s.audioDurations|
    && (forall i :: 0 <= i < |s.audioBuf| ==> s.audioTimestamps[i] == s.audioBuf[i].pts)
    && (s.config.Some? <==> s.videoSignature.Some?)
    && (s.config.Some? && s.videoBuf != [] ==> s.startedVideo)
  }

  predicate Conserved(s: State) {
    && VideoOf(s.trace) + s.videoBuf == s.videoIn
    && AudioOf(s.trace) + s.audioBuf == s.audioIn
  }

  predicate HistoryOk(s: State) {
    && TraceOk(TargetMs(s), s.trace)
    && (s.lastInit.Some? ==> s.lastInit == LatestInit(s.trace))
    && s.publishedParts == BoxedCount(s.trace) && s.segmentSequence == NextFragment(s.trace)
  }

  function PartLimit(s: State): nat { Min(s.minPartTicks, MsToTicks(MAX_PART_MS_WITHOUT_KEY)) }

  /** While configured, every buffered video unit lies within the part limit of the first. */
  predicate Tight(s: State) {
    s.config.Some? ==>
      forall i :: 1 <= i < |s.videoTimestamps| ==> SatSub(s.videoTimestamps[i], s.videoTimestamps[0]) < PartLimit(s)
  }

  /** The running audio total is the sum of the buffered durations, below target between pushes. */
  predicate AudioCounted(s: State) {
    && s.audioBufferedMs == TotalMs(s.audioDurations)
    && (!s.seenVideo && s.audioBufferedMs.Some? && s.audioBuf != [] ==> s.audioBufferedMs.value < TargetMs(s))
  }

  predicate Inv(s: State) {
    Shape(s) && Conserved(s) && HistoryOk(s) && Tight(s) && AudioCounted(s)
  }

  // ---------------------------------------------------------------- one batch more

  lemma TraceExtends(s: State, b: Batch)
    ensures VideoOf(s.trace + [b]) == VideoOf(s.trace) + BatchVideo(b)
    ensures AudioOf(s.trace + [b]) == AudioOf(s.trace) + BatchAudio(b)
    ensures BoxedCount(s.trace + [b]) == BoxedCount(s.trace) + if BoxedBatch(b) then 1 else 0
    ensures NextFragment(s.trace + [b])
         == if b.Cut? then (NextFragment(s.trace) + 1) % (U32_MAX + 1) else NextFragment(s.trace)
    ensures LatestInit(s.trace + [b])
         == if PublishedBatch(b) && b.part.init then Some(b.part.signature) else LatestInit(s.trace)
  {
    assert (s.trace + [b])[..|s.trace|] == s.trace;
  }

  lemma TraceOkExtends(targetMs: nat, trace: seq<Batch>, b: Batch)
    requires TraceOk(targetMs, trace) && BatchOk(targetMs, trace, b)
    ensures TraceOk(targetMs, trace + [b])
  {
    var all := trace + [b];
    forall k | 0 <= k < |all| ensures BatchOk(targetMs, all[..k], all[k]) {
      if k < |trace| {
        assert all[..k] == trace[..k];
      } else {
        assert all[..k] == trace;
      }
    }
  }

  lemma ClearKeepsInv(s: State)
    requires Shape(s) && Conserved(s) && HistoryOk(s)
    ensures Inv(ClearPending(s))
  {
    var b := Dropped(s.videoBuf, s.audioBuf);
    TraceExtends(s, b);
    TraceOkExtends(TargetMs(s), s.trace, b);
  }

  lemma ResetKeepsInv(s: State)
    requires Inv(s)
    ensures Inv(Reset(s))
  {
    ClearKeepsInv(s);
  }

  lemma {:induction false} TotalOfPrefix(durations: seq<Option<nat>>)
    requires durations != [] && TotalMs(durations).Some?
    ensures TotalMs(durations[..|durations| - 1]).Some?
    ensures TotalMs(durations[..|durations| - 1]).value <= TotalMs(durations).value <= U64_MAX
  {
    var before := durations[..|durations| - 1];
    if before != [] { TotalOfPrefix(before); }
  }

  predicate PrefixBelowTarget(s: State) {
    |s.audioDurations| == |s.audioBuf|
    && (!s.seenVideo && s.audioBuf != [] && TotalMs(s.audioDurations).Some? ==>
          |s.audioBuf| == 1 || TotalMs(s.audioDurations[..|s.audioBuf| - 1]).value < TargetMs(s))
  }

  lemma InvGivesPrefix(s: State)
    requires Inv(s)
    ensures PrefixBelowTarget(s)
  {
    if s.audioDurations != [] && TotalMs(s.audioDurations).Some? { TotalOfPrefix(s.audioDurations); }
  }

  lemma NextBatchOk(f: Foreign, s: State, nextDts: u64)
    requires Shape(s) && HistoryOk(s) && PrefixBelowTarget(s)
    ensures BatchOk(TargetMs(s), s.trace, Cut(NextPart(f, s, nextDts)))
  {
  }

  /** What an appended batch means for a state with empty buffers. */
  lemma AppendCut(s: State, s': State, p: Part)
    requires Shape(s) && Conserved(s) && HistoryOk(s)
    requires BatchOk(TargetMs(s), s.trace, Cut(p)) && p.video == s.videoBuf && p.audio == s.audioBuf
    requires s'.trace == s.trace + [Cut(p)] && s'.minPartTicks == s.minPartTicks
    requires s'.videoBuf == [] && s'.videoTimestamps == [] && s'.videoTags == []
    requires s'.audioBuf == [] && s'.audioTimestamps == [] && s'.audioDurations == [] && s'.audioBufferedMs == Some(0)
    requires s'.videoIn == s.videoIn && s'.audioIn == s.audioIn
    requires s'.config == s.config && s'.videoSignature == s.videoSignature
    requires s'.publishedParts == s.publishedParts + if p.boxing.Boxed? then 1 else 0
    requires s'.segmentSequence == (s.segmentSequence + 1) % (U32_MAX + 1)
    requires s'.lastInit == if PublishedBatch(Cut(p)) && p.init then Some(p.signature) else s.lastInit
    ensures Inv(s')
  {
    TraceExtends(s, Cut(p));
    TraceOkExtends(TargetMs(s), s.trace, Cut(p));
    assert VideoOf(s'.trace) + [] == VideoOf(s'.trace) && AudioOf(s'.trace) + [] == AudioOf(s'.trace);
  }

  /** Cutting is sound whenever the audio before the last unit is still below target. */
  lemma CutKeepsInv(f: Foreign, s: State, nextDts: u64)
    requires Shape(s) && Conserved(s) && HistoryOk(s) && PrefixBelowTarget(s)
    ensures Inv(CutPart(f, s, nextDts))
  {
    NextBatchOk(f, s, nextDts);
    AppendCut(s, CutPart(f, s, nextDts), NextPart(f, s, nextDts));
  }

  lemma FlushKeepsInv(f: Foreign, s: State, nextDts: u64)
    requires Shape(s) && Conserved(s) && HistoryOk(s) && PrefixBelowTarget(s)
    requires s.videoBuf == [] && s.audioBuf == [] ==> Inv(s)
    ensures Inv(Flush(f, s, nextDts))
  {
    if s.videoBuf == [] && s.audioBuf == [] {
    } else if s.config.None? && s.seenVideo {
      ClearKeepsInv(s);
    } else {
      CutKeepsInv(f, s, nextDts);
    }
  }

  /** Flushing always leaves the buffers empty and the configuration as it was. */
  lemma FlushEmpties(f: Foreign, s: State, nextDts: u64)
    ensures var s' := Flush(f, s, nextDts);
      && s'.videoBuf == [] && s'.audioBuf == []
      && s'.config == s.config && s'.videoSignature == s.videoSignature
      && s'.seenVideo == s.seenVideo && s'.startedVideo == s.startedVideo
      && s'.minPartTicks == s.minPartTicks
  {
  }

  /** The timestamp that closes the buffered part when nothing follows it. */
  function ClosingStep(s: State): u64 {
    var n := |s.videoTimestamps|;
    if n >= 2 then Max(SatSub(s.videoTimestamps[n - 1], s.videoTimestamps[n - 2]), 1)
    else MsToTicks(DEFAULT_MIN_PART_MS)
  }

  function ClosingDts(s: State): u64 {
    var n := |s.videoTimestamps|;
    if n >= 1 then WrapAdd(s.videoTimestamps[n - 1], ClosingStep(s)) else 0
  }

  lemma FlushCurrentFlushes(f: Foreign, s: State)
    requires Shape(s)
    ensures FlushCurrent(f, s) == Flush(f, s, ClosingDts(s))
  {
  }

  lemma FlushCurrentKeepsInv(f: Foreign, s: State)
    requires Inv(s)
    ensures Inv(FlushCurrent(f, s))
    ensures FlushCurrent(f, s).videoBuf == [] && FlushCurrent(f, s).audioBuf == []
  {
    FlushCurrentFlushes(f, s);
    InvGivesPrefix(s);
    FlushKeepsInv(f, s, ClosingDts(s));
    FlushEmpties(f, s, ClosingDts(s));
  }

  // ---------------------------------------------------------------- video

  lemma InstallKeepsInv(s: State, config: Dimensions, signature: VideoSignature)
    requires Inv(s) && s.videoBuf == []
    ensures Inv(InstallConfig(s, config, signature))
  {
  }

  lemma ApplyConfigKeepsInv(f: Foreign, s: State, u: Unit)
    requires Inv(s)
    ensures Inv(ApplyConfig(f, s, u).0)
    ensures ApplyConfig(f, s, u).1 != Accepted ==> ApplyConfig(f, s, u).0 == s
  {
    var parsed := ParseConfig(f, s.sps, s.pps, u.data);
    if ApplyConfig(f, s, u).1 == Accepted {
      if s.config.None? {
        ClearKeepsInv(s);
        InstallKeepsInv(ClearPending(s), parsed.value.0, parsed.value.1);
      } else {
        FlushCurrentKeepsInv(f, s);
        ClearKeepsInv(FlushCurrent(f, s));
        InstallKeepsInv(ClearPending(FlushCurrent(f, s)), parsed.value.0, parsed.value.1);
      }
    }
  }

  /** Appending a unit that does not call for a cut keeps the part within its limit. */
  lemma BufferVideoKeepsInv(s: State, u: Unit, started: bool)
    requires Inv(s)
    requires s.config.Some? ==> started && !CutsBefore(s, u)
    ensures Inv(BufferVideo(s, u).(startedVideo := started))
  {
    var s' := BufferVideo(s, u).(startedVideo := started);
    assert Shape(s') && Conserved(s') && HistoryOk(s') && AudioCounted(s');
  }

  lemma DropPendingKeepsInv(s: State)
    requires Inv(s)
    ensures Inv(DropPendingIfNeeded(s))
    ensures |DropPendingIfNeeded(s).videoBuf| + |DropPendingIfNeeded(s).audioBuf| <= 180
  {
    ClearKeepsInv(s);
  }

  lemma AcceptVideoKeepsInv(f: Foreign, s: State, u: Unit, needsKey: bool)
    requires Inv(s)
    ensures Inv(AcceptVideo(f, s, u, needsKey))
  {
    if s.config.None? {
      BufferVideoKeepsInv(s, u, s.startedVideo);
      DropPendingKeepsInv(BufferVideo(s, u));
    } else if !(needsKey && !u.key) {
      if CutsBefore(s, u) {
        InvGivesPrefix(s);
        FlushKeepsInv(f, s, u.dts);
        FlushEmpties(f, s, u.dts);
        BufferVideoKeepsInv(Flush(f, s, u.dts), u, true);
      } else {
        BufferVideoKeepsInv(s, u, true);
      }
    }
  }

  lemma PushVideoKeepsInv(f: Foreign, s: State, u: Unit)
    requires Inv(s)
    ensures Inv(PushVideo(f, s, u))
  {
    ApplyConfigKeepsInv(f, s, u);
    var (s1, outcome) := ApplyConfig(f, s, u);
    if !outcome.Rejected? && Strip(u.data).Ok? && Strip(u.data).value != [] {
      AcceptVideoKeepsInv(f, s1, u.(data := Strip(u.data).value), s.config.None? || outcome.Accepted?);
    }
  }

  // ---------------------------------------------------------------- audio

  /** Buffering audio keeps everything but the bound below target. */
  lemma BufferAudioKeeps(s: State, u: Unit, durationMs: Option<nat>)
    requires Inv(s)
    ensures var s' := BufferAudio(s, u, durationMs);
      && Shape(s') && Conserved(s') && HistoryOk(s') && Tight(s') && PrefixBelowTarget(s')
      && s'.audioBufferedMs == TotalMs(s'.audioDurations)
  {
    var s' := BufferAudio(s, u, durationMs);
    assert s'.audioDurations[..|s.audioDurations|] == s.audioDurations;
  }

  lemma AcceptAudioKeepsInv(f: Foreign, s: State, u: Unit)
    requires Inv(s)
    ensures Inv(AcceptAudio(f, s, u))
  {
    var durationMs := f.audioDurationMs(u, s.audioConfig);
    if Waiting(s) {
      BufferAudioKeeps(s, u, durationMs);
      DropPendingKeepsInv(BufferAudio(s, u, durationMs));
    } else {
      var s0 := if AudioCutsBefore(s, u) then Flush(f, s, 0) else s;
      if AudioCutsBefore(s, u) {
        InvGivesPrefix(s);
        FlushKeepsInv(f, s, 0);
      }
      BufferAudioKeeps(s0, u, durationMs);
      var s1 := BufferAudio(s0, u, durationMs);
      if AudioReachedTarget(s1) { FlushKeepsInv(f, s1, 0); }
    }
  }

  lemma PushAudioKeepsInv(f: Foreign, s: State, u: Unit)
    requires Inv(s)
    ensures Inv(PushAudio(f, s, u))
  {
    var (s1, u1) := ApplyAacTimeline(f, s, u);
    assert Inv(s1);
    assert Inv(NoteAudioSignature(f, s1, u1));
    AcceptAudioKeepsInv(f, NoteAudioSignature(f, s1, u1), u1);
  }

  // ---------------------------------------------------------------- runs

  lemma PushFramedKeepsInv(f: Foreign, s: State, u: Unit)
    requires Inv(s)
    ensures Inv(PushFramed(f, s, u))
  {
    var s1 := if Rewinds(s, u) then Reset(FlushCurrent(f, s)) else s;
    if Rewinds(s, u) {
      FlushCurrentKeepsInv(f, s);
      ResetKeepsInv(FlushCurrent(f, s));
    }
    var (s2, u2) := Normalize(s1, u);
    assert Inv(s2);
    if u.streamType.H264? { PushVideoKeepsInv(f, s2, u2); } else { PushAudioKeepsInv(f, s2, u2); }
  }

  lemma StepKeepsInv(f: Foreign, s: State, op: Op)
    requires Inv(s)
    ensures Inv(Apply(f, s, op))
  {
    match op
    case PushUnit(u) =>
      match u.streamType {
        case Unsupported =>
        case Audio(_) => PushFramedKeepsInv(f, s, u);
        case H264 =>
          var s1 := s.(seenVideo := true);
          assert Inv(s1);
          var framed := f.frame(u.data, u.key);
          if framed.Some? {
            PushFramedKeepsInv(f, s1, u.(data := framed.value.0, key := framed.value.1));
          }
      }
    case Finish => FlushCurrentKeepsInv(f, s);
    case ResetAll => ResetKeepsInv(s);
    case SetAudio(audioConfig) =>
  }

  /** The invariant holds after every run. */
  lemma {:induction false} RunKeepsInv(f: Foreign, input: TimestampInput, minPartMs: u32, ops: seq<Op>)
    ensures Inv(ApplyAll(f, Fresh(input, minPartMs), ops))
  {
    if ops != [] {
      RunKeepsInv(f, input, minPartMs, ops[..|ops| - 1]);
      StepKeepsInv(f, ApplyAll(f, Fresh(input, minPartMs), ops[..|ops| - 1]), ops[|ops| - 1]);
    }
  }
}
