/** The fMP4 segmenter: video and audio buffers, H.264 configuration changes, part cutting
    and the republication of init segments, as functions on an explicit state. */
module Segmenter {
  import opened Wrappers
  import opened Words
  import opened NaluSamples
  import opened MediaClock

  const DEFAULT_MIN_PART_MS: u32 := 50
  const MAX_PART_MS_WITHOUT_KEY: u32 := 2_000
  const MAX_PENDING_UNITS_WITHOUT_CONFIG: nat := 180

  datatype TimestampInput = Ticks90Khz | Millis | MillisAbsolute

  datatype StreamType = H264 | Audio(code: u8) | Unsupported

  datatype Unit = Unit(id: nat, streamType: StreamType, key: bool, pts: u64, dts: u64, data: Bytes)

  /** Audio track configurations are compared and handed to the boxer, never read. */
  datatype AudioTrack = AacTrack | OtherTrack(description: int)

  datatype AudioSignature = Detected(description: int) | Explicit(track: AudioTrack)

  datatype VideoSignature = VideoSignature(sps: Bytes, pps: Bytes)

  datatype InitSignature = InitSignature(video: Option<VideoSignature>, audio: Option<AudioSignature>)

  datatype Dimensions = Dimensions(width: u16, height: u16)

  /** What boxing and publishing attempt number n come to. A non-empty box contains an init
      segment exactly when one was asked for. */
  datatype Boxing = EmptyBox | Boxed(published: bool)

  /** Code this model does not contain: framing detection, SPS and audio header decoding,
      the boxer and the publisher. */
  datatype Foreign = Foreign(
    frame: (Bytes, bool) -> Option<(Bytes, bool)>,
    decodeSps: Bytes -> Option<Dimensions>,
    adtsSampleRate: Bytes -> Option<u32>,
    audioSignature: Unit -> Option<AudioSignature>,
    audioDurationMs: (Unit, Option<AudioTrack>) -> Option<nat>,
    boxing: nat -> Boxing)

  /** One part handed to the boxer. `videoTags` are the configurations under which its video
      units were buffered, `audioDurations` the durations its audio units were counted with,
      `audioOnly` whether no video had been seen: history, not published. */
  datatype Part = Part(
    video: seq<Unit>, audio: seq<Unit>, nextDts: u64, signature: InitSignature, init: bool,
    sequence: nat, segmentSequence: u32, boxing: Boxing,
    videoTags: seq<Option<VideoSignature>>, audioDurations: seq<Option<nat>>, audioOnly: bool)

  /** What happened to the buffers: cut into a part, or discarded. */
  datatype Batch = Cut(part: Part) | Dropped(video: seq<Unit>, audio: seq<Unit>)

  /** The last five members are history. */
  datatype State = State(
    input: TimestampInput, minPartTicks: nat,
    audioConfig: Option<AudioTrack>,
    videoBuf: seq<Unit>, videoTimestamps: seq<u64>,
    audioBuf: seq<Unit>, audioTimestamps: seq<u64>,
    audioBufferedMs: Option<nat>, aacTimeline: Option<AacTimeline>,
    config: Option<Dimensions>, sps: Option<Bytes>, pps: Option<Bytes>,
    videoSignature: Option<VideoSignature>, audioSignature: Option<AudioSignature>,
    lastInit: Option<InitSignature>, forceNextInit: bool,
    seenVideo: bool, startedVideo: bool,
    publishedParts: nat, segmentSequence: u32, timestampBase: Option<u64>,
    trace: seq<Batch>, videoTags: seq<Option<VideoSignature>>, audioDurations: seq<Option<nat>>,
    videoIn: seq<Unit>, audioIn: seq<Unit>)

  function Fresh(input: TimestampInput, minPartMs: u32): State {
    State(input, MsToTicks(minPartMs), None, [], [], [], [], Some(0), None, None, None, None, None, None,
          None, true, false, false, 0, 1, None, [], [], [], [], [])
  }

  /** Both buffers and their bookkeeping empty, their contents accounted for by `b`. */
  function Emptied(s: State, b: Batch): State {
    s.(videoBuf := [], videoTimestamps := [], audioBuf := [], audioTimestamps := [], audioBufferedMs := Some(0),
       trace := s.trace + [b], videoTags := [], audioDurations := [])
  }

  function ClearPending(s: State): State { Emptied(s, Dropped(s.videoBuf, s.audioBuf)) }

  function Reset(s: State): State {
    ClearPending(s).(
      aacTimeline := None, config := None, sps := None, pps := None, videoSignature := None, audioSignature := None,
      lastInit := None, forceNextInit := true, seenVideo := false, startedVideo := false, timestampBase := None)
  }

  function SetAudioConfig(s: State, audioConfig: Option<AudioTrack>): State {
    if s.audioConfig == audioConfig then s
    else s.(audioConfig := audioConfig, lastInit := None, forceNextInit := true)
  }

  function CurrentSignature(s: State): InitSignature { InitSignature(s.videoSignature, s.audioSignature) }

  function IncludeInit(s: State): bool { s.forceNextInit || s.lastInit != Some(CurrentSignature(s)) }

  function NextPart(f: Foreign, s: State, nextDts: u64): Part {
    Part(s.videoBuf, s.audioBuf, nextDts, CurrentSignature(s), IncludeInit(s), s.publishedParts, s.segmentSequence,
         f.boxing(|s.trace|), s.videoTags, s.audioDurations, !s.seenVideo)
  }

  /** The init bookkeeping after part `p` was boxed. */
  function NoteBoxed(s: State, p: Part): State {
    s.(lastInit := if p.init && p.boxing.Boxed? && p.boxing.published then Some(p.signature) else s.lastInit,
       forceNextInit := if p.init && p.boxing.Boxed? then !p.boxing.published else s.forceNextInit,
       publishedParts := if p.boxing.Boxed? then s.publishedParts + 1 else s.publishedParts,
       segmentSequence := (s.segmentSequence + 1) % (U32_MAX + 1))
  }

  /** Box the buffers into one part and publish it. */
  function CutPart(f: Foreign, s: State, nextDts: u64): State {
    NoteBoxed(Emptied(s, Cut(NextPart(f, s, nextDts))), NextPart(f, s, nextDts))
  }

  function Flush(f: Foreign, s: State, nextDts: u64): State {
    if s.videoBuf == [] && s.audioBuf == [] then s
    else if s.config.None? && s.seenVideo then ClearPending(s)
    else CutPart(f, s, nextDts)
  }

  /** 64-bit addition as release builds do it. */
  function WrapAdd(a: u64, b: u64): u64 { (a + b) % (U64_MAX + 1) }

  function FlushCurrent(f: Foreign, s: State): State {
    var n := |s.videoTimestamps|;
    if n >= 2 then
      var last := s.videoTimestamps[n - 1];
      Flush(f, s, WrapAdd(last, Max(SatSub(last, s.videoTimestamps[n - 2]), 1)))
    else if n == 1 then Flush(f, s, WrapAdd(s.videoTimestamps[0], MsToTicks(DEFAULT_MIN_PART_MS)))
    else if s.audioBuf != [] then Flush(f, s, 0)
    else s
  }

  function DropPendingIfNeeded(s: State): State {
    if |s.videoBuf| + |s.audioBuf| <= MAX_PENDING_UNITS_WITHOUT_CONFIG then s else ClearPending(s)
  }

  // ---------------------------------------------------------------- video

  function LastOfType(nalus: seq<Bytes>, t: nat, initial: Option<Bytes>): Option<Bytes> {
    if nalus == [] then initial
    else
      var n := nalus[|nalus| - 1];
      if n != [] && NaluType(n) == t then Some(n) else LastOfType(nalus[..|nalus| - 1], t, initial)
  }

  predicate HasParameterSet(nalus: seq<Bytes>) { exists n :: n in nalus && IsParameterSet(n) }

  /** The configuration a sample announces, completed from the parameter sets already known. */
  function ParseConfig(f: Foreign, sps: Option<Bytes>, pps: Option<Bytes>, data: Bytes)
    : Option<(Dimensions, VideoSignature)>
  {
    match Parse(data)
    case Err(_) => None
    case Ok(nalus) =>
      if HasParameterSet(nalus) then Announced(f, LastOfType(nalus, SPS_TYPE, sps), LastOfType(nalus, PPS_TYPE, pps))
      else None
  }

  function Announced(f: Foreign, sps: Option<Bytes>, pps: Option<Bytes>): Option<(Dimensions, VideoSignature)> {
    if sps.None? || pps.None? then None
    else
      var dimensions := f.decodeSps(sps.value);
      if dimensions.None? || |sps.value| < 3 then None
      else Some((dimensions.value, VideoSignature(sps.value, pps.value)))
  }

  function InstallConfig(s: State, config: Dimensions, signature: VideoSignature): State {
    s.(sps := Some(signature.sps), pps := Some(signature.pps), config := Some(config),
       videoSignature := Some(signature), forceNextInit := true, startedVideo := false)
  }

  datatype ConfigOutcome = Unchanged | Accepted | Rejected

  /** What the parameter sets of a video unit do before the unit itself is considered. */
  function ApplyConfig(f: Foreign, s: State, u: Unit): (State, ConfigOutcome) {
    var parsed := ParseConfig(f, s.sps, s.pps, u.data);
    if parsed.None? || s.videoSignature == Some(parsed.value.1) then (s, Unchanged)
    else if s.config.None? then (InstallConfig(ClearPending(s), parsed.value.0, parsed.value.1), Accepted)
    else if u.key then
      (InstallConfig(ClearPending(FlushCurrent(f, s)), parsed.value.0, parsed.value.1), Accepted)
    else if s.config == Some(parsed.value.0) then (s, Unchanged)
    else (s, Rejected)
  }

  /** The next video unit starts a new part: the target is reached, or two seconds passed. */
  predicate CutsBefore(s: State, u: Unit) {
    s.videoTimestamps != []
    && var elapsed := SatSub(u.dts, s.videoTimestamps[0]);
       elapsed >= s.minPartTicks || elapsed >= MsToTicks(MAX_PART_MS_WITHOUT_KEY)
  }

  function BufferVideo(s: State, u: Unit): State {
    s.(videoTimestamps := s.videoTimestamps + [u.dts], videoBuf := s.videoBuf + [u],
       videoTags := s.videoTags + [s.videoSignature], videoIn := s.videoIn + [u])
  }

  /** A video unit without parameter sets, once the configuration question is settled. */
  function AcceptVideo(f: Foreign, s: State, u: Unit, needsKey: bool): State {
    if s.config.None? then DropPendingIfNeeded(BufferVideo(s, u))
    else if needsKey && !u.key then s
    else BufferVideo(if CutsBefore(s, u) then Flush(f, s, u.dts) else s, u).(startedVideo := true)
  }

  function PushVideo(f: Foreign, s: State, u: Unit): State {
    var (s1, outcome) := ApplyConfig(f, s, u);
    if outcome.Rejected? then s1
    else
      match Strip(u.data)
      case Err(_) => s1
      case Ok(data) =>
        if data == [] then s1
        else AcceptVideo(f, s1, u.(data := data), s.config.None? || outcome.Accepted?)
  }

  // ---------------------------------------------------------------- audio

  function AddMs(buffered: Option<nat>, more: Option<nat>): Option<nat> {
    if buffered.Some? && more.Some? then Some(SatAdd(buffered.value, more.value)) else None
  }

  function BufferAudio(s: State, u: Unit, durationMs: Option<nat>): State {
    s.(audioTimestamps := s.audioTimestamps + [u.pts], audioBuf := s.audioBuf + [u],
       audioBufferedMs := AddMs(s.audioBufferedMs, durationMs),
       audioDurations := s.audioDurations + [durationMs], audioIn := s.audioIn + [u])
  }

  function ApplyAacTimeline(f: Foreign, s: State, u: Unit): (State, Unit) {
    var rate := f.adtsSampleRate(u.data);
    if s.audioConfig.Some? || rate.None? then (s, u)
    else
      var (decode, timeline) := ApplyTimeline(s.aacTimeline, rate.value, u.pts);
      (s.(aacTimeline := Some(timeline)), u.(pts := decode, dts := decode))
  }

  function NoteAudioSignature(f: Foreign, s: State, u: Unit): State {
    var signature := if s.audioConfig.Some? then Some(Explicit(s.audioConfig.value)) else f.audioSignature(u);
    if signature.None? || s.audioSignature == signature then s
    else s.(audioSignature := signature, forceNextInit := true)
  }

  /** Audio is held back while video is expected but not yet configured and started. */
  predicate Waiting(s: State) { s.seenVideo && (s.config.None? || !s.startedVideo) }

  function TargetMs(s: State): nat { TicksToMs(s.minPartTicks) }

  predicate AudioCutsBefore(s: State, u: Unit) {
    && s.videoBuf == [] && s.audioBufferedMs.None?
    && s.audioTimestamps != [] && SatSub(u.pts, s.audioTimestamps[0]) >= TargetMs(s)
  }

  predicate AudioReachedTarget(s: State) {
    !s.seenVideo && s.audioBufferedMs.Some? && s.audioBufferedMs.value >= TargetMs(s)
  }

  function AcceptAudio(f: Foreign, s: State, u: Unit): State {
    var durationMs := f.audioDurationMs(u, s.audioConfig);
    if Waiting(s) then DropPendingIfNeeded(BufferAudio(s, u, durationMs))
    else
      var s1 := BufferAudio(if AudioCutsBefore(s, u) then Flush(f, s, 0) else s, u, durationMs);
      if AudioReachedTarget(s1) then Flush(f, s1, 0) else s1
  }

  function PushAudio(f: Foreign, s: State, u: Unit): State {
    var (s1, u1) := ApplyAacTimeline(f, s, u);
    AcceptAudio(f, NoteAudioSignature(f, s1, u1), u1)
  }

  // ---------------------------------------------------------------- units and operations

  function Normalize(s: State, u: Unit): (State, Unit) {
    var base := if s.timestampBase.Some? then s.timestampBase.value else u.dts;
    var (s', pts, dts) :=
      if s.input.MillisAbsolute? then (s, u.pts, u.dts)
      else (s.(timestampBase := Some(base)), SatSub(u.pts, base), SatSub(u.dts, base));
    var scaled :=
      if u.streamType.H264? then
        (if s.input.Ticks90Khz? then (pts, dts) else (MsToTicksU64(pts), MsToTicksU64(dts)))
      else
        (if s.input.Ticks90Khz? then (TicksToMs(pts), TicksToMs(dts)) else (pts, dts));
    (s', u.(pts := scaled.0, dts := scaled.1))
  }

  /** A video unit earlier than the first timestamp of the session. */
  predicate Rewinds(s: State, u: Unit) {
    u.streamType.H264? && s.timestampBase.Some? && u.dts < s.timestampBase.value
  }

  /** A unit past the stream-type gate. */
  function PushFramed(f: Foreign, s: State, u: Unit): State {
    var s1 := if Rewinds(s, u) then Reset(FlushCurrent(f, s)) else s;
    var (s2, u2) := Normalize(s1, u);
    if u.streamType.H264? then PushVideo(f, s2, u2) else PushAudio(f, s2, u2)
  }

  function Push(f: Foreign, s: State, u: Unit): State {
    match u.streamType
    case Unsupported => s
    case Audio(_) => PushFramed(f, s, u)
    case H264 =>
      var s1 := s.(seenVideo := true);
      match f.frame(u.data, u.key)
      case None => s1
      case Some(framed) => PushFramed(f, s1, u.(data := framed.0, key := framed.1))
  }

  datatype Op = PushUnit(u: Unit) | Finish | ResetAll | SetAudio(audioConfig: Option<AudioTrack>)

  function Apply(f: Foreign, s: State, op: Op): State {
    match op
    case PushUnit(u) => Push(f, s, u)
    case Finish => FlushCurrent(f, s)
    case ResetAll => Reset(s)
    case SetAudio(audioConfig) => SetAudioConfig(s, audioConfig)
  }

  function ApplyAll(f: Foreign, s: State, ops: seq<Op>): State {
    if ops == [] then s else Apply(f, ApplyAll(f, s, ops[..|ops| - 1]), ops[|ops| - 1])
  }
}
