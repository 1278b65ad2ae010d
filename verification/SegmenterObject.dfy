/** The segmenter as the mutable object of the source, method by method against the state
    functions. The publisher's and boxer's answers come from the foreign code's record. */
module SegmenterObject {
  import opened Wrappers
  import opened Words
  import opened NaluSamples
  import opened MediaClock
  import opened Segmenter
  import opened SegmenterRuns
  import opened SegmenterTheorems
  import opened SegmenterPushes
  import opened SegmenterSets
  import opened SegmenterParts

  /** What the state functions remember about the past. */
  datatype History = History(
    trace: seq<Batch>, videoTags: seq<Option<VideoSignature>>, audioDurations: seq<Option<nat>>,
    videoIn: seq<Unit>, audioIn: seq<Unit>)

  class Fmp4Segmenter {
    const f: Foreign
    const input: TimestampInput
    const minPartTicks: nat
    var audioConfig: Option<AudioTrack>
    var videoBuf: seq<Unit>
    var videoTimestamps: seq<u64>
    var audioBuf: seq<Unit>
    var audioTimestamps: seq<u64>
    var audioBufferedMs: Option<nat>
    var aacTimeline: Option<AacTimeline>
    var config: Option<Dimensions>
    var sps: Option<Bytes>
    var pps: Option<Bytes>
    var videoSignature: Option<VideoSignature>
    var audioSignature: Option<AudioSignature>
    var lastInit: Option<InitSignature>
    var forceNextInit: bool
    var seenVideo: bool
    var startedVideo: bool
    var publishedParts: nat
    var segmentSequence: u32
    var timestampBase: Option<u64>
    ghost var history: History
    /** Boxing attempts and clearings so far, the position in the foreign code's answers. */
    var attempts: nat

    /** The count of answers used up matches the record of batches. */
    ghost predicate Linked()
      reads this
    {
      attempts == |history.trace|
    }

    /** Everything the runs promise: parallel timestamps, conserved units, inits in order, parts
        within their limit, audio below its target. */
    ghost predicate Valid()
      reads this
    {
      Linked() && Inv(View()) && SetsFit(f, View())
    }

    ghost function View(): State
      reads this
    {
      State(input, minPartTicks, audioConfig, videoBuf, videoTimestamps, audioBuf, audioTimestamps,
            audioBufferedMs, aacTimeline, config, sps, pps, videoSignature, audioSignature, lastInit, forceNextInit,
            seenVideo, startedVideo, publishedParts, segmentSequence, timestampBase,
            history.trace, history.videoTags, history.audioDurations, history.videoIn, history.audioIn)
    }

    constructor (f: Foreign, input: TimestampInput, minPartMs: u32)
      ensures Valid() && View() == Fresh(input, minPartMs) && this.f == f
      ensures !seenVideo && !startedVideo && forceNextInit && publishedParts == 0 && segmentSequence == 1
      ensures minPartTicks == 90 * minPartMs && audioBufferedMs == Some(0)
    {
      this.f, this.input, minPartTicks := f, input, MsToTicks(minPartMs);
      audioConfig := None;
      videoBuf, videoTimestamps, audioBuf, audioTimestamps := [], [], [], [];
      audioBufferedMs, aacTimeline := Some(0), None;
      config, sps, pps, videoSignature, audioSignature := None, None, None, None, None;
      lastInit, forceNextInit := None, true;
      seenVideo, startedVideo, publishedParts, segmentSequence, timestampBase := false, false, 0, 1, None;
      history := History([], [], [], [], []);
      attempts := 0;
      FreshIsSound(input, minPartMs);
      ConversionsAreNearest(minPartMs, 0);
    }

    // ---- What callers use ----

    /** Take in one access unit. The unit is buffered exactly when it may be, what was buffered
        is cut into parts or discarded exactly as stated, and nothing else changes hands. */
    method PushAccessUnit(unit: Unit)
      requires Valid()
      modifies this
      ensures Valid() && PushOwes(f, old(View()), unit, View())
      ensures PartsOwed(f, old(View()), unit, View()) && SetsOwed(f, old(View()), unit, View())
      ensures videoSignature.Some? && videoSignature != old(videoSignature) ==> StartsOver(View())
      ensures View() == Push(f, old(View()), unit)
    {
      PushKeepsPromise(f, View(), unit);
      PushCuts(f, View(), unit);
      PushInstalls(f, View(), unit);
      PushStartsOver(f, View(), unit);
      TakeUnit(unit);
    }

    /** Cut what is buffered. Units are discarded only if video is expected without a configuration. */
    method Finish()
      requires Valid()
      modifies this
      ensures Valid() && Keeps(old(View()), View()) && videoBuf == [] && audioBuf == []
      ensures Lossless(old(View()), View()) <==>
        !(old(config) == None && old(seenVideo) && old(|videoBuf| + |audioBuf|) > 0)
      ensures Holds(old(View())) && (old(config).Some? || !old(seenVideo)) ==>
        && CutsOne(old(View()), View(), old(audioSignature), old(forceNextInit), ClosingDts(old(View())))
        && InitNoted(old(View()), View().trace[|old(View()).trace|].part, View())
      ensures View() == FlushCurrent(f, old(View()))
    {
      ghost var s := View();
      assert Apply(f, s, Op.Finish) == FlushCurrent(f, s);
      StepKeeps(f, s, Op.Finish);
      FlushCurrentKeepsInv(f, s);
      FinishDiscardsIff(f, s);
      FlushCurrentCuts(f, s);
      FlushCurrentOnlyCuts(f, s);
      CutsKeepFit(f, s, FlushCurrent(f, s));
      FinishCurrent();
    }

    /** Forget the stream; whatever was buffered is discarded, the part counters go on. */
    method ResetState()
      requires Valid()
      modifies this
      ensures Valid() && Keeps(old(View()), View())
      ensures videoBuf == [] && audioBuf == [] && config == None && lastInit == None && forceNextInit
      ensures !seenVideo && !startedVideo && timestampBase == None && aacTimeline == None
      ensures sps == None && pps == None && videoSignature == None && audioSignature == None
      ensures publishedParts == old(publishedParts) && segmentSequence == old(segmentSequence)
      ensures View() == Reset(old(View()))
    {
      ResetKeeps(View());
      ClearedFits(f, View());
      ForgetStream();
    }

    /** A changed track configuration forces a new init; buffered units stay. */
    method SetAudioTrackConfig(newConfig: Option<AudioTrack>)
      requires Valid()
      modifies this`audioConfig, this`lastInit, this`forceNextInit
      ensures Valid() && audioConfig == newConfig
      ensures old(audioConfig) != newConfig ==> lastInit == None && forceNextInit
      ensures View() == SetAudioConfig(old(View()), newConfig)
    {
      SetAudioKeeps(View(), newConfig);
      CutsKeepFit(f, View(), SetAudioConfig(View(), newConfig));
      ReplaceAudioConfig(newConfig);
    }

    // ---- Inside an operation ----

    method ReplaceAudioConfig(newConfig: Option<AudioTrack>)
      requires Linked()
      modifies this`audioConfig, this`lastInit, this`forceNextInit
      ensures Linked() && View() == SetAudioConfig(old(View()), newConfig)
    {
      if audioConfig == newConfig {
        return;
      }
      audioConfig := newConfig;
      lastInit := None;
      forceNextInit := true;
    }

    method TakeUnit(unit: Unit)
      requires Linked()
      modifies this
      ensures Linked() && View() == Push(f, old(View()), unit)
    {
      var u := unit;
      if u.streamType.H264? {
        seenVideo := true;
        var framed := f.frame(u.data, u.key);
        if framed.None? {
          return;
        }
        u := u.(data := framed.value.0, key := framed.value.1);
      } else if u.streamType.Unsupported? {
        return;
      }
      PushFramedUnit(u);
    }

    method EmptyBuffers(ghost b: Batch)
      modifies this`videoBuf, this`videoTimestamps, this`audioBuf, this`audioTimestamps, this`audioBufferedMs,
               this`history, this`attempts
      ensures videoBuf == [] && videoTimestamps == [] && audioBuf == [] && audioTimestamps == []
      ensures audioBufferedMs == Some(0) && attempts == old(attempts) + 1
      ensures history == old(history).(trace := old(history).trace + [b], videoTags := [], audioDurations := [])
    {
      videoBuf, videoTimestamps, audioBuf, audioTimestamps := [], [], [], [];
      audioBufferedMs := Some(0);
      attempts := attempts + 1;
      history := history.(trace := history.trace + [b], videoTags := [], audioDurations := []);
    }

    /** Empty the buffers; `b` records where their contents went. */
    method TakeBuffers(ghost b: Batch)
      requires Linked()
      modifies this`videoBuf, this`videoTimestamps, this`audioBuf, this`audioTimestamps, this`audioBufferedMs,
               this`history, this`attempts
      ensures Linked() && View() == Emptied(old(View()), b)
    {
      EmptyBuffers(b);
    }

    method ClearPendingMedia()
      requires Linked()
      modifies this`videoBuf, this`videoTimestamps, this`audioBuf, this`audioTimestamps, this`audioBufferedMs,
               this`history, this`attempts
      ensures Linked() && View() == ClearPending(old(View()))
    {
      TakeBuffers(Dropped(videoBuf, audioBuf));
    }

    /** Every member the stream determined goes back to its first value. */
    method ForgetTracks()
      modifies this`aacTimeline, this`config, this`sps, this`pps, this`videoSignature, this`audioSignature,
               this`lastInit, this`forceNextInit, this`seenVideo, this`startedVideo, this`timestampBase
      ensures aacTimeline == None && config == None && sps == None && pps == None
      ensures videoSignature == None && audioSignature == None && lastInit == None && timestampBase == None
      ensures forceNextInit && !seenVideo && !startedVideo
    {
      aacTimeline := None;
      config, sps, pps, videoSignature, audioSignature := None, None, None, None, None;
      lastInit, forceNextInit := None, true;
      seenVideo, startedVideo, timestampBase := false, false, None;
    }

    method ForgetStream()
      requires Linked()
      modifies this
      ensures Linked() && View() == Reset(old(View()))
    {
      ClearPendingMedia();
      ForgetTracks();
    }

    method FlushWithNextDts(nextDts: u64)
      requires Linked()
      modifies this
      ensures Linked() && View() == Flush(f, old(View()), nextDts)
    {
      if videoBuf == [] && audioBuf == [] {
        return;
      }
      if config.None? && seenVideo {
        ClearPendingMedia();
        return;
      }
      CutBuffers(nextDts);
    }

    method CutBuffers(nextDts: u64)
      requires Linked()
      modifies this
      ensures Linked() && View() == CutPart(f, old(View()), nextDts)
    {
      var signature := InitSignature(videoSignature, audioSignature);
      var includeInit := forceNextInit || lastInit != Some(signature);
      var boxing := f.boxing(attempts);
      ghost var part := NextPart(f, View(), nextDts);
      assert part.init == includeInit && part.boxing == boxing && part.signature == signature;
      TakeBuffers(Cut(part));
      NoteBoxedPart(boxing, includeInit, signature);
    }

    /** The counters and init bookkeeping after boxing and publishing. */
    method NoteBoxedPart(boxing: Boxing, includeInit: bool, signature: InitSignature)
      modifies this`segmentSequence, this`lastInit, this`forceNextInit, this`publishedParts
      ensures segmentSequence == (old(segmentSequence) + 1) % (U32_MAX + 1)
      ensures publishedParts == old(publishedParts) + if boxing.Boxed? then 1 else 0
      ensures if includeInit && boxing.Boxed?
              then forceNextInit == !boxing.published
                   && lastInit == (if boxing.published then Some(signature) else old(lastInit))
              else forceNextInit == old(forceNextInit) && lastInit == old(lastInit)
    {
      segmentSequence := (segmentSequence + 1) % (U32_MAX + 1);
      if boxing.EmptyBox? {
        return;
      }
      if includeInit && boxing.published {
        lastInit := Some(signature);
        forceNextInit := false;
      } else if includeInit {
        forceNextInit := true;
      }
      publishedParts := publishedParts + 1;
    }

    method FinishCurrent()
      requires Linked()
      modifies this
      ensures Linked() && View() == FlushCurrent(f, old(View()))
    {
      var n := |videoTimestamps|;
      if n > 0 {
        var last := videoTimestamps[n - 1];
        var nextDts := WrapAdd(last, MsToTicks(DEFAULT_MIN_PART_MS));
        if n >= 2 {
          nextDts := WrapAdd(last, Max(SatSub(last, videoTimestamps[n - 2]), 1));
        }
        FlushWithNextDts(nextDts);
      } else if audioBuf != [] {
        FlushWithNextDts(0);
      }
    }

    method DropPendingWithoutConfigIfNeeded()
      requires Linked()
      modifies this
      ensures Linked() && View() == DropPendingIfNeeded(old(View()))
    {
      if |videoBuf| + |audioBuf| <= MAX_PENDING_UNITS_WITHOUT_CONFIG {
        return;
      }
      ClearPendingMedia();
    }

    method InstallH264Config(newConfig: Dimensions, signature: VideoSignature)
      modifies this`sps, this`pps, this`config, this`videoSignature, this`forceNextInit, this`startedVideo
      ensures sps == Some(signature.sps) && pps == Some(signature.pps)
      ensures config == Some(newConfig) && videoSignature == Some(signature)
      ensures forceNextInit && !startedVideo
    {
      sps, pps := Some(signature.sps), Some(signature.pps);
      config, videoSignature := Some(newConfig), Some(signature);
      forceNextInit, startedVideo := true, false;
    }

    /** A new configuration starts with empty buffers. */
    method ReplaceConfiguration(newConfig: Dimensions, signature: VideoSignature)
      requires Linked()
      modifies this
      ensures Linked() && View() == InstallConfig(ClearPending(old(View())), newConfig, signature)
    {
      ClearPendingMedia();
      InstallH264Config(newConfig, signature);
    }

    /** One pass over the sample, remembering the last parameter sets of each kind. */
    method ParseH264Config(data: Bytes) returns (r: Option<(Dimensions, VideoSignature)>)
      ensures forall a, b, d :: r == Some((d, VideoSignature(a, b))) <==> Offers(f, sps, pps, data, a, b, d)
      ensures r == ParseConfig(f, sps, pps, data)
    {
      forall a, b, d
        ensures ParseConfig(f, sps, pps, data) == Some((d, VideoSignature(a, b))) <==> Offers(f, sps, pps, data, a, b, d)
      {
        ParseConfigIff(f, sps, pps, data, a, b, d);
      }
      var found, candidateSps, candidatePps, rest := false, sps, pps, data;
      ghost var seen: seq<Bytes> := [];
      PrependNothing(Parse(data));
      while rest != []
        invariant Prepend(seen, Parse(rest)) == Parse(data)
        invariant found <==> HasParameterSet(seen)
        invariant candidateSps == LastOfType(seen, SPS_TYPE, sps)
        invariant candidatePps == LastOfType(seen, PPS_TYPE, pps)
        decreases |rest|
      {
        var next := NextNalu(rest);
        if next.Err? {
          return None;
        }
        var (nalu, tail) := next.value.value;
        ParseContinues(seen, nalu, tail, rest);
        LastOfTypeExtends(seen, nalu, sps, pps);
        if nalu != [] {
          if NaluType(nalu) == SPS_TYPE {
            candidateSps, found := Some(nalu), true;
          } else if NaluType(nalu) == PPS_TYPE {
            candidatePps, found := Some(nalu), true;
          }
        }
        seen := seen + [nalu];
        rest := tail;
      }
      assert seen + [] == seen;
      if !found || candidateSps.None? || candidatePps.None? {
        return None;
      }
      var dimensions := f.decodeSps(candidateSps.value);
      if dimensions.None? || |candidateSps.value| < 3 {
        return None;
      }
      return Some((dimensions.value, VideoSignature(candidateSps.value, candidatePps.value)));
    }

    /** Settle what the parameter sets of `u` change before the unit itself is considered. */
    method ApplyH264Config(u: Unit) returns (outcome: ConfigOutcome)
      requires Linked()
      modifies this
      ensures Linked() && (View(), outcome) == ApplyConfig(f, old(View()), u)
    {
      var parsed := ParseH264Config(u.data);
      if parsed.None? || videoSignature == Some(parsed.value.1) {
        return Unchanged;
      }
      if config.Some? {
        if !u.key {
          return if config == Some(parsed.value.0) then Unchanged else Rejected;
        }
        FinishCurrent();
      }
      ReplaceConfiguration(parsed.value.0, parsed.value.1);
      return Accepted;
    }

    method PushVideoUnit(u: Unit)
      requires Linked()
      modifies this
      ensures Linked() && View() == PushVideo(f, old(View()), u)
    {
      var hadConfig := config.Some?;
      var outcome := ApplyH264Config(u);
      if outcome.Rejected? {
        return;
      }
      var stripped := StripParameterSets(u.data);
      if stripped.Err? || stripped.value.None? {
        return;
      }
      AcceptVideoUnit(u.(data := stripped.value.value), !hadConfig || outcome.Accepted?);
    }

    method AcceptVideoUnit(u: Unit, needsKey: bool)
      requires Linked()
      modifies this
      ensures Linked() && View() == AcceptVideo(f, old(View()), u, needsKey)
    {
      if config.None? {
        BufferVideoUnit(u);
        DropPendingWithoutConfigIfNeeded();
        return;
      }
      if needsKey && !u.key {
        return;
      }
      if videoTimestamps != [] {
        var elapsed := SatSub(u.dts, videoTimestamps[0]);
        if elapsed >= minPartTicks || elapsed >= MsToTicks(MAX_PART_MS_WITHOUT_KEY) {
          FlushWithNextDts(u.dts);
        }
      }
      BufferVideoUnit(u);
      startedVideo := true;
    }

    method BufferVideoUnit(u: Unit)
      requires Linked()
      modifies this`videoTimestamps, this`videoBuf, this`history
      ensures Linked() && View() == BufferVideo(old(View()), u)
    {
      videoTimestamps, videoBuf := videoTimestamps + [u.dts], videoBuf + [u];
      history := history.(videoTags := history.videoTags + [videoSignature], videoIn := history.videoIn + [u]);
    }

    method BufferAudioUnit(u: Unit, durationMs: Option<nat>)
      requires Linked()
      modifies this`audioTimestamps, this`audioBuf, this`audioBufferedMs, this`history
      ensures Linked() && View() == BufferAudio(old(View()), u, durationMs)
    {
      audioTimestamps, audioBuf := audioTimestamps + [u.pts], audioBuf + [u];
      audioBufferedMs := AddMs(audioBufferedMs, durationMs);
      history := history.(audioDurations := history.audioDurations + [durationMs], audioIn := history.audioIn + [u]);
    }

    /** Replace the rounded time of an ADTS unit by its place on the sample clock. */
    method TrackAacClock(unit: Unit) returns (u: Unit)
      requires Linked()
      modifies this`aacTimeline
      ensures Linked() && (View(), u) == ApplyAacTimeline(f, old(View()), unit)
    {
      u := unit;
      var rate := f.adtsSampleRate(u.data);
      if audioConfig.None? && rate.Some? {
        var (decode, timeline) := ApplyTimeline(aacTimeline, rate.value, u.pts);
        u := u.(pts := decode, dts := decode);
        aacTimeline := Some(timeline);
      }
    }

    method NoteSignature(u: Unit)
      requires Linked()
      modifies this`audioSignature, this`forceNextInit
      ensures Linked() && View() == NoteAudioSignature(f, old(View()), u)
    {
      var signature := if audioConfig.Some? then Some(Explicit(audioConfig.value)) else f.audioSignature(u);
      if signature.Some? && audioSignature != signature {
        audioSignature, forceNextInit := signature, true;
      }
    }

    method PushAudioUnit(unit: Unit)
      requires Linked()
      modifies this
      ensures Linked() && View() == PushAudio(f, old(View()), unit)
    {
      var u := TrackAacClock(unit);
      NoteSignature(u);
      AcceptAudioUnit(u);
    }

    method AcceptAudioUnit(u: Unit)
      requires Linked()
      modifies this
      ensures Linked() && View() == AcceptAudio(f, old(View()), u)
    {
      var durationMs := f.audioDurationMs(u, audioConfig);
      if seenVideo && (config.None? || !startedVideo) {
        BufferAudioUnit(u, durationMs);
        DropPendingWithoutConfigIfNeeded();
        return;
      }
      if videoBuf == [] && audioBufferedMs.None? && audioTimestamps != []
         && SatSub(u.pts, audioTimestamps[0]) >= TicksToMs(minPartTicks) {
        FlushWithNextDts(0);
      }
      BufferAudioUnit(u, durationMs);
      if !seenVideo && audioBufferedMs.Some? && audioBufferedMs.value >= TicksToMs(minPartTicks) {
        FlushWithNextDts(0);
      }
    }

    method NormalizeTimestamps(u: Unit) returns (v: Unit)
      requires Linked()
      modifies this
      ensures Linked() && (View(), v) == Normalize(old(View()), u)
    {
      v := u;
      if !input.MillisAbsolute? {
        if timestampBase.None? {
          timestampBase := Some(v.dts);
        }
        v := v.(pts := SatSub(v.pts, timestampBase.value), dts := SatSub(v.dts, timestampBase.value));
      }
      if v.streamType.H264? {
        if !input.Ticks90Khz? {
          v := v.(pts := MsToTicksU64(v.pts), dts := MsToTicksU64(v.dts));
        }
      } else if input.Ticks90Khz? {
        v := v.(pts := TicksToMs(v.pts), dts := TicksToMs(v.dts));
      }
    }

    method PushFramedUnit(u: Unit)
      requires Linked()
      modifies this
      ensures Linked() && View() == PushFramed(f, old(View()), u)
    {
      if u.streamType.H264? && timestampBase.Some? && u.dts < timestampBase.value {
        FinishCurrent();
        ForgetStream();
      }
      var v := NormalizeTimestamps(u);
      if u.streamType.H264? {
        PushVideoUnit(v);
      } else {
        PushAudioUnit(v);
      }
    }
  }

  lemma PrependNothing(r: Result<seq<Bytes>, SampleError>)
    ensures Prepend([], r) == r
  {
    if r.Ok? { assert [] + r.value == r.value; }
  }

  lemma ParseContinues(seen: seq<Bytes>, nalu: Bytes, tail: Bytes, rest: Bytes)
    requires NextNalu(rest) == Ok(Some((nalu, tail)))
    ensures Prepend(seen, Parse(rest)) == Prepend(seen + [nalu], Parse(tail))
  {
    if Parse(tail).Ok? {
      assert seen + ([nalu] + Parse(tail).value) == seen + [nalu] + Parse(tail).value;
    }
  }

  lemma LastOfTypeExtends(seen: seq<Bytes>, nalu: Bytes, sps: Option<Bytes>, pps: Option<Bytes>)
    ensures LastOfType(seen + [nalu], SPS_TYPE, sps)
         == if nalu != [] && NaluType(nalu) == SPS_TYPE then Some(nalu) else LastOfType(seen, SPS_TYPE, sps)
    ensures LastOfType(seen + [nalu], PPS_TYPE, pps)
         == if nalu != [] && NaluType(nalu) == PPS_TYPE then Some(nalu) else LastOfType(seen, PPS_TYPE, pps)
    ensures HasParameterSet(seen + [nalu]) <==> HasParameterSet(seen) || IsParameterSet(nalu)
  {
    var all := seen + [nalu];
    assert all[..|seen|] == seen && all[|seen|] == nalu;
    if HasParameterSet(seen) {
      var n :| n in seen && IsParameterSet(n);
      assert n in all;
    }
    if IsParameterSet(nalu) { assert nalu in all; }
  }
}
