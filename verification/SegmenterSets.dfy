/** Which H.264 parameter sets and dimensions a push installs, in terms of the units of its
    sample, and what every run keeps of them. */
module SegmenterSets {
  import opened Wrappers
  import opened Words
  import opened NaluSamples
  import opened MediaClock
  import opened Segmenter
  import opened SegmenterPushes

  // ---------------------------------------------------------------- what a sample announces

  predicate OfType(nalu: Bytes, t: nat) { nalu != [] && nalu[0] % 32 == t }

  /** `n` is the last unit of type `t`; without any, it is the one stored. */
  ghost predicate Chosen(nalus: seq<Bytes>, t: nat, stored: Option<Bytes>, n: Bytes) {
    if exists k :: 0 <= k < |nalus| && OfType(nalus[k], t) then
      exists k :: 0 <= k < |nalus| && nalus[k] == n && OfType(n, t) && forall j :: k < j < |nalus| ==> !OfType(nalus[j], t)
    else stored == Some(n)
  }

  /** A readable sample with a parameter set of either kind offers the last sequence set (type 7)
      and the last picture set (type 8), one of them perhaps the stored one, and the dimensions
      the sequence set decodes to. */
  ghost predicate Offers(f: Foreign, sps0: Option<Bytes>, pps0: Option<Bytes>, data: Bytes,
                         sps: Bytes, pps: Bytes, dimensions: Dimensions) {
    && Parse(data).Ok? && var nalus := Parse(data).value;
    && (exists k :: 0 <= k < |nalus| && (OfType(nalus[k], 7) || OfType(nalus[k], 8)))
    && Chosen(nalus, 7, sps0, sps) && Chosen(nalus, 8, pps0, pps)
    && |sps| >= 3 && f.decodeSps(sps) == Some(dimensions)
  }

  lemma {:induction false} LastIsChosen(nalus: seq<Bytes>, t: nat, stored: Option<Bytes>, n: Bytes)
    ensures LastOfType(nalus, t, stored) == Some(n) <==> Chosen(nalus, t, stored, n)
  {
    if nalus != [] {
      var before, last := nalus[..|nalus| - 1], nalus[|nalus| - 1];
      if OfType(last, t) {
        assert nalus[|nalus| - 1] == last;
      } else {
        LastIsChosen(before, t, stored, n);
        assert forall k :: 0 <= k < |before| ==> before[k] == nalus[k];
      }
    }
  }

  lemma SetsAreTyped(nalus: seq<Bytes>)
    ensures HasParameterSet(nalus) <==> exists k :: 0 <= k < |nalus| && (OfType(nalus[k], 7) || OfType(nalus[k], 8))
  {
    assert forall n :: IsParameterSet(n) <==> OfType(n, 7) || OfType(n, 8);
    if HasParameterSet(nalus) {
      var n :| n in nalus && IsParameterSet(n);
      var k :| 0 <= k < |nalus| && nalus[k] == n;
    }
  }

  lemma ParseConfigIff(f: Foreign, sps0: Option<Bytes>, pps0: Option<Bytes>, data: Bytes,
                       sps: Bytes, pps: Bytes, dimensions: Dimensions)
    ensures ParseConfig(f, sps0, pps0, data) == Some((dimensions, VideoSignature(sps, pps)))
       <==> Offers(f, sps0, pps0, data, sps, pps, dimensions)
  {
    if Parse(data).Ok? {
      var nalus := Parse(data).value;
      LastIsChosen(nalus, 7, sps0, sps);
      LastIsChosen(nalus, 8, pps0, pps);
      SetsAreTyped(nalus);
    }
  }

  // ---------------------------------------------------------------- what a push installs

  /** The parameter sets and dimensions of two states are the same. */
  predicate SameSets(s: State, s': State) {
    s'.sps == s.sps && s'.pps == s.pps && s'.config == s.config && s'.videoSignature == s.videoSignature
  }

  predicate Installed(s: State, sps: Bytes, pps: Bytes, dimensions: Dimensions) {
    && s.sps == Some(sps) && s.pps == Some(pps) && s.config == Some(dimensions)
    && s.videoSignature == Some(VideoSignature(sps, pps))
  }

  /** What the sample offers is installed on a keyframe, or when nothing is installed; otherwise
      nothing changes. */
  ghost predicate Obeys(f: Foreign, s: State, v: Unit, s': State) {
    && (forall sps, pps, dimensions :: Offers(f, s.sps, s.pps, v.data, sps, pps, dimensions) ==>
          if v.key || s.config.None? then Installed(s', sps, pps, dimensions) else SameSets(s, s'))
    && ((forall sps, pps, dimensions :: !Offers(f, s.sps, s.pps, v.data, sps, pps, dimensions)) ==> SameSets(s, s'))
  }

  /** A unit earlier than the session's first timestamp makes the segmenter forget what is installed. */
  ghost predicate FramedOwes(f: Foreign, s: State, v: Unit, s': State) {
    if s.timestampBase.Some? && v.dts < s.timestampBase.value
    then Obeys(f, s.(sps := None, pps := None, config := None, videoSignature := None), v, s')
    else Obeys(f, s, v, s')
  }

  /** Only a framed video unit changes anything. */
  ghost predicate SetsOwed(f: Foreign, s: State, u: Unit, s': State) {
    if u.streamType.H264? && FramedUnit(f, u).Some? then FramedOwes(f, s, FramedUnit(f, u).value, s')
    else SameSets(s, s')
  }

  /** What is installed fits together, and every part was boxed with a sequence set and a picture
      set in their places. */
  ghost predicate SetsFit(f: Foreign, s: State) {
    && match s.videoSignature {
         case None => s.sps.None? && s.pps.None? && s.config.None?
         case Some(v) => s.sps == Some(v.sps) && s.pps == Some(v.pps) && Typed(v)
                         && s.config.Some? && f.decodeSps(v.sps) == s.config
       }
    && forall k :: 0 <= k < |s.trace| && s.trace[k].Cut? && s.trace[k].part.signature.video.Some?
         ==> Typed(s.trace[k].part.signature.video.value)
  }

  predicate Typed(v: VideoSignature) { OfType(v.sps, 7) && OfType(v.pps, 8) }

  /** Parts may have been cut since, all under the sets installed, which are the same. */
  predicate OnlyCuts(s: State, s': State) {
    && SameSets(s, s') && s.trace <= s'.trace
    && forall k :: |s.trace| <= k < |s'.trace| && s'.trace[k].Cut? ==> s'.trace[k].part.signature.video == s.videoSignature
  }

  lemma CutsKeepFit(f: Foreign, s: State, s': State)
    requires SetsFit(f, s) && OnlyCuts(s, s')
    ensures SetsFit(f, s')
  {
    assert forall k :: 0 <= k < |s.trace| ==> s'.trace[k] == s.trace[k];
  }

  lemma OnlyCutsChain(a: State, b: State, c: State)
    requires OnlyCuts(a, b) && OnlyCuts(b, c)
    ensures OnlyCuts(a, c)
  {
    assert forall k :: 0 <= k < |b.trace| ==> c.trace[k] == b.trace[k];
  }

  lemma FlushOnlyCuts(f: Foreign, s: State, nextDts: u64)
    ensures OnlyCuts(s, Flush(f, s, nextDts))
  {
  }

  lemma FlushCurrentOnlyCuts(f: Foreign, s: State)
    ensures OnlyCuts(s, FlushCurrent(f, s))
  {
    var n := |s.videoTimestamps|;
    if n >= 2 {
      var last := s.videoTimestamps[n - 1];
      FlushOnlyCuts(f, s, WrapAdd(last, Max(SatSub(last, s.videoTimestamps[n - 2]), 1)));
    } else if n == 1 {
      FlushOnlyCuts(f, s, WrapAdd(s.videoTimestamps[0], MsToTicks(DEFAULT_MIN_PART_MS)));
    } else {
      FlushOnlyCuts(f, s, 0);
    }
  }

  lemma ClearedFits(f: Foreign, s: State)
    requires SetsFit(f, s)
    ensures SetsFit(f, ClearPending(s)) && SetsFit(f, Reset(s))
  {
    CutsKeepFit(f, s, ClearPending(s));
  }

  lemma InstallFits(f: Foreign, s: State, dimensions: Dimensions, v: VideoSignature)
    requires SetsFit(f, s) && Typed(v) && f.decodeSps(v.sps) == Some(dimensions)
    ensures SetsFit(f, InstallConfig(s, dimensions, v))
    ensures Installed(InstallConfig(s, dimensions, v), v.sps, v.pps, dimensions)
  {
  }

  lemma ApplyConfigFits(f: Foreign, s: State, u: Unit)
    requires SetsFit(f, s)
    ensures SetsFit(f, ApplyConfig(f, s, u).0)
  {
    if ApplyConfig(f, s, u).1.Accepted? {
      var (dimensions, v) := ParseConfig(f, s.sps, s.pps, u.data).value;
      ParseConfigIff(f, s.sps, s.pps, u.data, v.sps, v.pps, dimensions);
      OfferIsTyped(f, s, u.data, v.sps, v.pps, dimensions);
      var flushed := if s.config.None? then s else FlushCurrent(f, s);
      FlushCurrentOnlyCuts(f, s);
      CutsKeepFit(f, s, FlushCurrent(f, s));
      ClearedFits(f, flushed);
      InstallFits(f, ClearPending(flushed), dimensions, v);
    }
  }

  lemma ApplyConfigObeys(f: Foreign, s: State, u: Unit)
    requires SetsFit(f, s)
    ensures Obeys(f, s, u, ApplyConfig(f, s, u).0)
  {
    var parsed := ParseConfig(f, s.sps, s.pps, u.data);
    forall sps, pps, dimensions | Offers(f, s.sps, s.pps, u.data, sps, pps, dimensions)
      ensures parsed == Some((dimensions, VideoSignature(sps, pps)))
    {
      ParseConfigIff(f, s.sps, s.pps, u.data, sps, pps, dimensions);
    }
    if parsed.Some? {
      ParseConfigIff(f, s.sps, s.pps, u.data, parsed.value.1.sps, parsed.value.1.pps, parsed.value.0);
    }
  }

  lemma OfferIsTyped(f: Foreign, s: State, data: Bytes, sps: Bytes, pps: Bytes, dimensions: Dimensions)
    requires SetsFit(f, s) && Offers(f, s.sps, s.pps, data, sps, pps, dimensions)
    ensures Typed(VideoSignature(sps, pps))
  {
  }

  lemma AcceptVideoOnlyCuts(f: Foreign, s: State, u: Unit, needsKey: bool)
    ensures OnlyCuts(s, AcceptVideo(f, s, u, needsKey))
  {
    FlushOnlyCuts(f, s, u.dts);
  }

  lemma PushVideoObeys(f: Foreign, s: State, u: Unit)
    requires SetsFit(f, s)
    ensures SetsFit(f, PushVideo(f, s, u)) && Obeys(f, s, u, PushVideo(f, s, u))
  {
    ApplyConfigFits(f, s, u);
    ApplyConfigObeys(f, s, u);
    var (s1, outcome) := ApplyConfig(f, s, u);
    if !outcome.Rejected? && Strip(u.data).Ok? && Strip(u.data).value != [] {
      var v, needsKey := u.(data := Strip(u.data).value), s.config.None? || outcome.Accepted?;
      AcceptVideoOnlyCuts(f, s1, v, needsKey);
      CutsKeepFit(f, s1, AcceptVideo(f, s1, v, needsKey));
    }
  }

  lemma AcceptAudioOnlyCuts(f: Foreign, s: State, u: Unit)
    ensures OnlyCuts(s, AcceptAudio(f, s, u))
  {
    var s1 := if AudioCutsBefore(s, u) then Flush(f, s, 0) else s;
    var s2 := BufferAudio(s1, u, f.audioDurationMs(u, s.audioConfig));
    FlushOnlyCuts(f, s, 0);
    FlushOnlyCuts(f, s2, 0);
    OnlyCutsChain(s, s2, Flush(f, s2, 0));
  }

  lemma PushAudioOnlyCuts(f: Foreign, s: State, u: Unit)
    ensures OnlyCuts(s, PushAudio(f, s, u))
  {
    var (s1, u1) := ApplyAacTimeline(f, s, u);
    AcceptAudioOnlyCuts(f, NoteAudioSignature(f, s1, u1), u1);
  }

  lemma FramedObeys(f: Foreign, s: State, v: Unit)
    requires SetsFit(f, s) && v.streamType.H264?
    ensures SetsFit(f, PushFramed(f, s, v)) && FramedOwes(f, s, v, PushFramed(f, s, v))
  {
    var s1 := if Rewinds(s, v) then Reset(FlushCurrent(f, s)) else s;
    if Rewinds(s, v) {
      FlushCurrentOnlyCuts(f, s);
      CutsKeepFit(f, s, FlushCurrent(f, s));
      ClearedFits(f, FlushCurrent(f, s));
    }
    var (s2, u2) := Normalize(s1, v);
    CutsKeepFit(f, s1, s2);
    PushVideoObeys(f, s2, u2);
    ObeysAlike(f, s1, s2, v, u2, PushVideo(f, s2, u2));
  }

  /** Only the sets, the data and the key flag matter. */
  lemma ObeysAlike(f: Foreign, s: State, t: State, v: Unit, w: Unit, s': State)
    requires SameSets(s, t) && v.data == w.data && v.key == w.key
    ensures Obeys(f, s, v, s') <==> Obeys(f, t, w, s')
  {
  }

  /** One push installs exactly what it owes. */
  lemma PushInstalls(f: Foreign, s: State, u: Unit)
    requires SetsFit(f, s)
    ensures SetsFit(f, Push(f, s, u)) && SetsOwed(f, s, u, Push(f, s, u))
  {
    match u.streamType
    case Unsupported =>
    case Audio(_) =>
      var (s1, u1) := Normalize(s, u);
      PushAudioOnlyCuts(f, s1, u1);
      OnlyCutsChain(s, s1, PushAudio(f, s1, u1));
      CutsKeepFit(f, s, PushAudio(f, s1, u1));
    case H264 =>
      VideoPushIs(f, s, u);
      CutsKeepFit(f, s, Seen(s));
      if FramedUnit(f, u).Some? {
        var v := FramedUnit(f, u).value;
        FramedObeys(f, Seen(s), v);
        SeenOwes(f, s, v, PushFramed(f, Seen(s), v));
      }
  }

  lemma SeenOwes(f: Foreign, s: State, v: Unit, s': State)
    ensures FramedOwes(f, Seen(s), v, s') ==> FramedOwes(f, s, v, s')
  {
  }

  /** A configuration that is newly installed starts over: an init is due, and audio waits until a
      keyframe is buffered, which may be this very unit. */
  predicate StartsOver(s: State) {
    s.forceNextInit && s.audioBuf == [] && |s.videoBuf| <= 1 && (s.startedVideo <==> s.videoBuf != [])
  }

  lemma ReplacedStartsOver(f: Foreign, s: State, u: Unit)
    requires ApplyConfig(f, s, u).1.Accepted?
    ensures StartsOver(PushVideo(f, s, u))
  {
  }

  lemma VideoStartsOver(f: Foreign, s: State, u: Unit)
    requires SetsFit(f, s)
    ensures PushVideo(f, s, u).videoSignature != s.videoSignature ==> StartsOver(PushVideo(f, s, u))
  {
    var (s1, outcome) := ApplyConfig(f, s, u);
    if outcome.Accepted? {
      ReplacedStartsOver(f, s, u);
    } else if !outcome.Rejected? && Strip(u.data).Ok? && Strip(u.data).value != [] {
      AcceptVideoOnlyCuts(f, s1, u.(data := Strip(u.data).value), s.config.None? || outcome.Accepted?);
    }
  }

  /** So it is for any push that installs one, with or without a backward jump before. */
  lemma PushStartsOver(f: Foreign, s: State, u: Unit)
    requires SetsFit(f, s)
    ensures var s' := Push(f, s, u);
      s'.videoSignature.Some? && s'.videoSignature != s.videoSignature ==> StartsOver(s')
  {
    PushInstalls(f, s, u);
    if u.streamType.H264? && FramedUnit(f, u).Some? {
      var v, t := FramedUnit(f, u).value, Seen(s);
      VideoPushIs(f, s, u);
      CutsKeepFit(f, s, t);
      FlushCurrentOnlyCuts(f, t);
      CutsKeepFit(f, t, FlushCurrent(f, t));
      ClearedFits(f, FlushCurrent(f, t));
      var t1 := if Rewinds(t, v) then Reset(FlushCurrent(f, t)) else t;
      var (t2, u2) := Normalize(t1, v);
      CutsKeepFit(f, t1, t2);
      VideoStartsOver(f, t2, u2);
    }
  }

  /** Over all runs the installed sets are a sequence set, a picture set and the dimensions decoded
      from the former, and so are those of every part. */
  lemma {:induction false} RunKeepsSets(f: Foreign, input: TimestampInput, minPartMs: u32, ops: seq<Op>)
    ensures SetsFit(f, ApplyAll(f, Fresh(input, minPartMs), ops))
  {
    if ops != [] {
      var s, op := ApplyAll(f, Fresh(input, minPartMs), ops[..|ops| - 1]), ops[|ops| - 1];
      RunKeepsSets(f, input, minPartMs, ops[..|ops| - 1]);
      match op
      case PushUnit(u) => PushInstalls(f, s, u);
      case Finish => FlushCurrentOnlyCuts(f, s); CutsKeepFit(f, s, FlushCurrent(f, s));
      case ResetAll => ClearedFits(f, s);
      case SetAudio(_) => CutsKeepFit(f, s, Apply(f, s, op));
    }
  }
}
