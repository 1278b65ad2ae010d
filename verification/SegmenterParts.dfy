/** The parts one operation cuts: what is in them, when they end, and which signature and init
    they carry. */
module SegmenterParts {
  import opened Wrappers
  import opened Words
  import opened Segmenter
  import opened SegmenterRuns
  import opened SegmenterTheorems
  import opened SegmenterPushes

  // ---------------------------------------------------------------- cutting

  /** The part holds all that is buffered, ends at `nextDts`, names the audio signature given, and
      carries an init exactly when one is forced or the last one published was for another signature. */
  predicate PartIs(s: State, part: Part, audio: Option<AudioSignature>, forced: bool, nextDts: u64) {
    && part.video == s.videoBuf && part.audio == s.audioBuf && part.nextDts == nextDts
    && part.signature == InitSignature(s.videoSignature, audio)
    && (part.init <==> forced || s.lastInit != Some(part.signature))
  }

  predicate NoCut(s: State, s': State) {
    s.trace <= s'.trace && forall k :: |s.trace| <= k < |s'.trace| ==> s'.trace[k].Dropped?
  }

  /** What is buffered became one part; nothing else was cut, and nothing was discarded. */
  predicate CutsOne(s: State, s': State, audio: Option<AudioSignature>, forced: bool, nextDts: u64) {
    && |s.trace| < |s'.trace| && s.trace <= s'.trace
    && s'.trace[|s.trace|].Cut? && PartIs(s, s'.trace[|s.trace|].part, audio, forced, nextDts)
    && forall k :: |s.trace| < k < |s'.trace| ==> s'.trace[k] == Dropped([], [])
  }

  predicate Holds(s: State) { s.videoBuf != [] || s.audioBuf != [] }

  lemma FlushCutsOne(f: Foreign, s: State, nextDts: u64)
    requires Holds(s) && (s.config.Some? || !s.seenVideo)
    ensures CutsOne(s, Flush(f, s, nextDts), s.audioSignature, s.forceNextInit, nextDts)
    ensures |Flush(f, s, nextDts).trace| == |s.trace| + 1
  {
  }

  /** An init that was published is not sent again unless forced anew; one that was refused is forced. */
  predicate InitNoted(s: State, part: Part, s': State) {
    if part.init && part.boxing.Boxed? then
      s'.forceNextInit == !part.boxing.published
      && s'.lastInit == if part.boxing.published then Some(part.signature) else s.lastInit
    else s'.forceNextInit == s.forceNextInit && s'.lastInit == s.lastInit
  }

  lemma FlushNotesInit(f: Foreign, s: State, nextDts: u64)
    requires Holds(s) && (s.config.Some? || !s.seenVideo)
    ensures Flush(f, s, nextDts).trace[|s.trace|].Cut?
    ensures InitNoted(s, Flush(f, s, nextDts).trace[|s.trace|].part, Flush(f, s, nextDts))
  {
  }

  /** Nothing happened to the buffers but clearings of nothing. */
  predicate Idle(s: State, s': State) {
    s.trace <= s'.trace && forall k :: |s.trace| <= k < |s'.trace| ==> s'.trace[k] == Dropped([], [])
  }

  lemma IdleChain(a: State, b: State, c: State)
    requires Idle(a, b) && Idle(b, c)
    ensures Idle(a, c)
  {
    assert forall k :: 0 <= k < |b.trace| ==> c.trace[k] == b.trace[k];
  }

  lemma NoCutChain(a: State, b: State, c: State)
    requires NoCut(a, b) && Idle(b, c)
    ensures NoCut(a, c)
  {
    assert forall k :: 0 <= k < |b.trace| ==> c.trace[k] == b.trace[k];
  }

  /** What happens later without a cut leaves the account as it is. */
  lemma CutsOneGrows(s: State, s1: State, s2: State, audio: Option<AudioSignature>, forced: bool, nextDts: u64)
    requires CutsOne(s, s1, audio, forced, nextDts) && Idle(s1, s2)
    ensures CutsOne(s, s2, audio, forced, nextDts)
  {
    assert forall k :: 0 <= k < |s1.trace| ==> s2.trace[k] == s1.trace[k];
  }

  // ---------------------------------------------------------------- video

  /** The sample announces a configuration that replaces the installed one. */
  predicate Replaces(f: Foreign, s: State, v: Unit) { Announces(f, s, v.data) && v.key }

  /** The sample brings media under the installed configuration. */
  predicate Continues(f: Foreign, s: State, v: Unit) {
    && HasMedia(v.data)
    && (Announces(f, s, v.data) ==> s.config == Some(ParseConfig(f, s.sps, s.pps, v.data).value.0))
  }

  lemma ReplacingCuts(f: Foreign, s: State, u: Unit)
    requires Inv(s) && s.config.Some? && Holds(s) && Replaces(f, s, u)
    ensures CutsOne(s, ApplyConfig(f, s, u).0, s.audioSignature, s.forceNextInit, ClosingDts(s))
  {
    FlushCurrentFlushes(f, s);
    FlushEmpties(f, s, ClosingDts(s));
    FlushCutsOne(f, s, ClosingDts(s));
    CutsOneGrows(s, FlushCurrent(f, s), ApplyConfig(f, s, u).0, s.audioSignature, s.forceNextInit, ClosingDts(s));
  }

  lemma ApplyConfigCuts(f: Foreign, s: State, u: Unit)
    requires Inv(s)
    ensures var s1 := ApplyConfig(f, s, u).0;
      if s.config.None? || !Holds(s) then NoCut(s, s1)
      else if Replaces(f, s, u) then CutsOne(s, s1, s.audioSignature, s.forceNextInit, ClosingDts(s)) && s1.videoBuf == []
      else s1 == s
  {
    if s.config.Some? && Holds(s) && Replaces(f, s, u) {
      ReplacingCuts(f, s, u);
    } else if s.config.Some? && Replaces(f, s, u) {
      FlushCurrentFlushes(f, s);
    }
  }

  lemma AcceptVideoCuts(f: Foreign, s: State, u: Unit, needsKey: bool)
    requires Shape(s)
    ensures var s' := AcceptVideo(f, s, u, needsKey);
      if s.config.Some? && !(needsKey && !u.key) && s.videoBuf != [] && SatSub(u.dts, s.videoBuf[0].dts) >= PartLimit(s)
      then CutsOne(s, s', s.audioSignature, s.forceNextInit, u.dts)
      else NoCut(s, s') && (s.config.Some? ==> s'.trace == s.trace)
  {
    if s.videoBuf != [] {
      assert s.videoTimestamps[0] == s.videoBuf[0].dts;
      if s.config.Some? { FlushCutsOne(f, s, u.dts); }
    }
  }

  /** With a configuration and something buffered, a configuration that replaces it and a backward
      jump cut at the closing time; a unit at or past the part limit cuts at its own time; nothing
      else cuts. */
  ghost predicate VideoOwes(f: Foreign, s: State, v: Unit, s': State) {
    if s.config.None? || !Holds(s) then NoCut(s, s')
    else if (s.timestampBase.Some? && v.dts < s.timestampBase.value) || Replaces(f, s, v) then
      CutsOne(s, s', s.audioSignature, s.forceNextInit, ClosingDts(s))
    else
      var dts := Normalize(s, v).1.dts;
      if Continues(f, s, v) && s.videoBuf != [] && SatSub(dts, s.videoBuf[0].dts) >= Min(s.minPartTicks, 180_000)
      then CutsOne(s, s', s.audioSignature, s.forceNextInit, dts)
      else s'.trace == s.trace
  }

  /** The same of a unit at its normalized time, with no jump. */
  ghost predicate NormalizedOwes(f: Foreign, s: State, u: Unit, s': State) {
    if s.config.None? || !Holds(s) then NoCut(s, s')
    else if Replaces(f, s, u) then CutsOne(s, s', s.audioSignature, s.forceNextInit, ClosingDts(s))
    else if Continues(f, s, u) && s.videoBuf != [] && SatSub(u.dts, s.videoBuf[0].dts) >= Min(s.minPartTicks, 180_000)
    then CutsOne(s, s', s.audioSignature, s.forceNextInit, u.dts)
    else s'.trace == s.trace
  }

  lemma PushVideoIs(f: Foreign, s: State, u: Unit)
    ensures var (s1, outcome) := ApplyConfig(f, s, u);
      PushVideo(f, s, u) == if outcome.Rejected? || !HasMedia(u.data) then s1
                            else AcceptVideo(f, s1, Stripped(u), s.config.None? || outcome.Accepted?)
  {
  }

  /** What follows the configuration question, by the state it left. */
  ghost predicate SettledOwes(s1: State, taken: bool, dts: u64, s': State) {
    if s1.videoBuf == [] || s1.config.None? then NoCut(s1, s') && (s1.config.Some? ==> s'.trace == s1.trace)
    else if taken && SatSub(dts, s1.videoBuf[0].dts) >= Min(s1.minPartTicks, 180_000)
    then CutsOne(s1, s', s1.audioSignature, s1.forceNextInit, dts)
    else s'.trace == s1.trace
  }

  lemma SettledCuts(f: Foreign, s1: State, u: Unit, needsKey: bool)
    requires Shape(s1)
    ensures SettledOwes(s1, !(needsKey && !u.key), u.dts, AcceptVideo(f, s1, u, needsKey))
  {
    AcceptVideoCuts(f, s1, u, needsKey);
  }

  lemma AfterConfigCuts(f: Foreign, s: State, u: Unit)
    requires Inv(s)
    ensures var (s1, outcome) := ApplyConfig(f, s, u);
      var taken := HasMedia(u.data) && !outcome.Rejected? && !((s.config.None? || outcome.Accepted?) && !u.key);
      SettledOwes(s1, taken, u.dts, PushVideo(f, s, u))
  {
    ApplyConfigKeepsInv(f, s, u);
    PushVideoIs(f, s, u);
    var (s1, outcome) := ApplyConfig(f, s, u);
    if !outcome.Rejected? && HasMedia(u.data) {
      SettledCuts(f, s1, Stripped(u), s.config.None? || outcome.Accepted?);
    }
  }

  lemma NoCutTwice(a: State, b: State, c: State)
    requires NoCut(a, b) && NoCut(b, c)
    ensures NoCut(a, c)
  {
    assert forall k :: 0 <= k < |b.trace| ==> c.trace[k] == b.trace[k];
  }

  lemma ConfigLeaves(f: Foreign, s: State, u: Unit)
    requires Inv(s)
    ensures var (s1, outcome) := ApplyConfig(f, s, u);
      && (s1 == s || (s1.videoBuf == [] && s1.config.Some?))
      && (outcome.Rejected? ==> s1 == s && !Continues(f, s, u) && s.config.Some?)
      && (outcome.Unchanged? ==>
            s1 == s && (HasMedia(u.data) && s.config.Some? && !Replaces(f, s, u) ==> Continues(f, s, u)))
      && (outcome.Accepted? ==> s.config.None? || Replaces(f, s, u))
      && (Replaces(f, s, u) ==> outcome.Accepted?)
  {
  }

  lemma PushVideoCuts(f: Foreign, s: State, u: Unit)
    requires Inv(s)
    ensures NormalizedOwes(f, s, u, PushVideo(f, s, u))
  {
    ApplyConfigCuts(f, s, u);
    AfterConfigCuts(f, s, u);
    ConfigLeaves(f, s, u);
    var s1, s' := ApplyConfig(f, s, u).0, PushVideo(f, s, u);
    if s.config.None? || !Holds(s) {
      NoCutTwice(s, s1, s');
    } else if Replaces(f, s, u) {
      CutsOneGrows(s, s1, s', s.audioSignature, s.forceNextInit, ClosingDts(s));
    }
  }

  /** Video that meets empty buffers discards nothing. */
  lemma EmptyVideoIsIdle(f: Foreign, s: State, u: Unit)
    requires Inv(s) && !Holds(s) && s.config.None?
    ensures Idle(s, PushVideo(f, s, u))
  {
    PushVideoCuts(f, s, u);
    PushVideoIsLossless(f, s, u);
  }

  /** A jump flushes, forgets and starts over. */
  lemma AfterJumpIsIdle(f: Foreign, s: State, v: Unit)
    requires Inv(s) && Rewinds(s, v)
    ensures Idle(FlushCurrent(f, s), PushFramed(f, s, v))
  {
    var flushed := FlushCurrent(f, s);
    FlushCurrentKeepsInv(f, s);
    ResetKeepsInv(flushed);
    NormalizeKeeps(Reset(flushed), v);
    var (s2, u2) := Normalize(Reset(flushed), v);
    EmptyVideoIsIdle(f, s2, u2);
    assert Idle(flushed, s2);
    IdleChain(flushed, s2, PushVideo(f, s2, u2));
  }

  lemma FlushCurrentCuts(f: Foreign, s: State)
    requires Shape(s)
    ensures var s' := FlushCurrent(f, s);
      if !Holds(s) then s' == s
      else if s.config.None? && s.seenVideo then NoCut(s, s')
      else CutsOne(s, s', s.audioSignature, s.forceNextInit, ClosingDts(s)) && |s'.trace| == |s.trace| + 1
           && InitNoted(s, s'.trace[|s.trace|].part, s')
  {
    FlushCurrentFlushes(f, s);
    if Holds(s) && (s.config.Some? || !s.seenVideo) {
      FlushCutsOne(f, s, ClosingDts(s));
      FlushNotesInit(f, s, ClosingDts(s));
    }
  }

  lemma JumpCuts(f: Foreign, s: State, v: Unit)
    requires Inv(s) && s.seenVideo && Rewinds(s, v)
    ensures VideoOwes(f, s, v, PushFramed(f, s, v))
  {
    var flushed, s' := FlushCurrent(f, s), PushFramed(f, s, v);
    FlushCurrentCuts(f, s);
    AfterJumpIsIdle(f, s, v);
    if s.config.Some? && Holds(s) {
      CutsOneGrows(s, flushed, s', s.audioSignature, s.forceNextInit, ClosingDts(s));
    } else {
      NoCutChain(s, flushed, s');
    }
  }

  lemma OwesAlike(f: Foreign, s: State, t: State, v: Unit, u: Unit, s': State)
    requires t == s.(timestampBase := t.timestampBase) && u == Normalize(s, v).1 && !Rewinds(s, v)
    requires NormalizedOwes(f, t, u, s') && v.streamType.H264?
    ensures VideoOwes(f, s, v, s')
  {
  }

  lemma FramedCuts(f: Foreign, s: State, v: Unit)
    requires Inv(s) && s.seenVideo && v.streamType.H264?
    ensures VideoOwes(f, s, v, PushFramed(f, s, v))
  {
    if Rewinds(s, v) {
      JumpCuts(f, s, v);
    } else {
      NormalizeKeeps(s, v);
      var (s2, u2) := Normalize(s, v);
      PushVideoCuts(f, s2, u2);
      OwesAlike(f, s, s2, v, u2, PushVideo(f, s2, u2));
    }
  }

  // ---------------------------------------------------------------- audio

  /** The audio signature after an audio unit: the configured one, else the one read, else the old. */
  function SignatureAfter(f: Foreign, s: State, v: Unit): Option<AudioSignature> {
    if s.audioConfig.Some? then Some(Explicit(s.audioConfig.value))
    else if f.audioSignature(v).Some? then f.audioSignature(v)
    else s.audioSignature
  }

  /** Audio held alone whose duration is not known is cut before a unit that lies at or past the
      target in milliseconds. */
  predicate CutBefore(s: State, v: Unit) {
    s.videoBuf == [] && s.audioBuf != [] && s.audioBufferedMs.None? && SatSub(v.pts, s.audioBuf[0].pts) >= TargetMs(s)
  }

  /** Without video, a known total that reaches the target is cut after the unit. */
  predicate CutAfter(f: Foreign, s: State, v: Unit) {
    var before := if CutBefore(s, v) then Some(0) else s.audioBufferedMs;
    var d := f.audioDurationMs(v, s.audioConfig);
    !s.seenVideo && before.Some? && d.Some? && Min(U64_MAX, before.value + d.value) >= TargetMs(s)
  }

  /** While video is expected audio only waits. Otherwise parts are cut before and after the unit as
      stated, under the unit's signature; a new signature forces an init. */
  ghost predicate AudioOwes(f: Foreign, s: State, v: Unit, s': State) {
    var signature := SignatureAfter(f, s, v);
    var forced := s.forceNextInit || signature != s.audioSignature;
    var held := if CutBefore(s, v) then [] else s.audioBuf;
    s'.audioSignature == signature && s.trace <= s'.trace &&
    if Waiting(s) then NoCut(s, s')
    else
      && |s'.trace| == |s.trace| + (if CutBefore(s, v) then 1 else 0) + (if CutAfter(f, s, v) then 1 else 0)
      && s'.audioBuf == (if CutAfter(f, s, v) then [] else held + [v])
      && (CutBefore(s, v) ==> s'.trace[|s.trace|].Cut? && PartIs(s, s'.trace[|s.trace|].part, signature, forced, 0))
      && (CutAfter(f, s, v) ==>
            && var b := s'.trace[|s'.trace| - 1];
            && b.Cut? && b.part.audio == held + [v] && b.part.video == s.videoBuf && b.part.nextDts == 0
            && b.part.signature == InitSignature(s.videoSignature, signature)
            && (!CutBefore(s, v) ==> (b.part.init <==> forced || s.lastInit != Some(b.part.signature))))
  }

  /** Buffering `v` and cutting after it if that is due. */
  lemma BufferedAudioCuts(f: Foreign, s: State, v: Unit)
    requires Shape(s) && !Waiting(s)
    ensures var d := f.audioDurationMs(v, s.audioConfig);
      var s1 := BufferAudio(s, v, d);
      var s' := if AudioReachedTarget(s1) then Flush(f, s1, 0) else s1;
      && (AudioReachedTarget(s1) <==> !s.seenVideo && s.audioBufferedMs.Some? && d.Some?
                                      && Min(U64_MAX, s.audioBufferedMs.value + d.value) >= TargetMs(s))
      && s'.audioSignature == s.audioSignature
      && (if AudioReachedTarget(s1)
          then CutsOne(s1, s', s.audioSignature, s.forceNextInit, 0) && |s'.trace| == |s.trace| + 1 && s'.audioBuf == []
          else s'.trace == s.trace && s'.audioBuf == s.audioBuf + [v])
  {
    var s1 := BufferAudio(s, v, f.audioDurationMs(v, s.audioConfig));
    if AudioReachedTarget(s1) { FlushCutsOne(f, s1, 0); }
  }

  /** What an audio unit owes once its signature is noted. */
  ghost predicate NotedOwes(f: Foreign, s: State, v: Unit, s': State) {
    var held := if CutBefore(s, v) then [] else s.audioBuf;
    s'.audioSignature == s.audioSignature && s.trace <= s'.trace &&
    if Waiting(s) then NoCut(s, s')
    else
      && |s'.trace| == |s.trace| + (if CutBefore(s, v) then 1 else 0) + (if CutAfter(f, s, v) then 1 else 0)
      && s'.audioBuf == (if CutAfter(f, s, v) then [] else held + [v])
      && (CutBefore(s, v) ==>
            s'.trace[|s.trace|].Cut? && PartIs(s, s'.trace[|s.trace|].part, s.audioSignature, s.forceNextInit, 0))
      && (CutAfter(f, s, v) ==>
            && var b := s'.trace[|s'.trace| - 1];
            && b.Cut? && b.part.audio == held + [v] && b.part.video == s.videoBuf && b.part.nextDts == 0
            && b.part.signature == CurrentSignature(s)
            && (!CutBefore(s, v) ==> (b.part.init <==> s.forceNextInit || s.lastInit != Some(b.part.signature))))
  }

  lemma WaitingAudioCuts(f: Foreign, s: State, v: Unit)
    requires Waiting(s)
    ensures NotedOwes(f, s, v, AcceptAudio(f, s, v))
  {
  }

  lemma CutBeforeIs(s: State, v: Unit)
    requires Shape(s)
    ensures AudioCutsBefore(s, v) <==> CutBefore(s, v)
  {
    if s.audioBuf != [] { assert s.audioTimestamps[0] == s.audioBuf[0].pts; }
  }

  lemma LateAudioCuts(f: Foreign, s: State, v: Unit)
    requires Shape(s) && !Waiting(s) && CutBefore(s, v)
    ensures NotedOwes(f, s, v, AcceptAudio(f, s, v))
  {
    CutBeforeIs(s, v);
    FlushCutsOne(f, s, 0);
    FlushEmpties(f, s, 0);
    BufferedAudioCuts(f, Flush(f, s, 0), v);
  }

  lemma AcceptAudioCuts(f: Foreign, s: State, v: Unit)
    requires Shape(s)
    ensures NotedOwes(f, s, v, AcceptAudio(f, s, v))
  {
    CutBeforeIs(s, v);
    if Waiting(s) {
      WaitingAudioCuts(f, s, v);
    } else if CutBefore(s, v) {
      LateAudioCuts(f, s, v);
    } else {
      BufferedAudioCuts(f, s, v);
    }
  }

  lemma NoteSigns(f: Foreign, s: State, v: Unit)
    ensures var s1 := NoteAudioSignature(f, s, v);
      && s1.audioSignature == SignatureAfter(f, s, v)
      && s1.forceNextInit == (s.forceNextInit || s1.audioSignature != s.audioSignature)
      && s1 == s.(audioSignature := s1.audioSignature, forceNextInit := s1.forceNextInit)
  {
  }

  lemma PreparedSigns(f: Foreign, s: State, u: Unit)
    ensures var t := Prepared(f, s, u);
      && SameButClocks(s, t) && t.audioSignature == SignatureAfter(f, s, TrackedUnit(f, s, u))
      && t.forceNextInit == (s.forceNextInit || t.audioSignature != s.audioSignature)
  {
    var (s1, u1) := Normalize(s, u);
    NoteSigns(f, ApplyAacTimeline(f, s1, u1).0, TrackedUnit(f, s, u));
  }

  lemma NotedIsOwed(f: Foreign, s: State, t: State, v: Unit, s': State)
    requires SameButClocks(s, t) && t.audioSignature == SignatureAfter(f, s, v)
    requires t.forceNextInit == (s.forceNextInit || t.audioSignature != s.audioSignature)
    requires NotedOwes(f, t, v, s')
    ensures AudioOwes(f, s, v, s')
  {
  }

  lemma AudioCuts(f: Foreign, s: State, u: Unit)
    requires Inv(s) && u.streamType.Audio?
    ensures AudioOwes(f, s, TrackedUnit(f, s, u), Push(f, s, u))
  {
    var t, v := Prepared(f, s, u), TrackedUnit(f, s, u);
    AudioPushIs(f, s, u);
    PreparedSigns(f, s, u);
    ClocksKeepInv(s, t);
    AcceptAudioCuts(f, t, v);
    NotedIsOwed(f, s, t, v, AcceptAudio(f, t, v));
  }

  // ---------------------------------------------------------------- whole operations

  /** The parts one push owes. */
  ghost predicate PartsOwed(f: Foreign, s: State, u: Unit, s': State) {
    match u.streamType
    case Unsupported => s' == s
    case Audio(_) => AudioOwes(f, s, TrackedUnit(f, s, u), s')
    case H264 =>
      if FramedUnit(f, u).None? then s'.trace == s.trace
      else VideoOwes(f, Seen(s), FramedUnit(f, u).value, s')
  }

  /** One push cuts exactly the parts it owes. */
  lemma PushCuts(f: Foreign, s: State, u: Unit)
    requires Inv(s)
    ensures PartsOwed(f, s, u, Push(f, s, u))
  {
    match u.streamType
    case Unsupported =>
    case Audio(_) => AudioCuts(f, s, u);
    case H264 =>
      VideoPushIs(f, s, u);
      SeenKeepsInv(s);
      if FramedUnit(f, u).Some? { FramedCuts(f, Seen(s), FramedUnit(f, u).value); }
  }
}
