/** Byte-exact packaging of recovered AEP1 groups into opaque parts, one rendition per key. */
module OpaquePackaging {
  import opened Wrappers
  import opened Words
  import Bits

  const OPUS_RENDITION_STREAM_OFFSET: nat := 1_000
  const PCM_RENDITION_STREAM_OFFSET: nat := 2_000

  datatype PayloadKind = Flac | Opus | Pcm

  datatype Group = Group(
    sessionId: u64, groupId: u16, kind: PayloadKind,
    configGeneration: u32, sampleRate: u32, channelCount: u16, sampleFormat: u8,
    ptsSamples: u64, frameCount: u32, discontinuity: bool, erasure: bool, payload: seq<u8>)

  datatype Key = Key(sessionId: u64, groupId: u16, kind: PayloadKind)

  datatype Format = Format(configGeneration: u32, sampleRate: u32, channelCount: u16, kind: PayloadKind, sampleFormat: u8)

  datatype Config = Config(baseStreamId: u64, minPartMs: u32)

  /** `groups` is history: the groups whose payloads the part concatenates. */
  datatype Part = Part(
    streamId: u64, sourceEpoch: u64, sequence: u64, durationMs: u32, audioUnits: nat, bytes: seq<u8>, groups: seq<Group>)

  /** `held` is history: the groups whose payloads are buffered. */
  datatype Segmenter = Segmenter(
    streamId: u64, sourceEpoch: u64, minPartMs: u32,
    bytes: seq<u8>, durationMs: u32, audioUnits: nat, publishedParts: u64, held: seq<Group>)

  datatype Rendition = Rendition(format: Format, expectedPts: Option<u64>, segmenter: Segmenter)

  function KeyOf(g: Group): Key { Key(g.sessionId, g.groupId, g.kind) }

  function FormatOf(g: Group): Format {
    Format(g.configGeneration, g.sampleRate, g.channelCount, g.kind, g.sampleFormat)
  }

  /** `a / b`, counted out, which keeps the arithmetic of all that uses it linear. */
  function Quotient(a: nat, b: nat): nat
    requires b > 0
  {
    if a < b then 0 else 1 + Quotient(a - b, b)
  }

  lemma {:induction false} QuotientIs(a: nat, b: nat)
    requires b > 0
    ensures Quotient(a, b) == a / b
  {
    if a >= b {
      QuotientIs(a - b, b);
      Bits.ModUnique(a, b, (a - b) / b + 1, (a - b) % b);
    } else {
      Bits.ModUnique(a, b, 0, a);
    }
  }

  /** `samples_to_millis` for a positive rate: rounded to the nearest millisecond. */
  function SamplesToMillis(samples: nat, sampleRate: u32): nat
    requires sampleRate > 0
  {
    Quotient(SatAdd(SatMul(samples, 1_000), sampleRate / 2), sampleRate)
  }

  function StreamId(c: Config, groupId: u16, kind: PayloadKind): Option<u64> {
    var offset := match kind case Flac => 0 case Opus => OPUS_RENDITION_STREAM_OFFSET case Pcm => PCM_RENDITION_STREAM_OFFSET;
    var id := c.baseStreamId + offset + groupId;
    if id > U64_MAX then None else Some(id)
  }

  function NewSegmenter(c: Config, streamId: u64, sessionId: u64): Segmenter {
    Segmenter(streamId, Max(sessionId / 1_000, 1), Max(c.minPartMs, 1), [], 0, 0, 0, [])
  }

  // ---------------------------------------------------------------- the byte coalescer

  /** What an operation leaves behind, the parts it handed to the publisher, and whether it succeeded. */
  datatype Emission<S> = Emission(state: S, parts: seq<Part>, ok: bool)

  /** `published(n)` is the publisher's answer to attempt `n`. */
  function Flush(s: Segmenter, published: nat -> bool, n: nat): Emission<Segmenter> {
    if s.bytes == [] then Emission(s, [], true)
    else
      var part := Part(s.streamId, s.sourceEpoch, s.publishedParts, Max(s.durationMs, 1), s.audioUnits, s.bytes, s.held);
      Emission(s.(bytes := [], durationMs := 0, audioUnits := 0,
                  publishedParts := SatAdd(s.publishedParts, 1), held := []),
               [part], published(n))
  }

  function ResetSegmenter(s: Segmenter): Segmenter { s.(bytes := [], durationMs := 0, audioUnits := 0, held := []) }

  function Buffered(s: Segmenter, g: Group, durationMs: u32): Segmenter {
    s.(bytes := s.bytes + g.payload, durationMs := SatAddTo(U32_MAX, s.durationMs, durationMs),
       audioUnits := s.audioUnits + 1, held := s.held + [g])
  }

  function PushPacket(s: Segmenter, g: Group, durationMs: u32, published: nat -> bool, n: nat): Emission<Segmenter> {
    var s' := Buffered(s, g, durationMs);
    if s'.durationMs >= s'.minPartMs then Flush(s', published, n) else Emission(s', [], true)
  }

  // ---------------------------------------------------------------- one group

  predicate WellFormed(g: Group) {
    !g.erasure && g.payload != [] && g.sampleRate != 0 && g.frameCount != 0 && g.channelCount != 0
  }

  predicate PtsFits(g: Group) { g.ptsSamples + g.frameCount <= U64_MAX }

  predicate DurationFits(g: Group)
    requires g.sampleRate > 0
  {
    SamplesToMillis(g.frameCount, g.sampleRate) <= U32_MAX
  }

  function DurationMs(g: Group): u32
    requires g.sampleRate > 0 && DurationFits(g)
  {
    Max(SamplesToMillis(g.frameCount, g.sampleRate), 1)
  }

  /** The group does not continue what the rendition expects. */
  predicate Breaks(r: Rendition, g: Group) {
    || (r.expectedPts.Some? && r.expectedPts.value != g.ptsSamples)
    || r.format != FormatOf(g)
    || g.discontinuity
  }

  /** Close the continuity segment if the group breaks it; `!ok` means the publish failed. */
  function CloseSegment(r: Rendition, g: Group, published: nat -> bool, n: nat): Emission<Rendition> {
    if !Breaks(r, g) then Emission(r, [], true)
    else
      var e := Flush(r.segmenter, published, n);
      if !e.ok then Emission(r.(segmenter := e.state), e.parts, false)
      else Emission(r.(segmenter := ResetSegmenter(e.state), format := FormatOf(g)), e.parts, true)
  }

  /** The rest of `package_group` once the segment question is settled. */
  function Append(r: Rendition, g: Group, published: nat -> bool, n: nat): Emission<Rendition>
    requires g.sampleRate > 0
  {
    if !PtsFits(g) then Emission(r, [], false)
    else
      var r' := r.(expectedPts := Some(g.ptsSamples + g.frameCount));
      if !DurationFits(g) then Emission(r', [], false)
      else
        var e := PushPacket(r.segmenter, g, DurationMs(g), published, n);
        Emission(r'.(segmenter := e.state), e.parts, e.ok)
  }

  function PackageInto(r: Rendition, g: Group, published: nat -> bool, n: nat): Emission<Rendition>
    requires g.sampleRate > 0
  {
    var closed := CloseSegment(r, g, published, n);
    if !closed.ok then closed
    else
      var appended := Append(closed.state, g, published, n + |closed.parts|);
      Emission(appended.state, closed.parts + appended.parts, appended.ok)
  }

  type Renditions = map<Key, Rendition>

  /** `package_group` for the opaque policy. */
  function PackageGroup(c: Config, rs: Renditions, g: Group, published: nat -> bool, n: nat): Emission<Renditions> {
    if !WellFormed(g) then Emission(rs, [], false)
    else
      var streamId := StreamId(c, g.groupId, g.kind);
      if KeyOf(g) !in rs && streamId.None? then Emission(rs, [], false)
      else
        var r := if KeyOf(g) in rs then rs[KeyOf(g)]
                 else Rendition(FormatOf(g), None, NewSegmenter(c, streamId.value, g.sessionId));
        var e := PackageInto(r, g, published, n);
        Emission(rs[KeyOf(g) := e.state], e.parts, e.ok)
  }

  /** What a stopping worker does with the rendition of its key. */
  function FinishKey(rs: Renditions, key: Key, published: nat -> bool, n: nat): Emission<Renditions> {
    if key !in rs then Emission(rs, [], true)
    else
      var e := Flush(rs[key].segmenter, published, n);
      Emission(rs[key := rs[key].(segmenter := e.state)], e.parts, e.ok)
  }

  // ---------------------------------------------------------------- runs over one key

  /** Renditions of one worker and everything its key has handed to the publisher. */
  datatype Packager = Packager(renditions: Renditions, parts: seq<Part>)

  function PackageStep(c: Config, published: nat -> bool, p: Packager, g: Group): Packager {
    var e := PackageGroup(c, p.renditions, g, published, |p.parts|);
    Packager(e.state, p.parts + e.parts)
  }

  function PackageAll(c: Config, published: nat -> bool, groups: seq<Group>): Packager {
    if groups == [] then Packager(map[], [])
    else PackageStep(c, published, PackageAll(c, published, groups[..|groups| - 1]), groups[|groups| - 1])
  }

  function PayloadsOf(groups: seq<Group>): seq<u8> {
    if groups == [] then [] else PayloadsOf(groups[..|groups| - 1]) + groups[|groups| - 1].payload
  }

  /** Milliseconds a group is counted with: at least one. */
  function GroupMs(g: Group): nat {
    if g.sampleRate == 0 then 0 else Max(SamplesToMillis(g.frameCount, g.sampleRate), 1)
  }

  function TotalMs(groups: seq<Group>): nat {
    if groups == [] then 0 else TotalMs(groups[..|groups| - 1]) + GroupMs(groups[|groups| - 1])
  }

  function GroupsOf(parts: seq<Part>): seq<Group> {
    if parts == [] then [] else GroupsOf(parts[..|parts| - 1]) + parts[|parts| - 1].groups
  }

  function BytesOf(parts: seq<Part>): seq<u8> {
    if parts == [] then [] else BytesOf(parts[..|parts| - 1]) + parts[|parts| - 1].bytes
  }

  function UnitsOf(parts: seq<Part>): nat {
    if parts == [] then 0 else UnitsOf(parts[..|parts| - 1]) + parts[|parts| - 1].audioUnits
  }

  /** Groups the packager takes when publishing never fails. */
  predicate Packable(c: Config, g: Group) {
    WellFormed(g) && StreamId(c, g.groupId, g.kind).Some? && PtsFits(g) && DurationFits(g)
  }

  function PackableOf(c: Config, groups: seq<Group>): seq<Group> {
    if groups == [] then []
    else
      var g := groups[|groups| - 1];
      PackableOf(c, groups[..|groups| - 1]) + if Packable(c, g) then [g] else []
  }

  // ---------------------------------------------------------------- invariants

  /** The buffer is the payloads of the held groups; it is empty exactly when nothing is
      counted, and it stays below the part target. */
  predicate SegmenterOk(s: Segmenter) {
    && s.bytes == PayloadsOf(s.held)
    && s.audioUnits == |s.held| && s.durationMs == Min(U32_MAX, TotalMs(s.held))
    && (s.bytes == [] <==> s.held == []) && (s.durationMs == 0 <==> s.held == [])
    && s.durationMs < s.minPartMs
    && (forall g :: g in s.held ==> g.payload != [])
  }

  predicate PartOk(p: Part) {
    && p.groups != [] && p.bytes == PayloadsOf(p.groups) && p.audioUnits == |p.groups|
    && p.durationMs == Max(Min(U32_MAX, TotalMs(p.groups)), 1)
  }

  /** Parts and the segmenter afterwards carry the segmenter's stream and epoch. */
  predicate SameStream(s: Segmenter, s': Segmenter, parts: seq<Part>) {
    && s'.streamId == s.streamId && s'.sourceEpoch == s.sourceEpoch && s'.minPartMs == s.minPartMs
    && forall p :: p in parts ==> p.streamId == s.streamId && p.sourceEpoch == s.sourceEpoch
  }

  /** One continuity segment: one format, PTS without gaps, no discontinuity flag after the first. */
  predicate IsRun(groups: seq<Group>) {
    forall i :: 1 <= i < |groups| ==>
      && FormatOf(groups[i]) == FormatOf(groups[i - 1])
      && groups[i].ptsSamples == groups[i - 1].ptsSamples + groups[i - 1].frameCount
      && !groups[i].discontinuity
  }

  /** The held groups are a run that ends where the rendition expects the next group. */
  predicate RunOk(r: Rendition) {
    && IsRun(r.segmenter.held)
    && (r.segmenter.held != [] ==>
          var last := r.segmenter.held[|r.segmenter.held| - 1];
          r.format == FormatOf(last) && r.expectedPts == Some(last.ptsSamples + last.frameCount))
  }

  lemma {:induction false} PayloadsAppend(groups: seq<Group>, g: Group)
    ensures PayloadsOf(groups + [g]) == PayloadsOf(groups) + g.payload
    ensures TotalMs(groups + [g]) == TotalMs(groups) + GroupMs(g)
  {
    assert (groups + [g])[..|groups|] == groups;
  }

  lemma FlushSound(s: Segmenter, published: nat -> bool, n: nat)
    requires s.bytes == PayloadsOf(s.held) && s.audioUnits == |s.held| && s.minPartMs > 0
    requires s.durationMs == Min(U32_MAX, TotalMs(s.held))
    requires s.bytes == [] ==> s.held == [] && s.durationMs == 0
    ensures var e := Flush(s, published, n);
      && SegmenterOk(e.state) && e.state.held == []
      && (forall p :: p in e.parts ==> PartOk(p))
      && |e.parts| <= 1 && GroupsOf(e.parts) == s.held && SameStream(s, e.state, e.parts)
      && (e.parts != [] ==> e.parts[0].sequence == s.publishedParts)
      && e.state.publishedParts == if e.parts == [] then s.publishedParts else SatAdd(s.publishedParts, 1)
  {
    var e := Flush(s, published, n);
    if e.parts != [] {
      assert e.parts[..0] == [];
      assert GroupsOf(e.parts) == GroupsOf([]) + s.held;
    }
  }

  lemma PushSound(s: Segmenter, g: Group, durationMs: u32, published: nat -> bool, n: nat)
    requires SegmenterOk(s) && g.payload != [] && durationMs == GroupMs(g) > 0
    ensures var e := PushPacket(s, g, durationMs, published, n);
      && SegmenterOk(e.state)
      && (forall p :: p in e.parts ==> PartOk(p))
      && |e.parts| <= 1 && GroupsOf(e.parts) + e.state.held == s.held + [g] && SameStream(s, e.state, e.parts)
      && (e.parts != [] ==> e.parts[0].sequence == s.publishedParts && e.state.held == [])
      && e.state.publishedParts == if e.parts == [] then s.publishedParts else SatAdd(s.publishedParts, 1)
  {
    PayloadsAppend(s.held, g);
    var s' := Buffered(s, g, durationMs);
    assert s'.bytes != [];
    FlushSound(s', published, n);
    assert GroupsOf([]) + s'.held == s'.held;
  }
}
