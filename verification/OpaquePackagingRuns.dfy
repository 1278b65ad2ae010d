/** What packaging promises over every sequence of groups of one key. */
module OpaquePackagingRuns {
  import opened Wrappers
  import opened Words
  import Bits
  import opened OpaquePackaging

  // ---------------------------------------------------------------- sound emissions

  /** Parts carry the sequence numbers `from`, `from + 1`, ... and `to` comes next. */
  predicate Numbered(parts: seq<Part>, from: nat, to: nat) {
    && to == Min(U64_MAX, from + |parts|)
    && (forall i :: 0 <= i < |parts| ==> parts[i].sequence == Min(U64_MAX, from + i))
  }

  /** `before` with `taken` added became `parts` and `after`, byte for byte and group by group. */
  predicate Sound(before: Segmenter, taken: seq<Group>, after: Segmenter, parts: seq<Part>) {
    && SegmenterOk(after)
    && (forall p :: p in parts ==> PartOk(p))
    && SameStream(before, after, parts)
    && GroupsOf(parts) + after.held == before.held + taken
    && Numbered(parts, before.publishedParts, after.publishedParts)
  }

  lemma {:induction false} GroupsOfConcat(a: seq<Part>, b: seq<Part>)
    ensures GroupsOf(a + b) == GroupsOf(a) + GroupsOf(b)
  {
    if b == [] {
      assert a + b == a;
    } else {
      assert (a + b)[..|a + b| - 1] == a + b[..|b| - 1];
      GroupsOfConcat(a, b[..|b| - 1]);
    }
  }

  lemma SoundChain(a: Segmenter, g1: seq<Group>, b: Segmenter, p1: seq<Part>, g2: seq<Group>, c: Segmenter, p2: seq<Part>)
    requires Sound(a, g1, b, p1) && Sound(b, g2, c, p2)
    ensures Sound(a, g1 + g2, c, p1 + p2)
  {
    GroupsOfConcat(p1, p2);
    assert GroupsOf(p1 + p2) + c.held == GroupsOf(p1) + (GroupsOf(p2) + c.held);
    assert GroupsOf(p1) + (b.held + g2) == (GroupsOf(p1) + b.held) + g2;
    assert (a.held + g1) + g2 == a.held + (g1 + g2);
  }

  lemma FlushIsSound(s: Segmenter, published: nat -> bool, n: nat)
    requires SegmenterOk(s)
    ensures Sound(s, [], Flush(s, published, n).state, Flush(s, published, n).parts)
  {
    FlushSound(s, published, n);
    assert s.held + [] == s.held;
  }

  /** The group reaches the buffer: no publish failed before it and its dimensions fit. */
  predicate Takes(r: Rendition, g: Group, published: nat -> bool, n: nat)
    requires g.sampleRate > 0
  {
    CloseSegment(r, g, published, n).ok && PtsFits(g) && DurationFits(g)
  }

  lemma CloseIsSound(r: Rendition, g: Group, published: nat -> bool, n: nat)
    requires SegmenterOk(r.segmenter)
    ensures var e := CloseSegment(r, g, published, n);
      && Sound(r.segmenter, [], e.state.segmenter, e.parts)
      && (Breaks(r, g) ==> e.state.segmenter.held == [])
      && (!Breaks(r, g) ==> e.state == r && e.parts == [])
  {
    FlushIsSound(r.segmenter, published, n);
    FlushSound(r.segmenter, published, n);
    assert r.segmenter.held + [] == r.segmenter.held;
  }

  lemma PushIsSound(s: Segmenter, g: Group, published: nat -> bool, n: nat)
    requires SegmenterOk(s) && WellFormed(g) && DurationFits(g)
    ensures var e := PushPacket(s, g, DurationMs(g), published, n); Sound(s, [g], e.state, e.parts)
  {
    PushSound(s, g, DurationMs(g), published, n);
  }

  lemma AppendIsSound(r: Rendition, g: Group, published: nat -> bool, n: nat)
    requires SegmenterOk(r.segmenter) && WellFormed(g)
    ensures var e := Append(r, g, published, n);
      Sound(r.segmenter, if PtsFits(g) && DurationFits(g) then [g] else [], e.state.segmenter, e.parts)
  {
    if PtsFits(g) && DurationFits(g) {
      PushIsSound(r.segmenter, g, published, n);
    } else {
      assert r.segmenter.held + [] == r.segmenter.held;
    }
  }

  /** One group: the rendition's buffer and parts account for it exactly when it was taken. */
  lemma PackageIsSound(r: Rendition, g: Group, published: nat -> bool, n: nat)
    requires SegmenterOk(r.segmenter) && WellFormed(g)
    ensures var e := PackageInto(r, g, published, n);
      Sound(r.segmenter, if Takes(r, g, published, n) then [g] else [], e.state.segmenter, e.parts)
  {
    var closed := CloseSegment(r, g, published, n);
    CloseIsSound(r, g, published, n);
    if closed.ok {
      var taken := if PtsFits(g) && DurationFits(g) then [g] else [];
      AppendIsSound(closed.state, g, published, n + |closed.parts|);
      var appended := Append(closed.state, g, published, n + |closed.parts|);
      SoundChain(r.segmenter, [], closed.state.segmenter, closed.parts, taken, appended.state.segmenter, appended.parts);
      assert [] + taken == taken;
    }
  }

  // ---------------------------------------------------------------- one key, all groups

  predicate OfKey(groups: seq<Group>, key: Key) { forall g :: g in groups ==> KeyOf(g) == key }

  predicate TakenBy(c: Config, published: nat -> bool, p: Packager, g: Group) {
    && WellFormed(g)
    && (KeyOf(g) in p.renditions ==> Takes(p.renditions[KeyOf(g)], g, published, |p.parts|))
    && (KeyOf(g) !in p.renditions ==> Packable(c, g))
  }

  /** The groups that reached the buffer, in order. */
  function Taken(c: Config, published: nat -> bool, groups: seq<Group>): seq<Group> {
    if groups == [] then []
    else
      var before, g := groups[..|groups| - 1], groups[|groups| - 1];
      Taken(c, published, before) + if TakenBy(c, published, PackageAll(c, published, before), g) then [g] else []
  }

  /** A new segmenter for `key`. */
  function NewFor(c: Config, key: Key): Segmenter
    requires StreamId(c, key.groupId, key.kind).Some?
  {
    NewSegmenter(c, StreamId(c, key.groupId, key.kind).value, key.sessionId)
  }

  predicate PackagerOk(c: Config, p: Packager, key: Key, taken: seq<Group>) {
    && p.renditions.Keys <= {key}
    && (key !in p.renditions ==> p.parts == [] && taken == [])
    && (key in p.renditions ==>
          && StreamId(c, key.groupId, key.kind).Some?
          && Sound(NewFor(c, key), taken, p.renditions[key].segmenter, p.parts))
  }

  /** What a packager becomes when its key's rendition packages a group. */
  lemma KnownKeepsPackager(c: Config, published: nat -> bool, p: Packager, key: Key, taken: seq<Group>, g: Group)
    requires PackagerOk(c, p, key, taken) && key in p.renditions && WellFormed(g)
    ensures var r, n := p.renditions[key], |p.parts|;
      var e := PackageInto(r, g, published, n);
      PackagerOk(c, Packager(p.renditions[key := e.state], p.parts + e.parts), key,
                 taken + if Takes(r, g, published, n) then [g] else [])
  {
    var r, n := p.renditions[key], |p.parts|;
    var e := PackageInto(r, g, published, n);
    PackageIsSound(r, g, published, n);
    SoundChain(NewFor(c, key), taken, r.segmenter, p.parts, if Takes(r, g, published, n) then [g] else [],
               e.state.segmenter, e.parts);
  }

  lemma NewKeepsPackager(c: Config, published: nat -> bool, key: Key, g: Group)
    requires WellFormed(g) && StreamId(c, key.groupId, key.kind).Some?
    ensures var r := Rendition(FormatOf(g), None, NewFor(c, key));
      var e := PackageInto(r, g, published, 0);
      PackagerOk(c, Packager(map[key := e.state], e.parts), key, if Takes(r, g, published, 0) then [g] else [])
  {
    PackageIsSound(Rendition(FormatOf(g), None, NewFor(c, key)), g, published, 0);
  }

  /** A group that is refused outright. */
  predicate Refused(c: Config, p: Packager, g: Group) {
    !WellFormed(g) || (KeyOf(g) !in p.renditions && StreamId(c, g.groupId, g.kind).None?)
  }

  /** The rendition a group meets: its key's, or a new one. */
  function RenditionFor(c: Config, p: Packager, g: Group): Rendition
    requires !Refused(c, p, g)
  {
    if KeyOf(g) in p.renditions then p.renditions[KeyOf(g)]
    else Rendition(FormatOf(g), None, NewFor(c, KeyOf(g)))
  }

  lemma PackageStepIs(c: Config, published: nat -> bool, p: Packager, g: Group)
    ensures Refused(c, p, g) ==> PackageStep(c, published, p, g) == p
    ensures !Refused(c, p, g) ==>
      var e := PackageInto(RenditionFor(c, p, g), g, published, |p.parts|);
      PackageStep(c, published, p, g) == Packager(p.renditions[KeyOf(g) := e.state], p.parts + e.parts)
  {
    if Refused(c, p, g) { assert p.parts + [] == p.parts; }
  }

  lemma TakenByIs(c: Config, published: nat -> bool, p: Packager, g: Group)
    ensures TakenBy(c, published, p, g) <==>
      !Refused(c, p, g) && Takes(RenditionFor(c, p, g), g, published, |p.parts|)
  {
    if !Refused(c, p, g) && KeyOf(g) !in p.renditions {
      assert CloseSegment(RenditionFor(c, p, g), g, published, |p.parts|).ok;
    }
  }

  lemma StepKeepsPackager(c: Config, published: nat -> bool, p: Packager, key: Key, taken: seq<Group>, g: Group)
    requires PackagerOk(c, p, key, taken) && KeyOf(g) == key
    ensures PackagerOk(c, PackageStep(c, published, p, g), key,
                       taken + if TakenBy(c, published, p, g) then [g] else [])
  {
    PackageStepIs(c, published, p, g);
    TakenByIs(c, published, p, g);
    if Refused(c, p, g) {
      assert taken + [] == taken;
    } else if key in p.renditions {
      KnownKeepsPackager(c, published, p, key, taken, g);
    } else {
      StepOfNew(c, published, p, key, taken, g);
    }
  }

  lemma StepOfNew(c: Config, published: nat -> bool, p: Packager, key: Key, taken: seq<Group>, g: Group)
    requires PackagerOk(c, p, key, taken) && KeyOf(g) == key && key !in p.renditions && !Refused(c, p, g)
    ensures var r := RenditionFor(c, p, g);
      var e := PackageInto(r, g, published, |p.parts|);
      PackagerOk(c, Packager(p.renditions[key := e.state], p.parts + e.parts), key,
                 taken + if Takes(r, g, published, |p.parts|) then [g] else [])
  {
    NewKeepsPackager(c, published, key, g);
    var e := PackageInto(RenditionFor(c, p, g), g, published, 0);
    assert p.renditions == map[] && p.renditions[key := e.state] == map[key := e.state];
    assert p.parts + e.parts == e.parts && forall more: seq<Group> :: taken + more == more;
  }

  lemma {:induction false} RunKeepsPackager(c: Config, published: nat -> bool, key: Key, groups: seq<Group>)
    requires OfKey(groups, key)
    ensures PackagerOk(c, PackageAll(c, published, groups), key, Taken(c, published, groups))
  {
    if groups != [] {
      var before, g := groups[..|groups| - 1], groups[|groups| - 1];
      assert g in groups && forall x :: x in before ==> x in groups;
      RunKeepsPackager(c, published, key, before);
      StepKeepsPackager(c, published, PackageAll(c, published, before), key, Taken(c, published, before), g);
    }
  }

  lemma {:induction false} PayloadsConcat(a: seq<Group>, b: seq<Group>)
    ensures PayloadsOf(a + b) == PayloadsOf(a) + PayloadsOf(b)
  {
    if b == [] {
      assert a + b == a;
    } else {
      assert (a + b)[..|a + b| - 1] == a + b[..|b| - 1];
      PayloadsConcat(a, b[..|b| - 1]);
    }
  }

  lemma {:induction false} PartsCarryGroups(parts: seq<Part>)
    requires forall p :: p in parts ==> PartOk(p)
    ensures BytesOf(parts) == PayloadsOf(GroupsOf(parts)) && UnitsOf(parts) == |GroupsOf(parts)|
  {
    if parts != [] {
      var before, p := parts[..|parts| - 1], parts[|parts| - 1];
      assert p in parts && forall x :: x in before ==> x in parts;
      PartsCarryGroups(before);
      PayloadsConcat(GroupsOf(before), p.groups);
    }
  }

  /** The bytes still buffered for a key. */
  function BufferOf(p: Packager, key: Key): seq<u8> {
    if key in p.renditions then p.renditions[key].segmenter.bytes else []
  }

  function BufferedUnits(p: Packager, key: Key): nat {
    if key in p.renditions then p.renditions[key].segmenter.audioUnits else 0
  }

  /** Bytes and units handed over, then those buffered, are those of the groups taken. */
  ghost predicate Conserved(p: Packager, key: Key, taken: seq<Group>) {
    && BytesOf(p.parts) + BufferOf(p, key) == PayloadsOf(taken)
    && UnitsOf(p.parts) + BufferedUnits(p, key) == |taken|
  }

  lemma PackagerConserves(c: Config, p: Packager, key: Key, taken: seq<Group>)
    requires PackagerOk(c, p, key, taken)
    ensures Conserved(p, key, taken)
  {
    if key in p.renditions {
      PartsCarryGroups(p.parts);
      PayloadsConcat(GroupsOf(p.parts), p.renditions[key].segmenter.held);
      assert NewFor(c, key).held + taken == taken;
    }
  }

  /** Whatever the publisher answers: the bytes handed over, then the buffer, are exactly the
      payloads of the groups taken, and units add up. */
  lemma PackagingIsByteExact(c: Config, published: nat -> bool, key: Key, groups: seq<Group>)
    requires OfKey(groups, key)
    ensures Conserved(PackageAll(c, published, groups), key, Taken(c, published, groups))
  {
    RunKeepsPackager(c, published, key, groups);
    PackagerConserves(c, PackageAll(c, published, groups), key, Taken(c, published, groups));
  }

  function FinishPackager(published: nat -> bool, p: Packager, key: Key): Packager {
    var e := FinishKey(p.renditions, key, published, |p.parts|);
    Packager(e.state, p.parts + e.parts)
  }

  lemma FinishIsSound(c: Config, published: nat -> bool, p: Packager, key: Key, taken: seq<Group>)
    requires PackagerOk(c, p, key, taken)
    ensures PackagerOk(c, FinishPackager(published, p, key), key, taken)
    ensures var p' := FinishPackager(published, p, key); BufferOf(p', key) == [] && BufferedUnits(p', key) == 0
  {
    if key in p.renditions {
      var s := p.renditions[key].segmenter;
      var e := Flush(s, published, |p.parts|);
      FlushIsSound(s, published, |p.parts|);
      SoundChain(NewFor(c, key), taken, s, p.parts, [], e.state, e.parts);
      assert taken + [] == taken;
    } else {
      assert p.parts + [] == p.parts;
    }
  }

  /** Finishing hands over what is buffered and changes nothing that was taken. */
  lemma FinishKeepsPackager(c: Config, published: nat -> bool, p: Packager, key: Key, taken: seq<Group>)
    requires PackagerOk(c, p, key, taken)
    ensures var p' := FinishPackager(published, p, key);
      PackagerOk(c, p', key, taken) && BytesOf(p'.parts) == PayloadsOf(taken) && UnitsOf(p'.parts) == |taken|
  {
    var p' := FinishPackager(published, p, key);
    FinishIsSound(c, published, p, key, taken);
    PackagerConserves(c, p', key, taken);
    assert BytesOf(p'.parts) + [] == BytesOf(p'.parts);
  }

  /** Finishing reports success exactly when every part it hands over is accepted. */
  lemma FinishOkIff(published: nat -> bool, p: Packager, key: Key)
    ensures FinishKey(p.renditions, key, published, |p.parts|).ok
      <==> forall i :: |p.parts| <= i < |FinishPackager(published, p, key).parts| ==> published(i)
  {
  }

  /** Sequences count 0, 1, 2, ..., and each part has its key's stream and epoch, the payloads
      and number of its groups, and lasts as long as they do. */
  lemma PartsAreLabelled(c: Config, published: nat -> bool, key: Key, groups: seq<Group>, i: nat)
    requires OfKey(groups, key) && i < |PackageAll(c, published, groups).parts|
    ensures var part := PackageAll(c, published, groups).parts[i];
      && part.sequence == Min(U64_MAX, i)
      && part.streamId == c.baseStreamId + key.groupId + (match key.kind case Flac => 0 case Opus => 1_000 case Pcm => 2_000)
      && part.sourceEpoch == Max(key.sessionId / 1_000, 1)
      && part.bytes == PayloadsOf(part.groups) && part.audioUnits == |part.groups| > 0
      && part.durationMs == Max(Min(U32_MAX, TotalMs(part.groups)), 1)
  {
    RunKeepsPackager(c, published, key, groups);
    var p := PackageAll(c, published, groups);
    assert p.parts[i] in p.parts;
  }

  /** When every publish succeeds, the groups taken are exactly the packable ones. */
  lemma {:induction false} AllPackableTaken(c: Config, published: nat -> bool, key: Key, groups: seq<Group>)
    requires OfKey(groups, key) && forall n :: published(n)
    ensures Taken(c, published, groups) == PackableOf(c, groups)
  {
    if groups != [] {
      var before, g := groups[..|groups| - 1], groups[|groups| - 1];
      assert g in groups && forall x :: x in before ==> x in groups;
      AllPackableTaken(c, published, key, before);
      RunKeepsPackager(c, published, key, before);
    }
  }

  lemma RoundedQuotient(a: nat, b: nat, bound: nat)
    requires b > 0 && a <= bound * b + b / 2
    ensures a / b <= bound
  {
    if a / b > bound { Bits.MulGap(bound, a / b, b); }
  }

  lemma MulMonotone(a: nat, b: nat, m: nat)
    requires a <= b
    ensures m * a <= m * b
  {
    if a < b { Bits.MulGap(a, b, m); }
  }

  /** At 1000 Hz and above every group duration fits. */
  lemma AudioRatesFit(g: Group)
    requires g.sampleRate >= 1_000
    ensures DurationFits(g)
  {
    MulMonotone(1_000, g.sampleRate, g.frameCount);
    RoundedQuotient(SatAdd(SatMul(g.frameCount, 1_000), g.sampleRate / 2), g.sampleRate, g.frameCount);
    QuotientIs(SatAdd(SatMul(g.frameCount, 1_000), g.sampleRate / 2), g.sampleRate);
  }

  // ---------------------------------------------------------------- continuity

  predicate PartsAreRuns(parts: seq<Part>) { forall p :: p in parts ==> IsRun(p.groups) }

  function EndOf(g: Group): nat { g.ptsSamples + g.frameCount }

  predicate HeldFormat(r: Rendition) {
    var held := r.segmenter.held; held != [] ==> r.format == FormatOf(held[|held| - 1])
  }

  /** The group continues what the rendition expects, and is appended, but does not continue
      the last group held. */
  predicate Tears(r: Rendition, g: Group) {
    var held := r.segmenter.held;
    && g.sampleRate > 0 && held != [] && !Breaks(r, g) && PtsFits(g) && DurationFits(g)
    && g.ptsSamples != EndOf(held[|held| - 1])
  }

  lemma CloseOfBreak(r: Rendition, g: Group, published: nat -> bool, n: nat)
    requires SegmenterOk(r.segmenter) && Breaks(r, g)
    ensures var e := CloseSegment(r, g, published, n);
      && SegmenterOk(e.state.segmenter) && e.state.segmenter.held == [] && GroupsOf(e.parts) == r.segmenter.held
      && |e.parts| <= 1 && (e.parts != [] ==> e.parts[0].groups == r.segmenter.held)
      && (e.parts == [] ==> r.segmenter.held == [])
      && (e.ok ==> e.state.format == FormatOf(g))
  {
    FlushSound(r.segmenter, published, n);
  }

  /** What `Append` does with the buffer: it grows by the group, or is cut together with it. */
  lemma AppendGroups(r: Rendition, g: Group, published: nat -> bool, n: nat)
    requires SegmenterOk(r.segmenter) && WellFormed(g)
    ensures var e := Append(r, g, published, n);
      var more := if PtsFits(g) && DurationFits(g) then r.segmenter.held + [g] else r.segmenter.held;
      && e.state.format == r.format
      && ((e.parts == [] && e.state.segmenter.held == more)
          || (|e.parts| == 1 && e.parts[0].groups == more && e.state.segmenter.held == [] && more != r.segmenter.held))
  {
  }

  lemma RunGrowsIff(held: seq<Group>, g: Group)
    requires IsRun(held)
    ensures IsRun(held + [g]) <==>
      held == [] || (FormatOf(g) == FormatOf(held[|held| - 1]) && g.ptsSamples == EndOf(held[|held| - 1]) && !g.discontinuity)
  {
    var more := held + [g];
    assert forall i :: 0 <= i < |held| ==> more[i] == held[i];
    if held != [] { assert more[|held|] == g && more[|held| - 1] == held[|held| - 1]; }
  }

  lemma PartsAreRunsConcat(a: seq<Part>, b: seq<Part>)
    ensures PartsAreRuns(a + b) <==> PartsAreRuns(a) && PartsAreRuns(b)
  {
    forall p | p in a ensures p in a + b {}
    forall p | p in b ensures p in a + b {}
  }

  predicate Carries(parts: seq<Part>, a: seq<Group>, b: seq<Group>) {
    forall p :: p in parts ==> p.groups == a || p.groups == b
  }

  lemma AppendToEmpty(r: Rendition, g: Group, published: nat -> bool, n: nat)
    requires SegmenterOk(r.segmenter) && r.segmenter.held == [] && WellFormed(g)
    ensures var e := Append(r, g, published, n);
      && Carries(e.parts, [g], [g]) && e.state.format == r.format
      && (e.state.segmenter.held == [] || e.state.segmenter.held == [g])
  {
    AppendGroups(r, g, published, n);
    assert [] + [g] == [g];
  }

  lemma CarriesConcat(a: seq<Part>, b: seq<Part>, held: seq<Group>, next: seq<Group>)
    requires Carries(a, held, held) && Carries(b, next, next)
    ensures Carries(a + b, held, next)
  {
  }

  /** A breaking group cuts what was held into a part of its own and starts afresh. */
  lemma BreakShape(r: Rendition, g: Group, published: nat -> bool, n: nat)
    requires SegmenterOk(r.segmenter) && WellFormed(g) && Breaks(r, g)
    ensures var e := PackageInto(r, g, published, n);
      && Carries(e.parts, r.segmenter.held, [g])
      && (r.segmenter.held != [] ==> e.parts != [] && e.parts[0].groups == r.segmenter.held)
      && (e.state.segmenter.held == [] || (e.state.segmenter.held == [g] && e.state.format == FormatOf(g)))
  {
    CloseOfBreak(r, g, published, n);
    var closed := CloseSegment(r, g, published, n);
    assert Carries(closed.parts, r.segmenter.held, r.segmenter.held);
    if closed.ok {
      AppendToEmpty(closed.state, g, published, n + |closed.parts|);
      CarriesConcat(closed.parts, Append(closed.state, g, published, n + |closed.parts|).parts, r.segmenter.held, [g]);
    }
  }

  lemma BreakLeavesRuns(r: Rendition, g: Group, published: nat -> bool, n: nat)
    requires SegmenterOk(r.segmenter) && IsRun(r.segmenter.held) && WellFormed(g) && Breaks(r, g)
    ensures var e := PackageInto(r, g, published, n); PartsAreRuns(e.parts) && IsRun(e.state.segmenter.held)
  {
    BreakShape(r, g, published, n);
  }

  lemma AppendTearsIff(r: Rendition, g: Group, published: nat -> bool, n: nat)
    requires SegmenterOk(r.segmenter) && IsRun(r.segmenter.held) && HeldFormat(r) && WellFormed(g) && !Breaks(r, g)
    ensures var e := Append(r, g, published, n);
      (PartsAreRuns(e.parts) && IsRun(e.state.segmenter.held)) <==> !Tears(r, g)
  {
    AppendGroups(r, g, published, n);
    RunGrowsIff(r.segmenter.held, g);
    var parts := Append(r, g, published, n).parts;
    if parts != [] { assert parts[0] in parts; }
  }

  /** One group leaves only runs, in the parts it causes and in the buffer, exactly when it
      does not tear the buffer. */
  lemma PackageTearsIff(r: Rendition, g: Group, published: nat -> bool, n: nat)
    requires SegmenterOk(r.segmenter) && IsRun(r.segmenter.held) && HeldFormat(r) && WellFormed(g)
    ensures var e := PackageInto(r, g, published, n);
      (PartsAreRuns(e.parts) && IsRun(e.state.segmenter.held)) <==> !Tears(r, g)
  {
    if Breaks(r, g) {
      BreakLeavesRuns(r, g, published, n);
    } else {
      AppendTearsIff(r, g, published, n);
      assert [] + Append(r, g, published, n).parts == Append(r, g, published, n).parts;
    }
  }

  lemma PackageKeepsFormat(r: Rendition, g: Group, published: nat -> bool, n: nat)
    requires SegmenterOk(r.segmenter) && HeldFormat(r) && WellFormed(g)
    ensures HeldFormat(PackageInto(r, g, published, n).state)
  {
    if Breaks(r, g) {
      BreakShape(r, g, published, n);
    } else {
      AppendGroups(r, g, published, n);
    }
  }

  lemma TornGrowsTorn(held: seq<Group>, g: Group)
    requires !IsRun(held)
    ensures !IsRun(held + [g])
  {
    var i :| 1 <= i < |held| && !(FormatOf(held[i]) == FormatOf(held[i - 1])
      && held[i].ptsSamples == held[i - 1].ptsSamples + held[i - 1].frameCount && !held[i].discontinuity);
    assert (held + [g])[i] == held[i] && (held + [g])[i - 1] == held[i - 1];
  }

  /** A torn buffer stays torn or becomes a torn part. */
  lemma TornStaysTorn(r: Rendition, g: Group, published: nat -> bool, n: nat)
    requires SegmenterOk(r.segmenter) && !IsRun(r.segmenter.held) && WellFormed(g)
    ensures var e := PackageInto(r, g, published, n); !(PartsAreRuns(e.parts) && IsRun(e.state.segmenter.held))
  {
    if Breaks(r, g) {
      BreakShape(r, g, published, n);
      assert PackageInto(r, g, published, n).parts[0] in PackageInto(r, g, published, n).parts;
    } else {
      AppendGroups(r, g, published, n);
      TornGrowsTorn(r.segmenter.held, g);
      var appended := Append(r, g, published, n);
      assert [] + appended.parts == appended.parts;
      if appended.parts != [] { assert appended.parts[0] in appended.parts; }
    }
  }

  /** Every part handed over is a run, and so is the buffer. */
  predicate AllRuns(p: Packager, key: Key) {
    PartsAreRuns(p.parts) && (key in p.renditions ==> IsRun(p.renditions[key].segmenter.held))
  }

  predicate TearsNow(p: Packager, g: Group) {
    WellFormed(g) && KeyOf(g) in p.renditions && Tears(p.renditions[KeyOf(g)], g)
  }

  predicate NeverTears(c: Config, published: nat -> bool, groups: seq<Group>) {
    groups == [] ||
    (var before, g := groups[..|groups| - 1], groups[|groups| - 1];
     NeverTears(c, published, before) && !TearsNow(PackageAll(c, published, before), g))
  }

  ghost predicate FormatsHeld(p: Packager, key: Key) { key in p.renditions ==> HeldFormat(p.renditions[key]) }

  lemma StepRunsIff(c: Config, published: nat -> bool, p: Packager, key: Key, taken: seq<Group>, g: Group)
    requires PackagerOk(c, p, key, taken) && KeyOf(g) == key && FormatsHeld(p, key)
    ensures FormatsHeld(PackageStep(c, published, p, g), key)
    ensures AllRuns(PackageStep(c, published, p, g), key) <==> AllRuns(p, key) && !TearsNow(p, g)
  {
    PackageStepIs(c, published, p, g);
    if !Refused(c, p, g) {
      var r := RenditionFor(c, p, g);
      var e := PackageInto(r, g, published, |p.parts|);
      PartsAreRunsConcat(p.parts, e.parts);
      PackageKeepsFormat(r, g, published, |p.parts|);
      if IsRun(r.segmenter.held) {
        PackageTearsIff(r, g, published, |p.parts|);
      } else {
        TornStaysTorn(r, g, published, |p.parts|);
      }
    }
  }

  lemma {:induction false} RunKeepsFormats(c: Config, published: nat -> bool, key: Key, groups: seq<Group>)
    requires OfKey(groups, key)
    ensures FormatsHeld(PackageAll(c, published, groups), key)
  {
    if groups != [] {
      var before, g := groups[..|groups| - 1], groups[|groups| - 1];
      assert g in groups && forall x :: x in before ==> x in groups;
      RunKeepsFormats(c, published, key, before);
      RunKeepsPackager(c, published, key, before);
      StepRunsIff(c, published, PackageAll(c, published, before), key, Taken(c, published, before), g);
    }
  }

  /** With or without publish failures, every part and the buffer are one run of same-format,
      PTS-contiguous groups with no discontinuity flag after the first, exactly when no group tore. */
  lemma {:induction false} PartsAreContinuousIff(c: Config, published: nat -> bool, key: Key, groups: seq<Group>)
    requires OfKey(groups, key)
    ensures AllRuns(PackageAll(c, published, groups), key) <==> NeverTears(c, published, groups)
  {
    if groups != [] {
      var before, g := groups[..|groups| - 1], groups[|groups| - 1];
      assert g in groups && forall x :: x in before ==> x in groups;
      PartsAreContinuousIff(c, published, key, before);
      RunKeepsFormats(c, published, key, before);
      RunKeepsPackager(c, published, key, before);
      StepRunsIff(c, published, PackageAll(c, published, before), key, Taken(c, published, before), g);
    }
  }

  // ---------------------------------------------------------------- where tears come from

  /** A group in sequence whose duration does not fit is skipped while the rendition moves on
      past it, with earlier groups still held. */
  predicate SkipsInside(r: Rendition, g: Group) {
    g.sampleRate > 0 && !Breaks(r, g) && r.segmenter.held != [] && PtsFits(g) && !DurationFits(g)
  }

  /** After any skip the next group in sequence that fits tears the buffer. */
  lemma SkipThenNextTears(r: Rendition, g: Group, next: Group, published: nat -> bool, n: nat)
    requires SegmenterOk(r.segmenter) && RunOk(r) && WellFormed(g) && SkipsInside(r, g)
    requires var r1 := PackageInto(r, g, published, n).state;
      WellFormed(next) && !Breaks(r1, next) && PtsFits(next) && DurationFits(next)
    ensures Tears(PackageInto(r, g, published, n).state, next)
  {
  }

  lemma InStepNeverTears(r: Rendition, g: Group)
    requires RunOk(r)
    ensures !Tears(r, g)
  {
  }

  /** A rendition stays in step with what it expects unless a group is skipped inside it. */
  lemma PackageKeepsStep(r: Rendition, g: Group, published: nat -> bool, n: nat)
    requires SegmenterOk(r.segmenter) && RunOk(r) && WellFormed(g) && !SkipsInside(r, g)
    ensures RunOk(PackageInto(r, g, published, n).state)
  {
    if Breaks(r, g) {
      BreakKeepsStep(r, g, published, n);
    } else {
      AppendKeepsStep(r, g, published, n);
    }
  }

  lemma BreakKeepsStep(r: Rendition, g: Group, published: nat -> bool, n: nat)
    requires SegmenterOk(r.segmenter) && WellFormed(g) && Breaks(r, g)
    ensures RunOk(PackageInto(r, g, published, n).state)
  {
    CloseOfBreak(r, g, published, n);
    var closed := CloseSegment(r, g, published, n);
    if closed.ok { AppendKeepsStep(closed.state, g, published, n + |closed.parts|); }
  }

  lemma AppendKeepsStep(r: Rendition, g: Group, published: nat -> bool, n: nat)
    requires SegmenterOk(r.segmenter) && RunOk(r) && WellFormed(g) && r.format == FormatOf(g)
    requires r.segmenter.held != [] ==> !Breaks(r, g) && (PtsFits(g) ==> DurationFits(g))
    ensures RunOk(Append(r, g, published, n).state)
  {
    AppendGroups(r, g, published, n);
    RunGrowsIff(r.segmenter.held, g);
  }

  /** Sample rates of 1000 Hz and above never skip, so they never tear. */
  lemma AudioRatesNeverSkip(r: Rendition, g: Group)
    requires g.sampleRate >= 1_000
    ensures !SkipsInside(r, g)
  {
    AudioRatesFit(g);
  }

  ghost predicate InStep(p: Packager, key: Key) { key in p.renditions ==> RunOk(p.renditions[key]) }

  lemma StepNeverTears(c: Config, published: nat -> bool, p: Packager, key: Key, taken: seq<Group>, g: Group)
    requires PackagerOk(c, p, key, taken) && KeyOf(g) == key && InStep(p, key) && g.sampleRate >= 1_000
    ensures !TearsNow(p, g) && InStep(PackageStep(c, published, p, g), key)
  {
    PackageStepIs(c, published, p, g);
    if !Refused(c, p, g) {
      var r := RenditionFor(c, p, g);
      AudioRatesNeverSkip(r, g);
      InStepNeverTears(r, g);
      PackageKeepsStep(r, g, published, |p.parts|);
    }
  }

  lemma {:induction false} AudioRatesNeverTear(c: Config, published: nat -> bool, key: Key, groups: seq<Group>)
    requires OfKey(groups, key) && forall g :: g in groups ==> g.sampleRate >= 1_000
    ensures NeverTears(c, published, groups) && InStep(PackageAll(c, published, groups), key)
  {
    if groups != [] {
      var before, g := groups[..|groups| - 1], groups[|groups| - 1];
      assert g in groups && forall x :: x in before ==> x in groups;
      AudioRatesNeverTear(c, published, key, before);
      RunKeepsPackager(c, published, key, before);
      StepNeverTears(c, published, PackageAll(c, published, before), key, Taken(c, published, before), g);
    }
  }

  // ---------------------------------------------------------------- a torn part

  function OneHertz(pts: u64, frames: u32): Group { Group(1, 0, Flac, 0, 1, 1, 0, pts, frames, false, false, [0]) }

  const TWO_SECONDS: Config := Config(0, 2_000)
  const ONE_HERTZ: Key := Key(1, 0, Flac)

  /** A rendition of 1 Hz groups that holds the first of them and expects `expected`. */
  function HoldingFirst(expected: u64): Rendition {
    Rendition(FormatOf(OneHertz(0, 1)), Some(expected), Segmenter(0, 1, 2_000, [0], 1_000, 1, 0, [OneHertz(0, 1)]))
  }

  lemma FirstSecond(published: nat -> bool)
    ensures PackageStep(TWO_SECONDS, published, Packager(map[], []), OneHertz(0, 1))
         == Packager(map[ONE_HERTZ := HoldingFirst(1)], [])
  {
    var g := OneHertz(0, 1);
    QuotientIs(1_000, 1);
    assert DurationMs(g) == 1_000 && KeyOf(g) == ONE_HERTZ;
    var r := Rendition(FormatOf(g), None, NewSegmenter(TWO_SECONDS, 0, 1));
    assert CloseSegment(r, g, published, 0) == Emission(r, [], true);
    assert [] + g.payload == [0] && [] + [g] == [g];
    assert PushPacket(r.segmenter, g, 1_000, published, 0) == Emission(HoldingFirst(1).segmenter, [], true);
    assert PackageInto(r, g, published, 0) == Emission(HoldingFirst(1), [], true);
    assert map[][ONE_HERTZ := HoldingFirst(1)] == map[ONE_HERTZ := HoldingFirst(1)];
  }

  lemma LongGroupSkips(published: nat -> bool)
    ensures PackageStep(TWO_SECONDS, published, Packager(map[ONE_HERTZ := HoldingFirst(1)], []), OneHertz(1, 5_000_000))
         == Packager(map[ONE_HERTZ := HoldingFirst(5_000_001)], [])
  {
    var g, r := OneHertz(1, 5_000_000), HoldingFirst(1);
    QuotientIs(5_000_000_000, 1);
    assert !DurationFits(g) && KeyOf(g) == ONE_HERTZ;
    assert CloseSegment(r, g, published, 0) == Emission(r, [], true);
    assert PackageInto(r, g, published, 0) == Emission(HoldingFirst(5_000_001), [], false);
    assert map[ONE_HERTZ := r][ONE_HERTZ := HoldingFirst(5_000_001)] == map[ONE_HERTZ := HoldingFirst(5_000_001)];
  }

  lemma ThirdGroupCuts(published: nat -> bool)
    ensures var p := Packager(map[ONE_HERTZ := HoldingFirst(5_000_001)], []);
      var parts := PackageStep(TWO_SECONDS, published, p, OneHertz(5_000_001, 1)).parts;
      |parts| == 1 && parts[0].groups == [OneHertz(0, 1), OneHertz(5_000_001, 1)]
  {
    var g, r := OneHertz(5_000_001, 1), HoldingFirst(5_000_001);
    QuotientIs(1_000, 1);
    assert DurationMs(g) == 1_000 && KeyOf(g) == ONE_HERTZ;
    assert CloseSegment(r, g, published, 0) == Emission(r, [], true);
    assert r.segmenter.held + [g] == [OneHertz(0, 1), g];
  }

  /** A concrete run publishes a torn part: of three 1 Hz groups in sequence the middle one is
      too long to time, and the part cut at two seconds holds the first and the third. */
  lemma SkippedGroupTearsPart(published: nat -> bool)
    ensures var parts := PackageAll(TWO_SECONDS, published,
                                    [OneHertz(0, 1), OneHertz(1, 5_000_000), OneHertz(5_000_001, 1)]).parts;
      |parts| == 1 && parts[0].groups == [OneHertz(0, 1), OneHertz(5_000_001, 1)] && !IsRun(parts[0].groups)
  {
    var a, b, d := OneHertz(0, 1), OneHertz(1, 5_000_000), OneHertz(5_000_001, 1);
    assert [a, b, d][..2] == [a, b] && [a, b][..1] == [a] && [a][..0] == [];
    FirstSecond(published);
    LongGroupSkips(published);
    ThirdGroupCuts(published);
    assert PackageAll(TWO_SECONDS, published, [a]) == Packager(map[ONE_HERTZ := HoldingFirst(1)], []);
    assert PackageAll(TWO_SECONDS, published, [a, b]) == Packager(map[ONE_HERTZ := HoldingFirst(5_000_001)], []);
    assert [a, d][1].ptsSamples != [a, d][0].ptsSamples + [a, d][0].frameCount;
  }
}
