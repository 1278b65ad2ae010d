/** Where the byte coalescer cuts, and the numbers it labels parts with. */
module OpaqueCuts {
  import opened Wrappers
  import opened Words
  import opened OpaquePackaging
  import opened OpaquePackagingRuns

  // ---------------------------------------------------------------- one packet

  /** A packet closes a part exactly when the buffered time with it reaches the target. */
  lemma PushCutsIff(s: Segmenter, g: Group, durationMs: u32, published: nat -> bool, n: nat)
    requires g.payload != []
    ensures PushPacket(s, g, durationMs, published, n).parts != [] <==>
      Min(U32_MAX, s.durationMs + durationMs) >= s.minPartMs
  {
  }

  // ---------------------------------------------------------------- all groups of a key

  /** `g` continues the segment that `last` belongs to. */
  predicate Follows(last: Group, g: Group) {
    && g.configGeneration == last.configGeneration && g.sampleRate == last.sampleRate
    && g.channelCount == last.channelCount && g.kind == last.kind && g.sampleFormat == last.sampleFormat
    && g.ptsSamples == last.ptsSamples + last.frameCount && !g.discontinuity
  }

  /** The groups are cut as late as they may be: no part reaches the target before its last group,
      and one that does not reach it ends where the next group does not follow. */
  ghost predicate CutLate(min: nat, parts: seq<Part>, held: seq<Group>) {
    forall i :: 0 <= i < |parts| ==> PartLate(min, parts[i].groups, GroupsOf(parts[i + 1..]) + held)
  }

  predicate Chained(groups: seq<Group>) { forall i :: 1 <= i < |groups| ==> Follows(groups[i - 1], groups[i]) }

  predicate PartLate(min: nat, p: seq<Group>, after: seq<Group>) {
    && p != [] && TotalMs(p[..|p| - 1]) < min
    && Chained(p)
    && (TotalMs(p) >= min || (after != [] && !Follows(p[|p| - 1], after[0])))
  }

  lemma HeldGrows(min: nat, parts: seq<Part>, held: seq<Group>, g: Group)
    requires CutLate(min, parts, held)
    ensures CutLate(min, parts, held + [g])
  {
    forall i | 0 <= i < |parts| ensures PartLate(min, parts[i].groups, GroupsOf(parts[i + 1..]) + (held + [g])) {
      assert PartLate(min, parts[i].groups, GroupsOf(parts[i + 1..]) + held);
      assert GroupsOf(parts[i + 1..]) + (held + [g]) == GroupsOf(parts[i + 1..]) + held + [g];
    }
  }

  lemma HeldIsCut(min: nat, parts: seq<Part>, part: Part, more: seq<Group>)
    requires CutLate(min, parts, part.groups + more) && PartLate(min, part.groups, more)
    ensures CutLate(min, parts + [part], more)
  {
    var all := parts + [part];
    assert [part][..0] == [] && GroupsOf([part]) == part.groups;
    forall i | 0 <= i < |all| ensures PartLate(min, all[i].groups, GroupsOf(all[i + 1..]) + more) {
      if i < |parts| {
        assert all[i + 1..] == parts[i + 1..] + [part];
        GroupsOfConcat(parts[i + 1..], [part]);
        assert GroupsOf(all[i + 1..]) + more == GroupsOf(parts[i + 1..]) + (part.groups + more);
      } else {
        assert all[i + 1..] == [] && [] + more == more;
      }
    }
  }

  lemma ChainGrows(held: seq<Group>, g: Group)
    requires Chained(held) && (held == [] || Follows(held[|held| - 1], g))
    ensures Chained(held + [g])
  {
  }

  /** The rendition holds a chain below the target and expects what follows it; the parts handed
      over before were cut late. */
  ghost predicate Lined(min: nat, r: Rendition, parts: seq<Part>) {
    var held := r.segmenter.held;
    && SegmenterOk(r.segmenter) && r.segmenter.minPartMs == min && Chained(held) && CutLate(min, parts, held)
    && (held != [] ==> r.format == FormatOf(held[|held| - 1]) && r.expectedPts == Some(EndOf(held[|held| - 1])))
  }

  lemma PrefixBelow(held: seq<Group>, min: nat)
    requires held != [] && TotalMs(held) < min
    ensures TotalMs(held[..|held| - 1]) < min
  {
  }

  /** A group that breaks the segment does not follow the last one held. */
  lemma HeldIsLate(min: nat, r: Rendition, parts: seq<Part>, g: Group)
    requires Lined(min, r, parts) && r.segmenter.held != [] && Breaks(r, g)
    ensures PartLate(min, r.segmenter.held, [g])
  {
    PrefixBelow(r.segmenter.held, min);
  }

  lemma BreakCutsLate(min: nat, r: Rendition, parts: seq<Part>, g: Group, published: nat -> bool, n: nat)
    requires Lined(min, r, parts) && r.segmenter.held != [] && Breaks(r, g)
    ensures CutLate(min, parts + CloseSegment(r, g, published, n).parts, [g])
  {
    CloseOfBreak(r, g, published, n);
    var closed := CloseSegment(r, g, published, n).parts;
    HeldGrows(min, parts, r.segmenter.held, g);
    HeldIsLate(min, r, parts, g);
    HeldIsCut(min, parts, closed[0], [g]);
    assert closed == [closed[0]];
  }

  /** Settling the segment question cuts late, and leaves a buffer the group follows. */
  lemma CloseCutsLate(min: nat, r: Rendition, parts: seq<Part>, g: Group, published: nat -> bool, n: nat)
    requires Lined(min, r, parts) && forall k :: published(k)
    ensures var e := CloseSegment(r, g, published, n);
      && e.ok && e.state.format == FormatOf(g) && SegmenterOk(e.state.segmenter) && e.state.segmenter.minPartMs == min
      && CutLate(min, parts + e.parts, e.state.segmenter.held + [g]) && Chained(e.state.segmenter.held + [g])
  {
    var held := r.segmenter.held;
    if Breaks(r, g) {
      CloseOfBreak(r, g, published, n);
      assert [] + [g] == [g];
      if held != [] {
        BreakCutsLate(min, r, parts, g, published, n);
      } else {
        HeldGrows(min, parts, [], g);
        assert parts + [] == parts;
      }
    } else {
      HeldGrows(min, parts, held, g);
      ChainGrows(held, g);
      assert parts + [] == parts;
    }
  }

  lemma AppendCutsIff(r: Rendition, g: Group, published: nat -> bool, n: nat)
    requires SegmenterOk(r.segmenter) && WellFormed(g) && PtsFits(g) && DurationFits(g)
    ensures Append(r, g, published, n).parts != [] <==> TotalMs(r.segmenter.held + [g]) >= r.segmenter.minPartMs
  {
    PushCutsIff(r.segmenter, g, DurationMs(g), published, n);
    PayloadsAppend(r.segmenter.held, g);
  }

  lemma AppendIsDue(r: Rendition, g: Group, published: nat -> bool, n: nat)
    requires SegmenterOk(r.segmenter) && WellFormed(g) && PtsFits(g) && DurationFits(g)
    ensures var e, more := Append(r, g, published, n), r.segmenter.held + [g];
      && e.state.format == r.format && e.state.expectedPts == Some(EndOf(g))
      && e.state.segmenter.minPartMs == r.segmenter.minPartMs && SegmenterOk(e.state.segmenter)
      && (if TotalMs(more) >= r.segmenter.minPartMs
          then |e.parts| == 1 && e.parts[0].groups == more && e.state.segmenter.held == []
          else e.parts == [] && e.state.segmenter.held == more)
  {
    AppendGroups(r, g, published, n);
    AppendIsSound(r, g, published, n);
    AppendCutsIff(r, g, published, n);
  }

  lemma AppendCutsLate(min: nat, r: Rendition, parts: seq<Part>, g: Group, published: nat -> bool, n: nat)
    requires SegmenterOk(r.segmenter) && r.segmenter.minPartMs == min && r.format == FormatOf(g)
    requires WellFormed(g) && PtsFits(g) && DurationFits(g)
    requires CutLate(min, parts, r.segmenter.held + [g]) && Chained(r.segmenter.held + [g])
    ensures Lined(min, Append(r, g, published, n).state, parts + Append(r, g, published, n).parts)
  {
    var e, more := Append(r, g, published, n), r.segmenter.held + [g];
    AppendIsDue(r, g, published, n);
    if e.parts == [] {
      assert parts + [] == parts;
    } else {
      assert more[..|more| - 1] == r.segmenter.held && more + [] == more;
      HeldIsCut(min, parts, e.parts[0], []);
      assert e.parts == [e.parts[0]];
    }
  }

  lemma PackageCutsLate(min: nat, r: Rendition, parts: seq<Part>, g: Group, published: nat -> bool, n: nat)
    requires Lined(min, r, parts) && WellFormed(g) && PtsFits(g) && DurationFits(g) && forall k :: published(k)
    ensures Lined(min, PackageInto(r, g, published, n).state, parts + PackageInto(r, g, published, n).parts)
  {
    CloseCutsLate(min, r, parts, g, published, n);
    var closed := CloseSegment(r, g, published, n);
    var appended := Append(closed.state, g, published, n + |closed.parts|);
    AppendCutsLate(min, closed.state, parts + closed.parts, g, published, n + |closed.parts|);
    assert parts + (closed.parts + appended.parts) == parts + closed.parts + appended.parts;
  }

  function HeldOf(p: Packager, key: Key): seq<Group> {
    if key in p.renditions then p.renditions[key].segmenter.held else []
  }

  ghost predicate AllLined(c: Config, p: Packager, key: Key) {
    && p.renditions.Keys <= {key} && (key !in p.renditions ==> p.parts == [])
    && (key in p.renditions ==> Lined(Max(c.minPartMs, 1), p.renditions[key], p.parts))
  }

  lemma StepCutsLate(c: Config, published: nat -> bool, p: Packager, key: Key, g: Group)
    requires AllLined(c, p, key) && KeyOf(g) == key && Packable(c, g) && forall n :: published(n)
    ensures AllLined(c, PackageStep(c, published, p, g), key)
  {
    PackageStepIs(c, published, p, g);
    PackageCutsLate(Max(c.minPartMs, 1), RenditionFor(c, p, g), p.parts, g, published, |p.parts|);
  }

  predicate AllPackable(c: Config, groups: seq<Group>) { forall i :: 0 <= i < |groups| ==> Packable(c, groups[i]) }

  lemma {:induction false} PackableOfAll(c: Config, groups: seq<Group>)
    requires AllPackable(c, groups)
    ensures PackableOf(c, groups) == groups
  {
    if groups != [] {
      PackableOfAll(c, groups[..|groups| - 1]);
      assert groups[..|groups| - 1] + [groups[|groups| - 1]] == groups;
    }
  }

  lemma {:induction false} RunCutsLate(c: Config, published: nat -> bool, key: Key, groups: seq<Group>)
    requires OfKey(groups, key) && AllPackable(c, groups) && forall n :: published(n)
    ensures AllLined(c, PackageAll(c, published, groups), key)
  {
    if groups != [] {
      var before, g := groups[..|groups| - 1], groups[|groups| - 1];
      assert g in groups && forall x :: x in before ==> x in groups;
      RunCutsLate(c, published, key, before);
      StepCutsLate(c, published, PackageAll(c, published, before), key, g);
    }
  }

  /** Over every sequence of packable groups of one key, with publishes accepted: the parts and
      the buffer hold all groups in order, cut as late as they may be; so the cuts are determined. */
  lemma PartsAreCutLate(c: Config, published: nat -> bool, key: Key, groups: seq<Group>)
    requires OfKey(groups, key) && AllPackable(c, groups) && forall n :: published(n)
    ensures var p := PackageAll(c, published, groups);
      && GroupsOf(p.parts) + HeldOf(p, key) == groups
      && CutLate(Max(c.minPartMs, 1), p.parts, HeldOf(p, key))
      && Chained(HeldOf(p, key)) && TotalMs(HeldOf(p, key)) < Max(c.minPartMs, 1)
  {
    RunCutsLate(c, published, key, groups);
    AllAreHeld(c, published, key, groups);
  }

  lemma AllAreHeld(c: Config, published: nat -> bool, key: Key, groups: seq<Group>)
    requires OfKey(groups, key) && AllPackable(c, groups) && forall n :: published(n)
    ensures var p := PackageAll(c, published, groups);
      GroupsOf(p.parts) + HeldOf(p, key) == groups && TotalMs(HeldOf(p, key)) < Max(c.minPartMs, 1)
  {
    var p := PackageAll(c, published, groups);
    RunKeepsPackager(c, published, key, groups);
    AllPackableTaken(c, published, key, groups);
    PackableOfAll(c, groups);
    if key in p.renditions { assert NewFor(c, key).held + groups == groups; }
  }

  // ---------------------------------------------------------------- one group, whatever the publisher answers

  /** Each new part is what was held, or reaches the target with its last group and not before. */
  ghost predicate DueParts(min: nat, held: seq<Group>, parts: seq<Part>) {
    forall q :: q in parts ==>
      q.groups != [] && (q.groups == held || (TotalMs(q.groups) >= min && TotalMs(q.groups[..|q.groups| - 1]) < min))
  }

  lemma AppendedPartsAreDue(r: Rendition, g: Group, published: nat -> bool, n: nat)
    requires SegmenterOk(r.segmenter) && WellFormed(g)
    ensures DueParts(r.segmenter.minPartMs, [], Append(r, g, published, n).parts)
  {
    if PtsFits(g) && DurationFits(g) {
      AppendIsDue(r, g, published, n);
      assert (r.segmenter.held + [g])[..|r.segmenter.held|] == r.segmenter.held;
    }
  }

  lemma PackagedPartsAreDue(r: Rendition, g: Group, published: nat -> bool, n: nat)
    requires SegmenterOk(r.segmenter) && WellFormed(g)
    ensures DueParts(r.segmenter.minPartMs, r.segmenter.held, PackageInto(r, g, published, n).parts)
  {
    var closed := CloseSegment(r, g, published, n);
    CloseIsSound(r, g, published, n);
    if Breaks(r, g) { CloseOfBreak(r, g, published, n); }
    assert DueParts(r.segmenter.minPartMs, r.segmenter.held, closed.parts);
    if closed.ok { AppendedPartsAreDue(closed.state, g, published, n + |closed.parts|); }
  }

  lemma StepPartsAreDue(c: Config, published: nat -> bool, p: Packager, key: Key, taken: seq<Group>, g: Group)
    requires PackagerOk(c, p, key, taken) && KeyOf(g) == key
    ensures p.parts <= PackageStep(c, published, p, g).parts
    ensures DueParts(Max(c.minPartMs, 1), HeldOf(p, key), PackageStep(c, published, p, g).parts[|p.parts|..])
  {
    PackageStepIs(c, published, p, g);
    if !Refused(c, p, g) { PackagedPartsAreDue(RenditionFor(c, p, g), g, published, |p.parts|); }
  }

  /** Publish attempts `n` to `n + count - 1` are all accepted. */
  ghost predicate AllAccepted(published: nat -> bool, n: nat, count: nat) {
    forall i :: n <= i < n + count ==> published(i)
  }

  lemma AppendOkIff(r: Rendition, g: Group, published: nat -> bool, n: nat)
    requires g.sampleRate > 0
    ensures var e := Append(r, g, published, n);
      e.ok <==> PtsFits(g) && DurationFits(g) && AllAccepted(published, n, |e.parts|)
  {
  }

  lemma CloseOkIff(r: Rendition, g: Group, published: nat -> bool, n: nat)
    ensures var e := CloseSegment(r, g, published, n);
      && |e.parts| <= 1 && (e.ok <==> AllAccepted(published, n, |e.parts|)) && (!e.ok ==> |e.parts| == 1)
  {
  }

  lemma PackageOkIff(r: Rendition, g: Group, published: nat -> bool, n: nat)
    requires g.sampleRate > 0
    ensures var e := PackageInto(r, g, published, n);
      e.ok <==> Takes(r, g, published, n) && AllAccepted(published, n, |e.parts|)
  {
    var closed := CloseSegment(r, g, published, n);
    CloseOkIff(r, g, published, n);
    if closed.ok {
      AppendOkIff(closed.state, g, published, n + |closed.parts|);
      var appended := Append(closed.state, g, published, n + |closed.parts|);
      AttemptsSplit(published, n, |closed.parts|, |appended.parts|);
    }
  }

  lemma AttemptsSplit(published: nat -> bool, n: nat, a: nat, b: nat)
    ensures AllAccepted(published, n, a + b) <==> AllAccepted(published, n, a) && AllAccepted(published, n + a, b)
  {
  }

  /** A group that fits but is not taken met a publisher that refused what was held. */
  lemma UntakenIsRefused(r: Rendition, g: Group, published: nat -> bool, n: nat)
    requires SegmenterOk(r.segmenter) && WellFormed(g) && PtsFits(g) && DurationFits(g) && !Takes(r, g, published, n)
    ensures var e := PackageInto(r, g, published, n);
      |e.parts| == 1 && e.parts[0].groups == r.segmenter.held != [] && !published(n)
  {
    CloseOfBreak(r, g, published, n);
    CloseOkIff(r, g, published, n);
  }

  /** A packable group is taken unless it breaks the segment and the publisher refuses what was
      held; any other group is not taken. The answer is success exactly when the group was taken and
      every part it caused was accepted. */
  lemma StepTakesIff(c: Config, published: nat -> bool, p: Packager, key: Key, taken: seq<Group>, g: Group)
    requires PackagerOk(c, p, key, taken) && KeyOf(g) == key
    ensures var more := PackageStep(c, published, p, g).parts[|p.parts|..];
      && (TakenBy(c, published, p, g) ==> Packable(c, g))
      && (Packable(c, g) && !TakenBy(c, published, p, g) ==>
            |more| == 1 && more[0].groups == HeldOf(p, key) != [] && !published(|p.parts|))
      && (PackageGroup(c, p.renditions, g, published, |p.parts|).ok <==>
            TakenBy(c, published, p, g) && AllAccepted(published, |p.parts|, |more|))
  {
    PackageStepIs(c, published, p, g);
    TakenByIs(c, published, p, g);
    if !Refused(c, p, g) {
      var r := RenditionFor(c, p, g);
      PackageOkIff(r, g, published, |p.parts|);
      if Packable(c, g) && !TakenBy(c, published, p, g) { UntakenIsRefused(r, g, published, |p.parts|); }
    }
  }

  /** What packaging one group owes: the new parts are due, a packable group is missed only where the
      publisher refused what was held, and success is reported exactly when nothing went wrong. */
  ghost predicate GroupOwes(c: Config, published: nat -> bool, p: Packager, key: Key, g: Group, took: bool, ok: bool,
                            p': Packager)
  {
    && p.parts <= p'.parts
    && DueParts(Max(c.minPartMs, 1), HeldOf(p, key), p'.parts[|p.parts|..])
    && (took ==> Packable(c, g))
    && (Packable(c, g) && !took ==> |p'.parts| == |p.parts| + 1 && !published(|p.parts|))
    && (ok <==> took && AllAccepted(published, |p.parts|, |p'.parts| - |p.parts|))
  }

  lemma StepKeepsPromise(c: Config, published: nat -> bool, p: Packager, key: Key, taken: seq<Group>, g: Group)
    requires PackagerOk(c, p, key, taken) && KeyOf(g) == key
    ensures GroupOwes(c, published, p, key, g, TakenBy(c, published, p, g),
                      PackageGroup(c, p.renditions, g, published, |p.parts|).ok, PackageStep(c, published, p, g))
  {
    StepPartsAreDue(c, published, p, key, taken, g);
    StepTakesIff(c, published, p, key, taken, g);
  }

  // ---------------------------------------------------------------- numbers on the labels

  lemma NearestQuotient(x: nat, b: nat)
    requires b > 0
    ensures var q := (x + b / 2) / b; 2 * (q * b) <= 2 * x + b && 2 * x < 2 * (q * b) + b
  {
    var a := x + b / 2;
    var q := a / b;
    assert a == q * b + a % b;
  }

  /** A group counts with its duration to the nearest millisecond, and with one at least. */
  lemma GroupMsIsNearest(g: Group)
    requires g.sampleRate > 0
    ensures var ms, doubled := GroupMs(g), 2_000 * g.frameCount;
      || (doubled < 2 * (ms * g.sampleRate) + g.sampleRate && 2 * (ms * g.sampleRate) <= doubled + g.sampleRate)
      || (ms == 1 && doubled < g.sampleRate)
  {
    NearestQuotient(1_000 * g.frameCount, g.sampleRate);
    QuotientIs(1_000 * g.frameCount + g.sampleRate / 2, g.sampleRate);
  }

  lemma QuotientFitsIff(x: nat, b: nat)
    requires b > 0
    ensures (x + b / 2) / b <= U32_MAX <==> 2 * x < 0x1_ffff_ffff * b
  {
    NearestQuotient(x, b);
    var q := (x + b / 2) / b;
    if q <= U32_MAX { MulMonotone(q, U32_MAX, b); } else { MulMonotone(U32_MAX + 1, q, b); }
  }

  /** Which groups can be taken at all: those with content whose stream id, end time and duration
      to the nearest millisecond fit. */
  lemma PackableIff(c: Config, g: Group)
    ensures Packable(c, g) <==>
      && !g.erasure && g.payload != [] && g.sampleRate > 0 && g.frameCount > 0 && g.channelCount > 0
      && c.baseStreamId + g.groupId + (match g.kind case Flac => 0 case Opus => 1_000 case Pcm => 2_000) <= U64_MAX
      && g.ptsSamples + g.frameCount <= U64_MAX
      && 2_000 * g.frameCount < 0x1_ffff_ffff * g.sampleRate
  {
    if g.sampleRate > 0 {
      QuotientFitsIff(1_000 * g.frameCount, g.sampleRate);
      QuotientIs(1_000 * g.frameCount + g.sampleRate / 2, g.sampleRate);
    }
  }

  /** Renditions have their own range of stream ids each: FLAC from the base on, Opus 1000 and
      PCM 2000 past it. */
  lemma StreamIdIs(c: Config, groupId: u16, kind: PayloadKind)
    ensures var id := c.baseStreamId + groupId + match kind case Flac => 0 case Opus => 1_000 case Pcm => 2_000;
      StreamId(c, groupId, kind) == if id <= U64_MAX then Some(id) else None
  {
  }
}
