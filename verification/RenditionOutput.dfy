/** The workers under the opaque policy, end to end: from accepted groups to published bytes. */
module RenditionOutput {
  import opened Wrappers
  import opened Words
  import opened OpaquePackaging
  import opened OpaquePackagingRuns
  import opened RenditionWorkers

  /** `published(k)(n)` is the publisher's answer to attempt `n` for key `k`. */
  function OpaqueSettings(c: Config, formats: set<PayloadKind>, published: Key -> (nat -> bool)): Settings<Renditions, Part> {
    Settings(formats, map[],
      (k: Key, line: Line<Renditions, Part>, g: Group) =>
        var p := PackageStep(c, published(k), Packager(line.packager, line.parts), g); Line(p.renditions, p.parts),
      (k: Key, line: Line<Renditions, Part>) => FinishKey(line.packager, k, published(k), |line.parts|).parts)
  }

  function AsPackager(line: Line<Renditions, Part>): Packager { Packager(line.packager, line.parts) }

  predicate ItemsOfKey(items: seq<Item>, k: Key) { forall i :: i in items && i.Sent? ==> KeyOf(i.group) == k }

  /** Bytes handed over and bytes buffered are the payloads of `taken`. */
  predicate LineOk(c: Config, line: Line<Renditions, Part>, k: Key, taken: seq<Group>) {
    && line.packager.Keys <= {k}
    && (k in line.packager ==> StreamId(c, k.groupId, k.kind).Some? && SegmenterOk(line.packager[k].segmenter))
    && BytesOf(line.parts) + BufferOf(Packager(line.packager, line.parts), k) == PayloadsOf(taken)
  }

  lemma {:induction false} BytesConcat(a: seq<Part>, b: seq<Part>)
    ensures BytesOf(a + b) == BytesOf(a) + BytesOf(b)
  {
    if b == [] {
      assert a + b == a;
    } else {
      assert (a + b)[..|a + b| - 1] == a + b[..|b| - 1];
      BytesConcat(a, b[..|b| - 1]);
    }
  }

  /** A sound emission moves bytes from the buffer to the parts and adds those of `more`. */
  lemma SoundBytes(before: Segmenter, more: seq<Group>, after: Segmenter, parts: seq<Part>)
    requires SegmenterOk(before) && Sound(before, more, after, parts)
    ensures BytesOf(parts) + after.bytes == before.bytes + PayloadsOf(more)
  {
    PartsCarryGroups(parts);
    PayloadsConcat(GroupsOf(parts), after.held);
    PayloadsConcat(before.held, more);
  }

  lemma MoveBytes(done: seq<u8>, buffer: seq<u8>, total: seq<u8>, out: seq<u8>, buffer': seq<u8>, more: seq<u8>)
    requires done + buffer == total && out + buffer' == buffer + more
    ensures (done + out) + buffer' == total + more
  {
    assert (done + out) + buffer' == done + (out + buffer');
    assert done + (buffer + more) == (done + buffer) + more;
  }

  lemma LineAdvances(done: seq<Part>, buffer: seq<u8>, taken: seq<Group>, more: seq<Group>, parts: seq<Part>, buffer': seq<u8>)
    requires BytesOf(done) + buffer == PayloadsOf(taken)
    requires BytesOf(parts) + buffer' == buffer + PayloadsOf(more)
    ensures BytesOf(done + parts) + buffer' == PayloadsOf(taken + more)
  {
    BytesConcat(done, parts);
    PayloadsConcat(taken, more);
    MoveBytes(BytesOf(done), buffer, PayloadsOf(taken), BytesOf(parts), buffer', PayloadsOf(more));
  }

  lemma PackageKeepsLine(c: Config, published: nat -> bool, line: Line<Renditions, Part>, k: Key, taken: seq<Group>, g: Group)
    requires LineOk(c, line, k, taken) && KeyOf(g) == k && forall n :: published(n)
    ensures var p := PackageStep(c, published, Packager(line.packager, line.parts), g);
      LineOk(c, Line(p.renditions, p.parts), k, taken + if Packable(c, g) then [g] else [])
  {
    var more := if Packable(c, g) then [g] else [];
    assert taken + [] == taken && line.parts + [] == line.parts;
    PackageStepIs(c, published, AsPackager(line), g);
    if !Refused(c, AsPackager(line), g) {
      var r := RenditionFor(c, AsPackager(line), g);
      var e := PackageInto(r, g, published, |line.parts|);
      PackageIsSound(r, g, published, |line.parts|);
      SoundBytes(r.segmenter, more, e.state.segmenter, e.parts);
      LineAdvances(line.parts, r.segmenter.bytes, taken, more, e.parts, e.state.segmenter.bytes);
    }
  }

  lemma FinishKeepsLine(c: Config, published: nat -> bool, line: Line<Renditions, Part>, k: Key, taken: seq<Group>)
    requires LineOk(c, line, k, taken)
    ensures LineOk(c, Line(map[], line.parts + FinishKey(line.packager, k, published, |line.parts|).parts), k, taken)
  {
    assert line.parts + [] == line.parts && taken + [] == taken;
    if k in line.packager {
      var s := line.packager[k].segmenter;
      var e := Flush(s, published, |line.parts|);
      FlushIsSound(s, published, |line.parts|);
      SoundBytes(s, [], e.state, e.parts);
      FlushSound(s, published, |line.parts|);
      LineAdvances(line.parts, s.bytes, taken, [], e.parts, []);
    }
  }

  /** The sequential reference loses no byte across any number of worker ends. */
  lemma {:induction false} ItemsAreByteExact(c: Config, formats: set<PayloadKind>, published: Key -> (nat -> bool),
                                             k: Key, items: seq<Item>)
    requires ItemsOfKey(items, k) && forall n :: published(k)(n)
    ensures LineOk(c, RunItems(OpaqueSettings(c, formats, published), k, items), k, PackableOf(c, GroupsIn(items)))
  {
    if items != [] {
      var before, last := items[..|items| - 1], items[|items| - 1];
      assert last in items && forall i :: i in before ==> i in items;
      ItemsAreByteExact(c, formats, published, k, before);
      var line := RunItems(OpaqueSettings(c, formats, published), k, before);
      if last.Sent? {
        PackageKeepsLine(c, published(k), line, k, PackableOf(c, GroupsIn(before)), last.group);
        assert (GroupsIn(before) + [last.group])[..|GroupsIn(before)|] == GroupsIn(before);
      } else {
        assert GroupsIn(before) + [] == GroupsIn(before);
        FinishKeepsLine(c, published(k), line, k, PackableOf(c, GroupsIn(before)));
      }
    }
  }

  lemma {:induction false} ForKeyHasKey(groups: seq<Group>, k: Key)
    ensures forall g :: g in ForKey(groups, k) ==> KeyOf(g) == k
  {
    if groups != [] { ForKeyHasKey(groups[..|groups| - 1], k); }
  }

  lemma {:induction false} SentIsIn(items: seq<Item>)
    ensures forall i :: i in items && i.Sent? ==> i.group in GroupsIn(items)
  {
    if items != [] {
      var before := items[..|items| - 1];
      SentIsIn(before);
      forall i | i in items && i.Sent? ensures i.group in GroupsIn(items) {
        if i in before { assert i.group in GroupsIn(before); }
      }
    }
  }

  /** End to end: whatever the schedule, the idle sweeps and the queue blocking, after a stop
      with every publish accepted, the bytes published for a key are exactly the payloads of
      its packable accepted groups, in arrival order. */
  lemma PublishedBytesAreAcceptedBytes(c: Config, formats: set<PayloadKind>, published: Key -> (nat -> bool),
                                       steps: seq<Step>, k: Key)
    requires ApplyAll(OpaqueSettings(c, formats, published), steps).phase.Stopped?
    requires forall n :: published(k)(n)
    ensures var s := ApplyAll(OpaqueSettings(c, formats, published), steps);
      BytesOf(PartsAt(s, k)) == PayloadsOf(PackableOf(c, ForKey(s.accepted, k)))
  {
    var settings := OpaqueSettings(c, formats, published);
    var s := ApplyAll(settings, steps);
    ScheduleIsSequential(settings, steps, k);
    StoppedIsFlushed(settings, steps, k);
    var items := HistoryAt(s, k);
    ForKeyHasKey(s.accepted, k);
    SentIsIn(items);
    ItemsAreByteExact(c, formats, published, k, items);
    assert BytesOf(PartsAt(s, k)) + [] == BytesOf(PartsAt(s, k));
  }

  /** Once stopped, the sequential packager of every key has been ended. */
  lemma StoppedIsFlushed<W, P>(c: Settings<W, P>, steps: seq<Step>, k: Key)
    requires ApplyAll(c, steps).phase.Stopped?
    ensures var s := ApplyAll(c, steps); RunItems(c, k, HistoryAt(s, k)).packager == c.initial
  {
    RunKeepsInv(c, steps);
    var s := ApplyAll(c, steps);
    assert KeyOk(c, s, k);
    assert HistoryAt(s, k)[..|HistoryAt(s, k)|] == HistoryAt(s, k);
  }

  // ---------------------------------------------------------------- continuity, end to end

  /** A worker's renditions are those of its key, in good order. */
  ghost predicate LineShape(line: Line<Renditions, Part>, k: Key) {
    && line.packager.Keys <= {k}
    && (k in line.packager ==> SegmenterOk(line.packager[k].segmenter) && HeldFormat(line.packager[k]))
  }

  lemma PackageRunsIff(c: Config, published: nat -> bool, line: Line<Renditions, Part>, k: Key, g: Group)
    requires LineShape(line, k) && KeyOf(g) == k
    ensures var p := PackageStep(c, published, AsPackager(line), g);
      && LineShape(Line(p.renditions, p.parts), k)
      && (AllRuns(p, k) <==> AllRuns(AsPackager(line), k) && !TearsNow(AsPackager(line), g))
  {
    PackageStepIs(c, published, AsPackager(line), g);
    if !Refused(c, AsPackager(line), g) {
      var r := RenditionFor(c, AsPackager(line), g);
      var n := |line.parts|;
      PackageIsSound(r, g, published, n);
      PackageKeepsFormat(r, g, published, n);
      PartsAreRunsConcat(line.parts, PackageInto(r, g, published, n).parts);
      if IsRun(r.segmenter.held) { PackageTearsIff(r, g, published, n); } else { TornStaysTorn(r, g, published, n); }
    }
  }

  /** Ending a worker hands its buffer over, torn or not. */
  lemma FinishRunsIff(published: nat -> bool, line: Line<Renditions, Part>, k: Key)
    requires LineShape(line, k)
    ensures PartsAreRuns(line.parts + FinishKey(line.packager, k, published, |line.parts|).parts)
       <==> AllRuns(AsPackager(line), k)
  {
    var parts := FinishKey(line.packager, k, published, |line.parts|).parts;
    PartsAreRunsConcat(line.parts, parts);
    if k in line.packager {
      FlushSound(line.packager[k].segmenter, published, |line.parts|);
      if parts != [] { assert parts[0] in parts && parts[0].groups == line.packager[k].segmenter.held; }
    }
  }

  /** No group of the history tore the buffer it was appended to. */
  ghost predicate NeverTearsItems(settings: Settings<Renditions, Part>, k: Key, items: seq<Item>) {
    items == [] ||
    (var before, last := items[..|items| - 1], items[|items| - 1];
     && NeverTearsItems(settings, k, before)
     && (last.Sent? ==> !TearsNow(AsPackager(RunItems(settings, k, before)), last.group)))
  }

  lemma {:induction false} ItemsAreRunsIff(c: Config, formats: set<PayloadKind>, published: Key -> (nat -> bool),
                                           k: Key, items: seq<Item>)
    requires ItemsOfKey(items, k)
    ensures var settings := OpaqueSettings(c, formats, published);
      var line := RunItems(settings, k, items);
      LineShape(line, k) && (AllRuns(AsPackager(line), k) <==> NeverTearsItems(settings, k, items))
  {
    if items != [] {
      var settings := OpaqueSettings(c, formats, published);
      var before, last := items[..|items| - 1], items[|items| - 1];
      assert last in items && forall i :: i in before ==> i in items;
      ItemsAreRunsIff(c, formats, published, k, before);
      var line := RunItems(settings, k, before);
      if last.Sent? {
        PackageRunsIff(c, published(k), line, k, last.group);
      } else {
        FinishRunsIff(published(k), line, k);
      }
    }
  }

  /** End to end: on any schedule and under any publish failures, after a stop every part a key
      handed over is one run of same-format, PTS-contiguous groups exactly when no group of its
      history tore the buffer. */
  lemma PublishedPartsAreRunsIff(c: Config, formats: set<PayloadKind>, published: Key -> (nat -> bool),
                                 steps: seq<Step>, k: Key)
    requires ApplyAll(OpaqueSettings(c, formats, published), steps).phase.Stopped?
    ensures var settings := OpaqueSettings(c, formats, published);
      var s := ApplyAll(settings, steps);
      PartsAreRuns(PartsAt(s, k)) <==> NeverTearsItems(settings, k, HistoryAt(s, k))
  {
    var settings := OpaqueSettings(c, formats, published);
    var s := ApplyAll(settings, steps);
    ScheduleIsSequential(settings, steps, k);
    StoppedIsFlushed(settings, steps, k);
    ForKeyHasKey(s.accepted, k);
    SentIsIn(HistoryAt(s, k));
    ItemsAreRunsIff(c, formats, published, k, HistoryAt(s, k));
  }

  ghost predicate LineInStep(line: Line<Renditions, Part>, k: Key) {
    k in line.packager ==> RunOk(line.packager[k])
  }

  lemma PackageStaysInStep(c: Config, published: nat -> bool, line: Line<Renditions, Part>, k: Key, g: Group)
    requires LineShape(line, k) && LineInStep(line, k) && KeyOf(g) == k && g.sampleRate >= 1_000
    ensures !TearsNow(AsPackager(line), g)
    ensures var p := PackageStep(c, published, AsPackager(line), g); LineInStep(Line(p.renditions, p.parts), k)
  {
    PackageStepIs(c, published, AsPackager(line), g);
    if !Refused(c, AsPackager(line), g) {
      var r := RenditionFor(c, AsPackager(line), g);
      AudioRatesNeverSkip(r, g);
      InStepNeverTears(r, g);
      PackageKeepsStep(r, g, published, |line.parts|);
    }
  }

  lemma {:induction false} AudioItemsNeverTear(c: Config, formats: set<PayloadKind>, published: Key -> (nat -> bool),
                                               k: Key, items: seq<Item>)
    requires ItemsOfKey(items, k) && forall i :: i in items && i.Sent? ==> i.group.sampleRate >= 1_000
    ensures var settings := OpaqueSettings(c, formats, published);
      NeverTearsItems(settings, k, items) && LineInStep(RunItems(settings, k, items), k)
  {
    if items != [] {
      var before, last := items[..|items| - 1], items[|items| - 1];
      assert last in items && forall i :: i in before ==> i in items;
      AudioItemsNeverTear(c, formats, published, k, before);
      ItemsAreRunsIff(c, formats, published, k, before);
      var line := RunItems(OpaqueSettings(c, formats, published), k, before);
      if last.Sent? { PackageStaysInStep(c, published(k), line, k, last.group); }
    }
  }

  lemma {:induction false} ForKeyIn(groups: seq<Group>, k: Key)
    ensures forall g :: g in ForKey(groups, k) ==> g in groups
  {
    if groups != [] { ForKeyIn(groups[..|groups| - 1], k); }
  }

  /** For audio rates every part published on any schedule and under any publish failures is
      one run. */
  lemma PublishedAudioPartsAreRuns(c: Config, formats: set<PayloadKind>, published: Key -> (nat -> bool),
                                   steps: seq<Step>, k: Key)
    requires var s := ApplyAll(OpaqueSettings(c, formats, published), steps);
      s.phase.Stopped? && forall g :: g in s.accepted ==> g.sampleRate >= 1_000
    ensures PartsAreRuns(PartsAt(ApplyAll(OpaqueSettings(c, formats, published), steps), k))
  {
    var settings := OpaqueSettings(c, formats, published);
    var s := ApplyAll(settings, steps);
    ScheduleIsSequential(settings, steps, k);
    ForKeyHasKey(s.accepted, k);
    ForKeyIn(s.accepted, k);
    SentIsIn(HistoryAt(s, k));
    AudioItemsNeverTear(c, formats, published, k, HistoryAt(s, k));
    PublishedPartsAreRunsIff(c, formats, published, steps, k);
  }
}
