/** The probe's pipelined part fetcher: eight requests in flight, retries, a baseline that
    may move before media starts, and restarts on a new connection. One step per response. */
module PipelinedFetches {
  import opened Wrappers
  import opened Words
  import opened PartCoverages

  const DEPTH: nat := 8

  // ---------------------------------------------------------------- the window

  datatype WindowError =
    NoPartLength | TooLong | StartOutside | StartUnaligned | EmptyWindow | EndOutside | EndUnaligned

  function WindowEnd(durationSeconds: u64, startOffset: u64, windowSeconds: Option<u64>, partMs: u64)
    : Result<u64, WindowError>
  {
    var duration := durationSeconds * 1000;
    if partMs == 0 then Err(NoPartLength)
    else if duration > U64_MAX then Err(TooLong)
    else if startOffset >= duration then Err(StartOutside)
    else if startOffset % partMs != 0 then Err(StartUnaligned)
    else if windowSeconds == Some(0) then Err(EmptyWindow)
    else
      var end := if windowSeconds.None? then duration else startOffset + windowSeconds.value * 1000;
      if end > U64_MAX then Err(TooLong)
      else if end > duration then Err(EndOutside)
      else if end % partMs != 0 then Err(EndUnaligned)
      else Ok(end)
  }

  datatype Plan = Plan(startOffset: u64, endOffset: u64, partMs: u64) {
    /** What a computed window end guarantees. */
    ghost predicate Valid() {
      && partMs > 0 && startOffset < endOffset
      && startOffset % partMs == 0 && endOffset % partMs == 0
    }

    function StartSequence(): nat
      requires partMs > 0
    {
      startOffset / partMs
    }

    function Expected(): nat
      requires partMs > 0
    {
      SatSub(endOffset, startOffset) / partMs
    }
  }

  lemma DivideExactly(x: nat, m: nat)
    requires m > 0 && x % m == 0
    ensures x == x / m * m
  {
  }

  lemma QuotientOf(q: nat, m: nat)
    requires m > 0
    ensures q * m / m == q && q * m % m == 0
  {
    Bits.ModUnique(q * m, m, q, 0);
  }

  lemma OrderOfMultiples(a: nat, b: nat, m: nat)
    requires m > 0
    ensures a * m < b * m <==> a < b
  {
    if a < b { Bits.MulGap(a, b, m); }
    if b < a { Bits.MulGap(b, a, m); }
  }

  /** The end is the media's own or the start plus the window asked for; it is refused exactly when
      the start or the end is not on a part boundary inside the media. */
  lemma WindowEndIff(durationSeconds: u64, startOffset: u64, windowSeconds: Option<u64>, partMs: u64, end: nat)
    ensures WindowEnd(durationSeconds, startOffset, windowSeconds, partMs) == Ok(end) <==>
      && partMs > 0 && 1_000 * durationSeconds <= U64_MAX
      && startOffset < 1_000 * durationSeconds && startOffset % partMs == 0
      && windowSeconds != Some(0)
      && end == (if windowSeconds.None? then 1_000 * durationSeconds else startOffset + 1_000 * windowSeconds.value)
      && end <= 1_000 * durationSeconds && end % partMs == 0
  {
  }

  /** A computed window end makes a valid plan of at least one part. */
  lemma WindowEndIsValid(durationSeconds: u64, startOffset: u64, windowSeconds: Option<u64>, partMs: u64)
    requires WindowEnd(durationSeconds, startOffset, windowSeconds, partMs).Ok?
    ensures var plan := Plan(startOffset, WindowEnd(durationSeconds, startOffset, windowSeconds, partMs).value, partMs);
            plan.Valid() && plan.Expected() >= 1
            && plan.startOffset + plan.Expected() * partMs == plan.endOffset
  {
    var end := WindowEnd(durationSeconds, startOffset, windowSeconds, partMs).value;
    var plan := Plan(startOffset, end, partMs);
    PlanSize(plan);
  }

  lemma PlanSize(plan: Plan)
    requires plan.Valid()
    ensures plan.startOffset == plan.StartSequence() * plan.partMs
    ensures plan.Expected() >= 1 && plan.startOffset + plan.Expected() * plan.partMs == plan.endOffset
  {
    var m := plan.partMs;
    DivideExactly(plan.startOffset, m);
    DivideExactly(plan.endOffset, m);
    var a, b := plan.startOffset / m, plan.endOffset / m;
    OrderOfMultiples(a, b, m);
    assert plan.endOffset - plan.startOffset == (b - a) * m;
    QuotientOf(b - a, m);
  }

  // ---------------------------------------------------------------- positions

  function NominalPts(sequence: u64, baseline: u64, plan: Plan): Option<u64> {
    if sequence < baseline then None
    else
      var relative := (sequence - baseline) * plan.partMs;
      if relative > U64_MAX || plan.startOffset + relative > U64_MAX then None
      else Some(plan.startOffset + relative)
  }

  /** The position of a fetched object falls inside the window exactly when fewer than the
      expected number of parts precede it, and then its index in the coverage is its distance
      from the baseline. */
  lemma NominalIndex(sequence: u64, baseline: u64, plan: Plan)
    requires plan.Valid() && NominalPts(sequence, baseline, plan).Some?
    ensures var pts := NominalPts(sequence, baseline, plan).value;
      && pts >= plan.startOffset
      && (pts < plan.endOffset <==> sequence - baseline < plan.Expected())
      && (sequence - baseline < plan.Expected() ==>
            RelativeOf(plan.StartSequence(), plan.partMs, plan.Expected(), pts) == Some(sequence - baseline))
  {
    var m, d := plan.partMs, sequence - baseline;
    PlanSize(plan);
    OrderOfMultiples(d, plan.Expected(), m);
    assert plan.startOffset + d * m == (plan.StartSequence() + d) * m;
    QuotientOf(plan.StartSequence() + d, m);
  }

  datatype Playlist = Playlist(first: Option<u64>, next: u64)

  function Refreshed(current: u64, playlist: Playlist): u64 {
    match playlist.first
    case Some(first) => if current < first then first else current
    case None => if current < playlist.next then playlist.next else current
  }

  /** Everything before `sequence` is out of the playlist's reach: it lists nothing earlier, or
      lists nothing at all and goes on from there. */
  predicate Reachable(playlist: Playlist, sequence: nat) {
    (playlist.first.Some? ==> playlist.first.value <= sequence) && (playlist.first.None? ==> playlist.next <= sequence)
  }

  /** The refreshed baseline is the least one that gives up nothing passed already and asks for
      nothing the playlist no longer has; refreshing again with it, or with any playlist it is
      not behind, changes nothing. */
  lemma RefreshIsLeast(current: u64, playlist: Playlist)
    ensures var r := Refreshed(current, playlist);
      && current <= r && Reachable(playlist, r)
      && (forall x: nat :: current <= x && Reachable(playlist, x) ==> r <= x)
      && (forall other: Playlist :: Reachable(other, r) <==> Refreshed(r, other) == r)
  {
  }

  // ---------------------------------------------------------------- the loop

  /** `lost` is history: window objects answered before the session began and not requested since. */
  datatype Fetch = Fetch(
    baseline: u64, next: u64, inFlight: multiset<u64>, covered: set<nat>, started: bool, aborted: bool,
    lost: set<u64>)

  /** Completion of one request: media (before the session's start or not), nothing there yet
      (with what a playlist fetched meanwhile says), a broken connection, or anything else. */
  datatype Event =
    | Media(sequence: u64, early: bool)
    | Missing(sequence: u64, playlist: Option<Playlist>)
    | Broken(sequence: u64)
    | Unexpected(sequence: u64)

  function Fill(s: Fetch): Fetch
    decreases DEPTH - |s.inFlight|
  {
    if |s.inFlight| >= DEPTH then s
    else Fill(s.(inFlight := s.inFlight + multiset{s.next}, next := SatAdd(s.next, 1)))
  }

  function Init(baseline: u64): Fetch {
    Fill(Fetch(baseline, baseline, multiset{}, {}, false, false, {}))
  }

  function ScheduleNext(plan: Plan, s: Fetch): Fetch
    requires plan.partMs > 0
  {
    if |s.covered| < plan.Expected()
    then s.(inFlight := s.inFlight + multiset{s.next}, next := SatAdd(s.next, 1)) else s
  }

  function Place(plan: Plan, s: Fetch, sequence: u64, pts: u64, early: bool): Fetch
    requires plan.partMs > 0
  {
    var relative := RelativeOf(plan.StartSequence(), plan.partMs, plan.Expected(), pts);
    if !(plan.startOffset <= pts < plan.endOffset) || relative.None? || relative.value in s.covered then s
    else if early then s.(lost := s.lost + {sequence})
    else s.(covered := s.covered + {relative.value})
  }

  function OnMedia(plan: Plan, s: Fetch, sequence: u64, early: bool): Fetch
    requires plan.partMs > 0
  {
    var s1 := s.(inFlight := s.inFlight - multiset{sequence}, started := true);
    match NominalPts(sequence, s.baseline, plan)
    case None => s1.(aborted := true)
    case Some(pts) => ScheduleNext(plan, Place(plan, s1, sequence, pts, early))
  }

  function Rebase(s: Fetch, playlist: Option<Playlist>): Fetch {
    if s.started || playlist.None? then s
    else
      var baseline := Refreshed(s.baseline, playlist.value);
      if baseline == s.baseline then s else s.(baseline := baseline, next := Max(s.next, baseline))
  }

  function OnMissing(plan: Plan, s: Fetch, sequence: u64, playlist: Option<Playlist>): Fetch
    requires plan.partMs > 0
  {
    var s1 := Rebase(s.(inFlight := s.inFlight - multiset{sequence}), playlist);
    if sequence >= s1.baseline then s1.(inFlight := s1.inFlight + multiset{sequence}) else ScheduleNext(plan, s1)
  }

  /** Least index from `at` on that is not covered, or `n`. */
  function FirstMissing(covered: set<nat>, at: nat, n: nat): (r: nat)
    requires at <= n
    ensures at <= r <= n && (r < n ==> r !in covered) && forall x: nat :: at <= x < r ==> x in covered
    decreases n - at
  {
    if at == n || at !in covered then at else FirstMissing(covered, at + 1, n)
  }

  /** Everything in flight is lost with the connection: restart at the first part missing. */
  function OnBroken(plan: Plan, s: Fetch): Fetch
    requires plan.partMs > 0
  {
    var restart := SatAdd(s.baseline, FirstMissing(s.covered, 0, plan.Expected()));
    Fill(s.(inFlight := multiset{}, next := restart, lost := {}))
  }

  function Step(plan: Plan, s: Fetch, e: Event): Fetch
    requires plan.partMs > 0
  {
    match e
    case Media(q, early) => OnMedia(plan, s, q, early)
    case Missing(q, playlist) => OnMissing(plan, s, q, playlist)
    case Broken(_) => OnBroken(plan, s)
    case Unexpected(q) => s.(inFlight := s.inFlight - multiset{q}, aborted := true)
  }

  /** The loop goes on, and the response is to a request in flight. */
  predicate Enabled(plan: Plan, s: Fetch, e: Event)
    requires plan.partMs > 0
  {
    !s.aborted && |s.covered| < plan.Expected() && e.sequence in s.inFlight
  }

  /** Events that cannot happen are skipped, so every list of events is a run. */
  function Run(plan: Plan, first: u64, events: seq<Event>): Fetch
    requires plan.partMs > 0
  {
    if events == [] then Init(first)
    else
      var s := Run(plan, first, events[..|events| - 1]);
      var e := events[|events| - 1];
      if Enabled(plan, s, e) then Step(plan, s, e) else s
  }
}
