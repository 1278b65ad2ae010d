/** What every run of the pipelined fetcher keeps: no hole opens unnoticed, no part is
    fetched twice on one connection, and a finished run has the whole window. */
module PipelinedFetchRuns {
  import opened Wrappers
  import opened Words
  import opened Sets
  import opened PartCoverages
  import opened PipelinedFetches

  /** An object of the window that has been requested at some time. */
  ghost predicate Requested(plan: Plan, s: Fetch, q: nat)
    requires plan.partMs > 0
  {
    s.baseline <= q < s.next && q - s.baseline < plan.Expected()
  }

  /** Requested, not covered and no longer in flight. */
  ghost predicate Hole(plan: Plan, s: Fetch, q: nat)
    requires plan.partMs > 0
  {
    Requested(plan, s, q) && q - s.baseline !in s.covered && q !in s.inFlight
  }

  ghost predicate HolesAreLost(plan: Plan, s: Fetch)
    requires plan.partMs > 0
  {
    forall q: nat :: q < U64_MAX ==> (Hole(plan, s, q) <==> q in s.lost)
  }

  /** Requests in flight are distinct and were handed out before `next`, but for the greatest
      sequence, at which the counter stands still. */
  ghost predicate RequestsDistinct(s: Fetch) {
    forall q: u64 :: q in s.inFlight ==> (s.inFlight[q] == 1 && q < s.next) || q == s.next == U64_MAX
  }

  /** Until media starts nothing is covered, and everything from the baseline on stays in flight,
      whatever window the baseline implies. */
  ghost predicate BeforeMedia(s: Fetch) {
    !s.started ==> s.covered == {} && s.lost == {} && forall q: nat :: s.baseline <= q < s.next ==> q in s.inFlight
  }

  ghost predicate Inv(plan: Plan, s: Fetch)
    requires plan.partMs > 0
  {
    && s.baseline <= s.next
    && (forall r :: r in s.covered ==> r < plan.Expected())
    && BeforeMedia(s)
    && RequestsDistinct(s)
    && (|s.covered| < plan.Expected() ==> |s.inFlight| == DEPTH)
    && HolesAreLost(plan, s)
  }

  // ---------------------------------------------------------------- filling the pipeline

  /** Filling hands out the sequences from `next` on, once each, up to the full depth. */
  lemma {:induction false} FillRequests(s: Fetch)
    requires |s.inFlight| <= DEPTH
    ensures var t := Fill(s);
      && t.next == Min(U64_MAX, s.next + (DEPTH - |s.inFlight|)) && |t.inFlight| == DEPTH
      && t == s.(next := t.next, inFlight := t.inFlight)
      && (forall q: nat :: q < U64_MAX ==>
            t.inFlight[q] == s.inFlight[q] + if s.next <= q < t.next then 1 else 0)
      && (U64_MAX in t.inFlight ==> U64_MAX in s.inFlight || t.next == U64_MAX)
    decreases DEPTH - |s.inFlight|
  {
    if |s.inFlight| < DEPTH {
      FillRequests(s.(inFlight := s.inFlight + multiset{s.next}, next := SatAdd(s.next, 1)));
    }
  }

  // ---------------------------------------------------------------- one step

  lemma {:induction false} FillKeepsBaseline(s: Fetch)
    ensures Fill(s).baseline == s.baseline && Fill(s).started == s.started && Fill(s).lost == s.lost
    decreases DEPTH - |s.inFlight|
  {
    if |s.inFlight| < DEPTH {
      FillKeepsBaseline(s.(inFlight := s.inFlight + multiset{s.next}, next := SatAdd(s.next, 1)));
    }
  }

  /** The run begins with the first eight requests and nothing else. */
  lemma InitRequests(first: u64)
    ensures var s := Init(first);
      && s.baseline == first && s.next == Min(U64_MAX, first + 8) && |s.inFlight| == 8
      && s.covered == {} && !s.started && s.lost == {} && !s.aborted
      && (forall q: nat :: q < U64_MAX ==> s.inFlight[q] == if first <= q < s.next then 1 else 0)
      && (U64_MAX in s.inFlight ==> s.next == U64_MAX)
  {
    FillRequests(Fetch(first, first, multiset{}, {}, false, false, {}));
  }

  lemma InitKeepsInv(plan: Plan, first: u64)
    requires plan.Valid()
    ensures Inv(plan, Init(first))
  {
    PlanSize(plan);
    InitRequests(first);
  }

  /** Handing out one more request keeps everything, whether or not the window is complete. */
  lemma ScheduleKeepsInv(plan: Plan, s: Fetch)
    requires plan.Valid()
    requires s.baseline <= s.next && RequestsDistinct(s) && HolesAreLost(plan, s) && BeforeMedia(s)
    requires |s.inFlight| == DEPTH - 1
    requires forall r :: r in s.covered ==> r < plan.Expected()
    ensures Inv(plan, ScheduleNext(plan, s))
  {
    var t := ScheduleNext(plan, s);
    if |s.covered| < plan.Expected() {
      forall q: nat | q < U64_MAX ensures Hole(plan, t, q) <==> q in t.lost {
        assert Hole(plan, t, q) <==> Hole(plan, s, q);
        assert Hole(plan, s, q) <==> q in s.lost;
      }
    }
  }

  /** The outcome of a media response: a part of the window is covered or, when it came early,
      lost; anything else changes no part. */
  lemma PlaceIs(plan: Plan, s: Fetch, q: nat, early: bool)
    requires plan.Valid() && q <= U64_MAX && NominalPts(q, s.baseline, plan).Some?
    ensures Place(plan, s, q, NominalPts(q, s.baseline, plan).value, early)
         == if q - s.baseline >= plan.Expected() || q - s.baseline in s.covered then s
            else if early then s.(lost := s.lost + {q})
            else s.(covered := s.covered + {q - s.baseline})
  {
    NominalIndex(q, s.baseline, plan);
  }

  /** Taking a request out of flight can only open a hole at its own sequence. */
  lemma TakenHoles(plan: Plan, s: Fetch, q: nat, x: nat)
    requires plan.Valid() && Inv(plan, s) && q in s.inFlight && x < U64_MAX
    ensures var s1 := s.(inFlight := s.inFlight - multiset{q}, started := true);
      Hole(plan, s1, x) <==> Hole(plan, s, x) || (x == q && Requested(plan, s, q) && q - s.baseline !in s.covered)
  {
    var s1 := s.(inFlight := s.inFlight - multiset{q}, started := true);
    assert x != q ==> s1.inFlight[x] == s.inFlight[x];
  }

  lemma PlaceKeepsHoles(plan: Plan, s: Fetch, q: nat, early: bool)
    requires plan.Valid() && Inv(plan, s) && q in s.inFlight && NominalPts(q, s.baseline, plan).Some?
    ensures var s1 := s.(inFlight := s.inFlight - multiset{q}, started := true);
            HolesAreLost(plan, Place(plan, s1, q, NominalPts(q, s.baseline, plan).value, early))
  {
    var s1 := s.(inFlight := s.inFlight - multiset{q}, started := true);
    PlaceIs(plan, s1, q, early);
    var t := Place(plan, s1, q, NominalPts(q, s.baseline, plan).value, early);
    forall x: nat | x < U64_MAX ensures Hole(plan, t, x) <==> x in t.lost {
      TakenHoles(plan, s, q, x);
      PlacedHole(plan, s1, q, early, t, x);
      assert Hole(plan, s, x) <==> x in s.lost;
    }
  }

  /** Covering a part closes the hole at its sequence; nothing else does. */
  lemma PlacedHole(plan: Plan, s: Fetch, q: u64, early: bool, t: Fetch, x: nat)
    requires plan.partMs > 0 && s.baseline <= q
    requires t == if q - s.baseline >= plan.Expected() || q - s.baseline in s.covered then s
                  else if early then s.(lost := s.lost + {q})
                  else s.(covered := s.covered + {q - s.baseline})
    ensures Hole(plan, t, x) <==> Hole(plan, s, x) && (t.covered == s.covered || x != q)
  {
  }

  lemma MediaKeepsInv(plan: Plan, s: Fetch, q: u64, early: bool)
    requires plan.Valid() && Inv(plan, s) && Enabled(plan, s, Media(q, early))
    ensures var t := OnMedia(plan, s, q, early); !t.aborted ==> Inv(plan, t)
  {
    if NominalPts(q, s.baseline, plan).Some? {
      var s1 := s.(inFlight := s.inFlight - multiset{q}, started := true);
      PlaceIs(plan, s1, q, early);
      PlaceKeepsHoles(plan, s, q, early);
      ScheduleKeepsInv(plan, Place(plan, s1, q, NominalPts(q, s.baseline, plan).value, early));
    }
  }

  /** Moving the baseline before media starts opens no hole: all from the old one on is in flight. */
  lemma RebaseKeepsInFlight(s: Fetch, q: u64, playlist: Option<Playlist>)
    requires BeforeMedia(s) && s.baseline <= s.next
    ensures var s1 := Rebase(s.(inFlight := s.inFlight - multiset{q}), playlist);
      && s.baseline <= s1.baseline <= s1.next
      && s1 == s.(baseline := s1.baseline, next := s1.next, inFlight := s.inFlight - multiset{q})
      && (s.started ==> s1.baseline == s.baseline && s1.next == s.next)
      && (!s.started ==> forall x: nat :: s1.baseline <= x < s1.next ==> x in s.inFlight)
      && s.next <= s1.next
  {
  }

  lemma RetryKeepsInv(plan: Plan, s: Fetch, q: u64, playlist: Option<Playlist>)
    requires plan.Valid() && Inv(plan, s) && Enabled(plan, s, Missing(q, playlist))
    requires q >= Rebase(s.(inFlight := s.inFlight - multiset{q}), playlist).baseline
    ensures Inv(plan, OnMissing(plan, s, q, playlist))
  {
    RebaseKeepsInFlight(s, q, playlist);
    var t := OnMissing(plan, s, q, playlist);
    assert t.inFlight == s.inFlight;
    forall x: nat | x < U64_MAX ensures Hole(plan, t, x) <==> x in t.lost {
      assert Hole(plan, s, x) <==> x in s.lost;
    }
  }

  lemma ReplaceKeepsInv(plan: Plan, s: Fetch, q: u64, playlist: Option<Playlist>)
    requires plan.Valid() && Inv(plan, s) && Enabled(plan, s, Missing(q, playlist))
    requires var s1 := Rebase(s.(inFlight := s.inFlight - multiset{q}), playlist);
             q < s1.baseline
    ensures Inv(plan, OnMissing(plan, s, q, playlist))
  {
    RebaseKeepsInFlight(s, q, playlist);
    var s1 := Rebase(s.(inFlight := s.inFlight - multiset{q}), playlist);
    forall x: nat | x < U64_MAX ensures Hole(plan, s1, x) <==> x in s1.lost {
      assert Hole(plan, s, x) <==> x in s.lost;
      assert x != q ==> s1.inFlight[x] == s.inFlight[x];
    }
    ScheduleKeepsInv(plan, s1);
  }

  lemma BrokenKeepsInv(plan: Plan, s: Fetch, q: u64)
    requires plan.Valid() && Inv(plan, s) && Enabled(plan, s, Broken(q))
    ensures Inv(plan, OnBroken(plan, s))
  {
    PlanSize(plan);
    var missing := FirstMissing(s.covered, 0, plan.Expected());
    var emptied := s.(inFlight := multiset{}, next := SatAdd(s.baseline, missing), lost := {});
    FillRequests(emptied);
    var t := OnBroken(plan, s);
    assert t == Fill(emptied);
    forall x: nat ensures !Hole(plan, t, x) {
      if s.baseline <= x < emptied.next { assert x - s.baseline in s.covered; }
    }
  }

  lemma StepKeepsInv(plan: Plan, s: Fetch, e: Event)
    requires plan.Valid() && Inv(plan, s) && Enabled(plan, s, e)
    ensures !Step(plan, s, e).aborted ==> Inv(plan, Step(plan, s, e))
  {
    match e
    case Media(q, early) => MediaKeepsInv(plan, s, q, early);
    case Missing(q, playlist) =>
      var s1 := Rebase(s.(inFlight := s.inFlight - multiset{q}), playlist);
      if q >= s1.baseline { RetryKeepsInv(plan, s, q, playlist); } else { ReplaceKeepsInv(plan, s, q, playlist); }
    case Broken(q) => BrokenKeepsInv(plan, s, q);
    case Unexpected(_) =>
  }

  // ---------------------------------------------------------------- all runs

  lemma {:induction false} RunKeepsInv(plan: Plan, first: u64, events: seq<Event>)
    requires plan.Valid()
    ensures !Run(plan, first, events).aborted ==> Inv(plan, Run(plan, first, events))
  {
    if events == [] {
      InitKeepsInv(plan, first);
    } else {
      var n := |events| - 1;
      RunKeepsInv(plan, first, events[..n]);
      var s := Run(plan, first, events[..n]);
      if Enabled(plan, s, events[n]) { StepKeepsInv(plan, s, events[n]); }
    }
  }

  /** While parts are missing there are eight distinct requests in flight, and the parts of the
      window requested but neither covered nor in flight are exactly the lost ones. */
  lemma HolesAreExactlyLost(plan: Plan, first: u64, events: seq<Event>)
    requires plan.Valid()
    ensures var s := Run(plan, first, events);
      !s.aborted ==>
        && (|s.covered| < plan.Expected() ==> |s.inFlight| == DEPTH && RequestsDistinct(s))
        && forall q: nat :: Requested(plan, s, q) ==>
             (q in s.lost <==> q - s.baseline !in s.covered && q !in s.inFlight)
  {
    RunKeepsInv(plan, first, events);
    var s := Run(plan, first, events);
    if !s.aborted {
      forall q: nat | Requested(plan, s, q)
        ensures q in s.lost <==> q - s.baseline !in s.covered && q !in s.inFlight
      {
        assert Hole(plan, s, q) <==> q in s.lost;
      }
    }
  }

  /** A run that ends with as many parts as expected has every part of the window. */
  lemma FinishedHasWholeWindow(plan: Plan, first: u64, events: seq<Event>)
    requires plan.Valid()
    ensures var s := Run(plan, first, events);
      !s.aborted ==> (|s.covered| >= plan.Expected() <==> s.covered == Below(plan.Expected()))
  {
    RunKeepsInv(plan, first, events);
    var s := Run(plan, first, events);
    if !s.aborted {
      SubsetSize(s.covered, Below(plan.Expected()));
    }
  }

  /** What the fetcher owes while it has not aborted: eight distinct requests in flight while parts
      are missing, no part of the window forgotten but the lost ones, and the expected number of
      parts only with the whole window. */
  ghost predicate Owes(plan: Plan, s: Fetch)
    requires plan.partMs > 0
  {
    !s.aborted ==>
      && RequestsDistinct(s) && (|s.covered| < plan.Expected() ==> |s.inFlight| == DEPTH)
      && (forall q: nat :: Requested(plan, s, q) ==> q - s.baseline in s.covered || q in s.inFlight || q in s.lost)
      && (|s.covered| >= plan.Expected() <==> s.covered == Below(plan.Expected()))
  }

  lemma InvOwes(plan: Plan, s: Fetch)
    requires plan.Valid() && (!s.aborted ==> Inv(plan, s))
    ensures Owes(plan, s)
  {
    if !s.aborted {
      forall q: nat | Requested(plan, s, q)
        ensures q - s.baseline in s.covered || q in s.inFlight || q in s.lost
      {
        assert Hole(plan, s, q) <==> q in s.lost;
      }
      SubsetSize(s.covered, Below(plan.Expected()));
    }
  }

  lemma StepOwes(plan: Plan, s: Fetch, e: Event)
    requires plan.Valid() && Inv(plan, s) && Enabled(plan, s, e)
    ensures var t := Step(plan, s, e); (!t.aborted ==> Inv(plan, t)) && Owes(plan, t)
  {
    StepKeepsInv(plan, s, e);
    InvOwes(plan, Step(plan, s, e));
  }

  // ---------------------------------------------------------------- what one response does

  function Window(plan: Plan): nat
    requires plan.partMs > 0
  {
    if plan.endOffset < plan.startOffset then 0 else (plan.endOffset - plan.startOffset) / plan.partMs
  }

  /** The next sequence goes out, unless as many parts are covered as expected. */
  ghost predicate HandsOut(plan: Plan, covered: set<nat>, next: u64, left: multiset<u64>, t: Fetch)
    requires plan.partMs > 0
  {
    if |covered| < Window(plan) then t.next == Min(U64_MAX, next + 1) && t.inFlight == left + multiset{next}
    else t.next == next && t.inFlight == left
  }

  /** The fetch aborts exactly when the position of the object does not exist or fit 64 bits.
      Otherwise a timely answer covers its part of the window, and one request replaces it. */
  ghost predicate MediaOwes(plan: Plan, s: Fetch, q: u64, early: bool, t: Fetch)
    requires plan.partMs > 0
  {
    && (t.aborted <==> q < s.baseline || plan.startOffset + (q - s.baseline) * plan.partMs > U64_MAX)
    && (!t.aborted ==>
          && t.started && t.baseline == s.baseline
          && t.covered == (if !early && q - s.baseline < Window(plan) then s.covered + {q - s.baseline} else s.covered)
          && HandsOut(plan, t.covered, s.next, s.inFlight - multiset{q}, t))
  }

  /** Until media starts the baseline moves to the least one the playlist still has. A request at or
      past it is repeated, any other is replaced by the next one not before it. */
  ghost predicate MissingOwes(plan: Plan, s: Fetch, q: u64, playlist: Option<Playlist>, t: Fetch)
    requires plan.partMs > 0
  {
    && t.started == s.started && t.covered == s.covered && t.aborted == s.aborted
    && (if s.started || playlist.None? then t.baseline == s.baseline
        else s.baseline <= t.baseline && Reachable(playlist.value, t.baseline)
             && forall x: nat :: s.baseline <= x && Reachable(playlist.value, x) ==> t.baseline <= x)
    && var next := if t.baseline == s.baseline then s.next else Max(s.next, t.baseline);
       if q >= t.baseline then t.inFlight == s.inFlight && t.next == next
       else HandsOut(plan, t.covered, next, s.inFlight - multiset{q}, t)
  }

  /** The eight sequences from the first part missing on go out, and only they. */
  ghost predicate BrokenOwes(plan: Plan, s: Fetch, t: Fetch)
    requires plan.partMs > 0
  {
    && t.baseline == s.baseline && t.covered == s.covered && t.started == s.started && !t.aborted && t.lost == {}
    && forall r: nat :: r < Window(plan) && r !in s.covered && (forall x: nat :: x < r ==> x in s.covered) ==>
         && t.next == Min(U64_MAX, s.baseline + r + 8) && |t.inFlight| == 8
         && forall q: nat :: q < U64_MAX ==> t.inFlight[q] == if s.baseline + r <= q < t.next then 1 else 0
  }

  lemma PositionExistsIff(plan: Plan, q: u64, baseline: u64)
    ensures NominalPts(q, baseline, plan).None? <==>
      q < baseline || plan.startOffset + (q - baseline) * plan.partMs > U64_MAX
  {
  }

  lemma PlacedKeepsPromise(plan: Plan, s: Fetch, q: u64, early: bool)
    requires plan.Valid() && Inv(plan, s) && Enabled(plan, s, Media(q, early))
    requires NominalPts(q, s.baseline, plan).Some?
    ensures var t := OnMedia(plan, s, q, early);
      && !t.aborted && t.started && t.baseline == s.baseline
      && t.covered == (if !early && q - s.baseline < Window(plan) then s.covered + {q - s.baseline} else s.covered)
      && HandsOut(plan, t.covered, s.next, s.inFlight - multiset{q}, t)
  {
    PlaceIs(plan, s.(inFlight := s.inFlight - multiset{q}, started := true), q, early);
    if q - s.baseline in s.covered { assert s.covered + {q - s.baseline} == s.covered; }
  }

  lemma MediaKeepsPromise(plan: Plan, s: Fetch, q: u64, early: bool)
    requires plan.Valid() && Inv(plan, s) && Enabled(plan, s, Media(q, early))
    ensures MediaOwes(plan, s, q, early, OnMedia(plan, s, q, early))
  {
    PositionExistsIff(plan, q, s.baseline);
    if NominalPts(q, s.baseline, plan).Some? { PlacedKeepsPromise(plan, s, q, early); }
  }

  lemma MissingKeepsPromise(plan: Plan, s: Fetch, q: u64, playlist: Option<Playlist>)
    requires plan.Valid() && Enabled(plan, s, Missing(q, playlist))
    ensures MissingOwes(plan, s, q, playlist, OnMissing(plan, s, q, playlist))
  {
    if playlist.Some? { RefreshIsLeast(s.baseline, playlist.value); }
    assert s.inFlight - multiset{q} + multiset{q} == s.inFlight;
  }

  lemma BrokenKeepsPromise(plan: Plan, s: Fetch, q: u64)
    requires plan.Valid() && Inv(plan, s) && Enabled(plan, s, Broken(q))
    ensures BrokenOwes(plan, s, OnBroken(plan, s))
  {
    var missing := FirstMissing(s.covered, 0, plan.Expected());
    FillRequests(s.(inFlight := multiset{}, next := SatAdd(s.baseline, missing), lost := {}));
    forall r: nat | r < Window(plan) && r !in s.covered && forall x: nat :: x < r ==> x in s.covered
      ensures r == missing
    {
      assert missing < plan.Expected() ==> missing !in s.covered;
    }
  }

  ghost predicate NoneEarly(events: seq<Event>) { forall e :: e in events ==> !(e.Media? && e.early) }

  lemma StepLosesNothing(plan: Plan, s: Fetch, e: Event)
    requires plan.partMs > 0 && s.lost == {} && !(e.Media? && e.early)
    ensures Step(plan, s, e).lost == {}
  {
    if e.Broken? {
      FillKeepsBaseline(s.(inFlight := multiset{},
                           next := SatAdd(s.baseline, FirstMissing(s.covered, 0, plan.Expected())), lost := {}));
    }
  }

  lemma {:induction false} NothingLostUnlessEarly(plan: Plan, first: u64, events: seq<Event>)
    requires plan.Valid() && NoneEarly(events)
    ensures Run(plan, first, events).lost == {}
  {
    if events == [] {
      FillKeepsBaseline(Fetch(first, first, multiset{}, {}, false, false, {}));
    } else {
      var n := |events| - 1;
      NothingLostUnlessEarly(plan, first, events[..n]);
      assert events[n] in events;
      StepLosesNothing(plan, Run(plan, first, events[..n]), events[n]);
    }
  }

  /** No hole ever opens when media only comes after the session began, through retries,
      moves of the baseline and new connections. */
  lemma NoHoleUnlessEarly(plan: Plan, first: u64, events: seq<Event>, q: nat)
    requires plan.Valid() && NoneEarly(events)
    requires !Run(plan, first, events).aborted && Requested(plan, Run(plan, first, events), q)
    ensures var s := Run(plan, first, events); q - s.baseline in s.covered || q in s.inFlight
  {
    HolesAreExactlyLost(plan, first, events);
    NothingLostUnlessEarly(plan, first, events);
  }

  // ---------------------------------------------------------------- a lost part stays lost

  lemma LostOnlyGrows(plan: Plan, s: Fetch, e: Event)
    requires plan.partMs > 0 && !e.Broken?
    ensures s.lost <= Step(plan, s, e).lost
  {
  }

  lemma {:induction false} LostStays(plan: Plan, first: u64, events: seq<Event>, more: seq<Event>, q: nat)
    requires plan.partMs > 0 && q in Run(plan, first, events).lost
    requires forall e :: e in more ==> !e.Broken?
    ensures q in Run(plan, first, events + more).lost
    decreases |more|
  {
    if more == [] {
      assert events + more == events;
    } else {
      var n := |more| - 1;
      assert (events + more)[..|events + more| - 1] == events + more[..n];
      LostStays(plan, first, events, more[..n], q);
      assert more[n] in more;
      LostOnlyGrows(plan, Run(plan, first, events + more[..n]), more[n]);
    }
  }

  /** Without a new connection a lost part is never requested again, so the window is never
      complete: one early answer dooms the run. */
  lemma LostIsForever(plan: Plan, first: u64, events: seq<Event>, more: seq<Event>, q: nat)
    requires plan.Valid() && !Run(plan, first, events).aborted && Hole(plan, Run(plan, first, events), q)
    requires forall e :: e in more ==> !e.Broken?
    ensures var s := Run(plan, first, events + more); s.aborted || |s.covered| < plan.Expected()
  {
    RunKeepsInv(plan, first, events);
    LostStays(plan, first, events, more, q);
    RunKeepsInv(plan, first, events + more);
    LostMeansShort(plan, Run(plan, first, events + more), q);
  }

  lemma LostMeansShort(plan: Plan, s: Fetch, q: nat)
    requires plan.Valid() && (!s.aborted ==> Inv(plan, s)) && q in s.lost && q < U64_MAX
    ensures s.aborted || |s.covered| < plan.Expected()
  {
    if !s.aborted {
      assert Hole(plan, s, q);
      HoleMeansShort(s.covered, plan.Expected(), q - s.baseline);
    }
  }

  // ---------------------------------------------------------------- each part fetched once

  /** No request in flight is for a part already covered. */
  ghost predicate NothingFetchedTwice(s: Fetch) {
    forall q: nat :: q in s.inFlight && s.baseline <= q < U64_MAX ==> q - s.baseline !in s.covered
  }

  ghost predicate CoveredBehindNext(s: Fetch) { forall r :: r in s.covered ==> s.baseline + r < s.next || s.next == U64_MAX }

  lemma {:induction false} OneConnectionFetchesOnce(plan: Plan, first: u64, events: seq<Event>)
    requires plan.Valid()
    requires forall e :: e in events ==> !e.Broken?
    ensures var s := Run(plan, first, events); !s.aborted ==> NothingFetchedTwice(s) && CoveredBehindNext(s)
  {
    if events == [] {
      InitRequests(first);
    } else {
      var n := |events| - 1;
      OneConnectionFetchesOnce(plan, first, events[..n]);
      RunKeepsInv(plan, first, events[..n]);
      var s := Run(plan, first, events[..n]);
      assert events[n] in events;
      if Enabled(plan, s, events[n]) { StepFetchesOnce(plan, s, events[n]); }
    }
  }

  lemma StepFetchesOnce(plan: Plan, s: Fetch, e: Event)
    requires plan.Valid() && Inv(plan, s) && Enabled(plan, s, e) && !e.Broken?
    requires NothingFetchedTwice(s) && CoveredBehindNext(s)
    ensures var t := Step(plan, s, e); !t.aborted ==> NothingFetchedTwice(t) && CoveredBehindNext(t)
  {
    match e
    case Media(q, early) => MediaFetchesOnce(plan, s, q, early);
    case Missing(q, playlist) => MissingFetchesOnce(plan, s, q, playlist);
    case Broken(_) =>
    case Unexpected(_) =>
  }

  lemma ScheduleFetchesOnce(plan: Plan, s: Fetch)
    requires plan.partMs > 0 && NothingFetchedTwice(s) && CoveredBehindNext(s)
    ensures NothingFetchedTwice(ScheduleNext(plan, s)) && CoveredBehindNext(ScheduleNext(plan, s))
  {
  }

  lemma PlaceFetchesOnce(plan: Plan, s: Fetch, q: nat, early: bool)
    requires plan.Valid() && q in s.inFlight && q <= U64_MAX && RequestsDistinct(s)
    requires NothingFetchedTwice(s) && CoveredBehindNext(s) && NominalPts(q, s.baseline, plan).Some?
    ensures var s1 := s.(inFlight := s.inFlight - multiset{q}, started := true);
      var t := Place(plan, s1, q, NominalPts(q, s.baseline, plan).value, early);
      NothingFetchedTwice(t) && CoveredBehindNext(t)
  {
    var s1 := s.(inFlight := s.inFlight - multiset{q}, started := true);
    PlaceIs(plan, s1, q, early);
    assert forall x: nat :: x in s1.inFlight && x < U64_MAX ==> x != q;
  }

  lemma MediaFetchesOnce(plan: Plan, s: Fetch, q: u64, early: bool)
    requires plan.Valid() && RequestsDistinct(s) && q in s.inFlight
    requires NothingFetchedTwice(s) && CoveredBehindNext(s)
    ensures var t := OnMedia(plan, s, q, early); !t.aborted ==> NothingFetchedTwice(t) && CoveredBehindNext(t)
  {
    if NominalPts(q, s.baseline, plan).Some? {
      var s1 := s.(inFlight := s.inFlight - multiset{q}, started := true);
      PlaceFetchesOnce(plan, s, q, early);
      ScheduleFetchesOnce(plan, Place(plan, s1, q, NominalPts(q, s.baseline, plan).value, early));
    }
  }

  lemma MissingFetchesOnce(plan: Plan, s: Fetch, q: u64, playlist: Option<Playlist>)
    requires plan.Valid() && Inv(plan, s) && q in s.inFlight
    requires NothingFetchedTwice(s) && CoveredBehindNext(s)
    ensures var t := OnMissing(plan, s, q, playlist); NothingFetchedTwice(t) && CoveredBehindNext(t)
  {
    RebaseKeepsInFlight(s, q, playlist);
    var s1 := Rebase(s.(inFlight := s.inFlight - multiset{q}), playlist);
    if q < s1.baseline { ScheduleFetchesOnce(plan, s1); }
  }

  lemma InWindowHasPosition(plan: Plan, q: u64, baseline: u64)
    requires plan.Valid() && baseline <= q && q - baseline < plan.Expected()
    ensures NominalPts(q, baseline, plan).Some?
  {
    PlanSize(plan);
    OrderOfMultiples(q - baseline, plan.Expected(), plan.partMs);
  }

  /** A timely answer to a request of the window covers its part. On one connection that is one
      part more, but for repeated answers at the greatest sequence. */
  lemma EveryTimelyAnswerCounts(plan: Plan, first: u64, events: seq<Event>, q: u64)
    requires plan.Valid() && forall e :: e in events ==> !e.Broken?
    requires var s := Run(plan, first, events);
      Enabled(plan, s, Media(q, false)) && q >= s.baseline && q - s.baseline < plan.Expected()
    ensures var s := Run(plan, first, events);
      var covered := Step(plan, s, Media(q, false)).covered;
      && covered == s.covered + {q - s.baseline}
      && (|covered| == |s.covered| + 1 || (q == U64_MAX && q - s.baseline in s.covered))
  {
    OneConnectionFetchesOnce(plan, first, events);
    TimelyAnswerCovers(plan, Run(plan, first, events), q);
  }

  lemma TimelyAnswerCovers(plan: Plan, s: Fetch, q: u64)
    requires plan.Valid() && q >= s.baseline && q - s.baseline < plan.Expected()
    ensures OnMedia(plan, s, q, false).covered == s.covered + {q - s.baseline}
    ensures q - s.baseline !in s.covered ==> |OnMedia(plan, s, q, false).covered| == |s.covered| + 1
  {
    InWindowHasPosition(plan, q, s.baseline);
    PlaceIs(plan, s.(inFlight := s.inFlight - multiset{q}, started := true), q, false);
    if q - s.baseline in s.covered { assert s.covered + {q - s.baseline} == s.covered; }
  }

  /** At the greatest sequence the counter stands still and the same object is requested again. */
  lemma LastSequenceRequestedAgain()
    ensures Init(U64_MAX).inFlight[U64_MAX] == DEPTH
  {
    FillAtLast(Fetch(U64_MAX, U64_MAX, multiset{}, {}, false, false, {}));
  }

  lemma {:induction false} FillAtLast(s: Fetch)
    requires s.next == U64_MAX && s.inFlight[U64_MAX] == |s.inFlight| <= DEPTH
    ensures Fill(s).inFlight[U64_MAX] == DEPTH
    decreases DEPTH - |s.inFlight|
  {
    if |s.inFlight| < DEPTH {
      FillAtLast(s.(inFlight := s.inFlight + multiset{s.next}, next := SatAdd(s.next, 1)));
    }
  }

  // ---------------------------------------------------------------- the baseline

  /** The baseline only moves forward, and not at all once media has started. */
  lemma BaselineSettles(plan: Plan, s: Fetch, e: Event)
    requires plan.partMs > 0
    ensures s.baseline <= Step(plan, s, e).baseline
    ensures s.started ==> Step(plan, s, e).baseline == s.baseline && Step(plan, s, e).started
  {
    match e
    case Broken(_) =>
      FillKeepsBaseline(s.(inFlight := multiset{},
                           next := SatAdd(s.baseline, FirstMissing(s.covered, 0, plan.Expected())), lost := {}));
    case _ =>
  }

  lemma {:induction false} BaselineGrows(plan: Plan, first: u64, events: seq<Event>, more: seq<Event>)
    requires plan.partMs > 0
    ensures Run(plan, first, events).baseline <= Run(plan, first, events + more).baseline
    decreases |more|
  {
    if more == [] {
      assert events + more == events;
    } else {
      var n := |more| - 1;
      assert (events + more)[..|events + more| - 1] == events + more[..n];
      BaselineGrows(plan, first, events, more[..n]);
      BaselineSettles(plan, Run(plan, first, events + more[..n]), more[n]);
    }
  }

  /** Once a playlist was consulted before media, the baseline is never again behind what it
      lists: the fetch does not ask for objects that had left it. */
  lemma BaselineKeepsUp(plan: Plan, first: u64, events: seq<Event>, q: u64, playlist: Playlist, more: seq<Event>)
    requires plan.partMs > 0
    requires Enabled(plan, Run(plan, first, events), Missing(q, Some(playlist))) && !Run(plan, first, events).started
    ensures Reachable(playlist, Run(plan, first, events + [Missing(q, Some(playlist))] + more).baseline)
  {
    var s, e := Run(plan, first, events), Missing(q, Some(playlist));
    assert (events + [e])[..|events|] == events;
    RefreshIsLeast(s.baseline, playlist);
    BaselineGrows(plan, first, events + [e], more);
  }

  /** A concrete run: with one part expected, an early answer to its only request leaves a hole. */
  lemma EarlyAnswerLeavesHole()
    ensures var plan := Plan(0, 5, 5);
            plan.Valid() && Hole(plan, Run(plan, 0, [Media(0, true)]), 0)
  {
    var plan := Plan(0, 5, 5);
    var blank := Fetch(0, 0, multiset{}, {}, false, false, {});
    FillRequests(blank);
    var events := [Media(0, true)];
    assert events[..0] == [];
    var s := Init(0);
    PlaceIs(plan, s.(inFlight := s.inFlight - multiset{0}, started := true), 0, true);
    var t := Run(plan, 0, events);
    assert t == OnMedia(plan, s, 0, true);
    assert 0 in t.lost;
  }
}
