/** The fetch loop's variables as an object around the coverage bitset, one method per kind of
    response, each against the step functions. */
module PipelineObjects {
  import opened Wrappers
  import opened Words
  import opened PartCoverages
  import opened PipelinedFetches
  import opened PipelinedFetchRuns

  class PartPipeline {
    const plan: Plan
    const coverage: PartCoverage
    var baseline: u64
    var nextSequence: u64
    var inFlight: multiset<u64>
    var started: bool
    var aborted: bool
    ghost var lost: set<u64>

    /** The bitset is that of the plan. */
    ghost predicate Linked()
      reads this, coverage, coverage.words
    {
      && plan.Valid() && coverage.Valid()
      && coverage.partMs == plan.partMs && coverage.startSequence == plan.StartSequence()
      && coverage.expectedParts == plan.Expected()
    }

    /** Until the fetch aborts, everything every run keeps. */
    ghost predicate Valid()
      reads this, coverage, coverage.words
    {
      Linked() && (!aborted ==> PipelinedFetchRuns.Inv(plan, View()))
    }

    ghost function View(): Fetch
      reads this, coverage
    {
      Fetch(baseline, nextSequence, inFlight, coverage.covered, started, aborted, lost)
    }

    constructor (plan: Plan, first: u64)
      requires plan.Valid() && plan.Expected() + 63 <= U64_MAX
      ensures Valid() && Owes(plan, View()) && fresh(coverage) && fresh(coverage.words)
      ensures baseline == first && nextSequence == Min(U64_MAX, first + 8) && |inFlight| == 8
      ensures forall q: nat :: q < U64_MAX ==> inFlight[q] == if first <= q < nextSequence then 1 else 0
      ensures View() == Init(first) && this.plan == plan
    {
      this.plan, baseline, nextSequence := plan, first, first;
      inFlight, started, aborted, lost := multiset{}, false, false, {};
      coverage := new PartCoverage(plan.StartSequence(), plan.Expected(), plan.partMs);
      new;
      InitKeepsInv(plan, first);
      InitRequests(first);
      InvOwes(plan, Init(first));
      FillPipeline();
    }

    // ---- Responses ----

    /** Media for an object in flight: a timely one of the window is covered, and the promises hold on. */
    method HandleMedia(sequence: u64, early: bool)
      requires Valid() && Enabled(plan, View(), Media(sequence, early))
      modifies this, coverage, coverage.words
      ensures Valid() && Owes(plan, View())
      ensures MediaOwes(plan, old(View()), sequence, early, View())
      ensures View() == OnMedia(plan, old(View()), sequence, early)
    {
      StepOwes(plan, View(), Media(sequence, early));
      MediaKeepsPromise(plan, View(), sequence, early);
      TakeMedia(sequence, early);
    }

    /** Nothing there yet: follow the playlist until media starts, then retry or replace. */
    method HandleMissing(sequence: u64, playlist: Option<Playlist>)
      requires Valid() && Enabled(plan, View(), Missing(sequence, playlist))
      modifies this`baseline, this`nextSequence, this`inFlight
      ensures Valid() && Owes(plan, View())
      ensures MissingOwes(plan, old(View()), sequence, playlist, View())
      ensures View() == OnMissing(plan, old(View()), sequence, playlist)
    {
      StepOwes(plan, View(), Missing(sequence, playlist));
      MissingKeepsPromise(plan, View(), sequence, playlist);
      RetryOrReplace(sequence, playlist);
    }

    /** The connection is gone: eight fresh requests from the first part missing. */
    method HandleBroken(ghost sequence: u64)
      requires Valid() && Enabled(plan, View(), Broken(sequence))
      modifies this`nextSequence, this`inFlight, this`lost
      ensures Valid() && Owes(plan, View()) && BrokenOwes(plan, old(View()), View())
      ensures View() == OnBroken(plan, old(View()))
    {
      StepOwes(plan, View(), Broken(sequence));
      BrokenKeepsPromise(plan, View(), sequence);
      Restart();
    }

    // ---- Inside a response ----

    method Restart()
      requires Linked()
      modifies this`nextSequence, this`inFlight, this`lost
      ensures Linked() && View() == OnBroken(plan, old(View()))
    {
      var missing := coverage.FirstMissingRelative();
      var relative := if missing.Some? then missing.value else plan.Expected();
      LeastIsFirst(coverage.covered, plan.Expected(), relative);
      StartOver(SatAdd(baseline, relative));
      FillPipeline();
    }

    method StartOver(sequence: u64)
      requires Linked()
      modifies this`nextSequence, this`inFlight, this`lost
      ensures Linked() && View() == old(View()).(inFlight := multiset{}, next := sequence, lost := {})
    {
      inFlight, nextSequence, lost := multiset{}, sequence, {};
    }

    method FillPipeline()
      requires Linked()
      modifies this`nextSequence, this`inFlight
      ensures Linked() && View() == Fill(old(View()))
    {
      ghost var filled := Fill(View());
      while |inFlight| < DEPTH
        invariant Linked() && Fill(View()) == filled
        decreases DEPTH - |inFlight|
      {
        inFlight := inFlight + multiset{nextSequence};
        nextSequence := SatAdd(nextSequence, 1);
      }
    }

    /** Hand out the next request unless the window is complete. */
    method Schedule()
      requires Linked()
      modifies this`nextSequence, this`inFlight
      ensures Linked() && View() == ScheduleNext(plan, old(View()))
    {
      if coverage.receivedParts < plan.Expected() {
        inFlight := inFlight + multiset{nextSequence};
        nextSequence := SatAdd(nextSequence, 1);
      }
    }

    /** Enter a part of the window into the coverage; an early one is not entered. */
    method Enter(sequence: u64, pts: u64, early: bool)
      requires Linked()
      modifies this`lost, coverage, coverage.words
      ensures Linked() && View() == Place(plan, old(View()), sequence, pts, early)
    {
      ghost var relative := RelativeOf(plan.StartSequence(), plan.partMs, plan.Expected(), pts);
      if plan.startOffset <= pts < plan.endOffset {
        if early {
          if relative.Some? && relative.value !in coverage.covered {
            lost := lost + {sequence};
          }
        } else {
          var inserted := coverage.InsertPts(pts);
        }
      }
    }

    method TakeAnswered(sequence: u64)
      requires Linked()
      modifies this`inFlight, this`started
      ensures Linked() && View() == old(View()).(inFlight := old(inFlight) - multiset{sequence}, started := true)
    {
      inFlight := inFlight - multiset{sequence};
      started := true;
    }

    method TakeMedia(sequence: u64, early: bool)
      requires Linked()
      modifies this, coverage, coverage.words
      ensures Linked() && View() == OnMedia(plan, old(View()), sequence, early)
    {
      ghost var outcome := OnMedia(plan, View(), sequence, early);
      TakeAnswered(sequence);
      var pts := NominalPts(sequence, baseline, plan);
      if pts.None? {
        aborted := true;
        assert View() == outcome;
      } else {
        Enter(sequence, pts.value, early);
        assert ScheduleNext(plan, View()) == outcome;
        Schedule();
      }
    }

    /** Until media starts, follow the playlist to a later first object. */
    method FollowPlaylist(playlist: Option<Playlist>)
      requires Linked()
      modifies this`baseline, this`nextSequence
      ensures Linked() && View() == Rebase(old(View()), playlist)
    {
      if !started && playlist.Some? {
        var refreshed := Refreshed(baseline, playlist.value);
        if refreshed != baseline {
          baseline := refreshed;
          nextSequence := Max(nextSequence, baseline);
        }
      }
    }

    method RetryOrReplace(sequence: u64, playlist: Option<Playlist>)
      requires Linked()
      modifies this`baseline, this`nextSequence, this`inFlight
      ensures Linked() && View() == OnMissing(plan, old(View()), sequence, playlist)
    {
      inFlight := inFlight - multiset{sequence};
      FollowPlaylist(playlist);
      if sequence >= baseline {
        inFlight := inFlight + multiset{sequence};
      } else {
        Schedule();
      }
    }
  }

  lemma LeastIsFirst(covered: set<nat>, n: nat, r: nat)
    requires r <= n && (r < n ==> r !in covered) && forall x: nat :: x < r ==> x in covered
    ensures FirstMissing(covered, 0, n) == r
  {
  }
}
