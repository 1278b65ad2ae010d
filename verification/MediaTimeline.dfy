/** The probe's check that received media parts follow one another on the timeline. */
module MediaTimelines {
  import opened Words
  import opened Wrappers

  const EDGE_TOLERANCE_MS: nat := 5

  datatype Span = Span(pts: u64, duration: u64) {
    function End(): u64 { SatAdd(pts, duration) }
  }

  /** Keyed by media sequence. */
  type Parts = map<nat, Span>

  /** The part after `n` is present but does not start where `n` ends. */
  predicate IsBreak(parts: Parts, n: nat)
    requires n in parts
  {
    n + 1 in parts && parts[n + 1].pts != parts[n].End()
  }

  function BreaksWithin(parts: Parts, visited: set<nat>): set<nat>
    requires visited <= parts.Keys
  {
    set n | n in visited && n + 1 in visited && IsBreak(parts, n)
  }

  /** What a timeline must cover: `expected` parts from `start`, between two offsets. */
  datatype Window = Window(start: u64, expected: u64, startOffset: u64, endOffset: u64) {
    function LastSequence(): u64 { SatAdd(start, SatSub(expected, 1)) }

    predicate StartFault(parts: Parts) {
      start in parts ==> AbsDiff(parts[start].pts, startOffset) > EDGE_TOLERANCE_MS
    }

    predicate EndFault(parts: Parts) {
      LastSequence() in parts ==> AbsDiff(parts[LastSequence()].End(), endOffset) > EDGE_TOLERANCE_MS
    }

    /** The two ends are judged only once as many parts as expected are there. */
    function EdgeFaults(parts: Parts): nat {
      if |parts| != expected then 0
      else (if StartFault(parts) then 1 else 0) + (if EndFault(parts) then 1 else 0)
    }

    function Faults(parts: Parts): nat {
      |BreaksWithin(parts, parts.Keys)| + EdgeFaults(parts)
    }

    /** Every inserted sequence belongs to the window, and the window fits the counter. */
    ghost predicate InRange(parts: Parts) {
      && start + expected <= U64_MAX + 1
      && forall n :: n in parts ==> start <= n < start + expected
    }
  }

  lemma {:induction false} LeastExists(s: set<nat>) returns (least: nat)
    requires s != {}
    ensures least in s && forall x :: x in s ==> least <= x
    decreases |s|
  {
    var any :| any in s;
    var rest := s - {any};
    least := any;
    if rest != {} {
      var other := LeastExists(rest);
      least := Min(any, other);
    }
    forall x | x in s ensures least <= x {
      if x != any { assert x in rest; }
    }
  }

  lemma BreaksGrow(parts: Parts, visited: set<nat>, n: nat)
    requires visited <= parts.Keys && n in parts && forall x :: x in visited ==> x < n
    ensures |BreaksWithin(parts, visited + {n})|
         == |BreaksWithin(parts, visited)|
          + if n > 0 && n - 1 in visited && IsBreak(parts, n - 1) then 1 else 0
  {
    var grown := if n > 0 && n - 1 in visited && IsBreak(parts, n - 1) then {n - 1} else {};
    assert BreaksWithin(parts, visited + {n}) == BreaksWithin(parts, visited) + grown;
  }

  /** Where the ordered pass stands: what it has seen, the last of it, and what is left. */
  ghost predicate Passed(parts: Parts, visited: set<nat>, remaining: set<nat>, previous: Option<nat>) {
    && visited + remaining == parts.Keys
    && (forall x, y :: x in visited && y in remaining ==> x < y)
    && (previous.None? <==> visited == {})
    && (previous.Some? ==> previous.value in visited && forall x :: x in visited ==> x <= previous.value)
  }

  predicate FollowsBadly(parts: Parts, previous: Option<nat>, n: nat)
    requires n in parts && (previous.Some? ==> previous.value in parts)
  {
    previous.Some? && n == previous.value + 1 && parts[n].pts != parts[previous.value].End()
  }

  lemma PassNext(parts: Parts, visited: set<nat>, remaining: set<nat>, previous: Option<nat>, n: nat)
    requires Passed(parts, visited, remaining, previous)
    requires n in remaining && forall x :: x in remaining ==> n <= x
    ensures Passed(parts, visited + {n}, remaining - {n}, Some(n))
  {
    assert visited + {n} + (remaining - {n}) == visited + remaining;
  }

  lemma CountNext(parts: Parts, visited: set<nat>, remaining: set<nat>, previous: Option<nat>, n: nat)
    requires Passed(parts, visited, remaining, previous)
    requires n in remaining && forall x :: x in remaining ==> n <= x
    ensures n in parts && (previous.Some? ==> previous.value in parts)
    ensures |BreaksWithin(parts, visited + {n})|
         == |BreaksWithin(parts, visited)| + if FollowsBadly(parts, previous, n) then 1 else 0
  {
    BreaksGrow(parts, visited, n);
    assert previous.Some? && n == previous.value + 1 <==> n > 0 && n - 1 in visited;
  }

  class MediaTimelineCoverage {
    const window: Window
    var parts: Parts

    constructor (window: Window)
      ensures this.window == window && parts == map[]
    {
      this.window := window;
      parts := map[];
    }

    /** The first arrival of a sequence is kept. */
    method Insert(sequence: u64, ptsMs: u64, durationMs: u64)
      modifies this`parts
      ensures parts == if sequence in old(parts) then old(parts) else old(parts)[sequence := Span(ptsMs, durationMs)]
    {
      if sequence !in parts {
        parts := parts[sequence := Span(ptsMs, durationMs)];
      }
    }

    /** Every break between neighbours, then the edges. */
    method Discontinuities() returns (count: nat)
      ensures count == Min(U64_MAX, window.Faults(parts))
    {
      count := CountBreaks();
      if |parts| == window.expected {
        if window.StartFault(parts) {
          count := SatAdd(count, 1);
        }
        if window.EndFault(parts) {
          count := SatAdd(count, 1);
        }
      }
    }

    /** One ordered pass over the neighbours. */
    method CountBreaks() returns (count: nat)
      ensures count == Min(U64_MAX, |BreaksWithin(parts, parts.Keys)|)
    {
      var previous: Option<nat> := None;
      var remaining := parts.Keys;
      ghost var visited: set<nat> := {};
      count := 0;
      while remaining != {}
        invariant Passed(parts, visited, remaining, previous)
        invariant count == Min(U64_MAX, |BreaksWithin(parts, visited)|)
        decreases |remaining|
      {
        ghost var least := LeastExists(remaining);
        var sequence :| sequence in remaining && forall x :: x in remaining ==> sequence <= x;
        PassNext(parts, visited, remaining, previous, sequence);
        CountNext(parts, visited, remaining, previous, sequence);
        if FollowsBadly(parts, previous, sequence) {
          count := SatAdd(count, 1);
        }
        previous := Some(sequence);
        visited := visited + {sequence};
        remaining := remaining - {sequence};
      }
      assert visited == parts.Keys;
    }
  }

  // ---- What a clean report means ----

  ghost function Sequences(start: nat, n: nat): (s: set<nat>)
    ensures |s| == n && forall x: nat :: x in s <==> start <= x < start + n
  {
    if n == 0 then {} else Sequences(start, n - 1) + {start + n - 1}
  }

  ghost predicate Full(parts: Parts, start: nat, end: nat) { forall n: nat :: start <= n < end ==> n in parts }

  /** As many parts as the window holds, all inside it: none is missing. */
  lemma FullWindow(w: Window, parts: Parts)
    requires w.InRange(parts) && |parts| == w.expected
    ensures Full(parts, w.start, w.start + w.expected)
  {
    var all := Sequences(w.start, w.expected);
    var keys := parts.Keys;
    assert all == keys + (all - keys);
    assert all - keys == {};
  }

  /** Every part after the first starts exactly where the one before it ends. */
  ghost predicate Chained(parts: Parts, start: nat) {
    forall n :: n in parts && n > start ==> n - 1 in parts && parts[n].pts == parts[n - 1].End()
  }

  ghost predicate EdgesClose(w: Window, parts: Parts) {
    && w.start in parts && w.LastSequence() in parts
    && AbsDiff(parts[w.start].pts, w.startOffset) <= 5 && AbsDiff(parts[w.LastSequence()].End(), w.endOffset) <= 5
  }

  lemma NoBreaksIffChained(w: Window, parts: Parts)
    requires w.InRange(parts) && Full(parts, w.start, w.start + w.expected)
    ensures BreaksWithin(parts, parts.Keys) == {} <==> Chained(parts, w.start)
  {
    var breaks := BreaksWithin(parts, parts.Keys);
    if breaks == {} {
      forall n | n in parts && n > w.start
        ensures n - 1 in parts && parts[n].pts == parts[n - 1].End()
      {
        assert n - 1 !in breaks;
      }
    } else {
      var n :| n in breaks;
      assert n + 1 in parts;
    }
  }

  /** A complete timeline is reported clean exactly when its parts chain and both ends are close. */
  lemma CleanIffChained(w: Window, parts: Parts)
    requires w.InRange(parts) && |parts| == w.expected
    ensures w.Faults(parts) == 0 <==> w.expected > 0 && Chained(parts, w.start) && EdgesClose(w, parts)
  {
    FullWindow(w, parts);
    NoBreaksIffChained(w, parts);
  }

  /** Breaks count one each; a full timeline also counts one for each end that is missing or more
      than 5 ms off. */
  lemma FaultsAre(w: Window, parts: Parts)
    ensures var last := Min(U64_MAX, w.start + if w.expected > 0 then w.expected - 1 else 0);
      var early := w.start !in parts || parts[w.start].pts + 5 < w.startOffset || w.startOffset + 5 < parts[w.start].pts;
      var late := last !in parts || parts[last].End() + 5 < w.endOffset || w.endOffset + 5 < parts[last].End();
      w.Faults(parts)
        == |set n | n in parts && n + 1 in parts
                    && parts[n + 1].pts != Min(U64_MAX, parts[n].pts + parts[n].duration)|
         + (if |parts| != w.expected then 0 else if early && late then 2 else if early || late then 1 else 0)
  {
    assert BreaksWithin(parts, parts.Keys)
        == set n | n in parts && n + 1 in parts && parts[n + 1].pts != Min(U64_MAX, parts[n].pts + parts[n].duration);
  }

  ghost function TotalDuration(parts: Parts, start: nat, end: nat): nat
    requires start <= end && Full(parts, start, end)
  {
    if start == end then 0 else TotalDuration(parts, start, end - 1) + parts[end - 1].duration
  }

  /** While ends stay below saturation, durations add up to the distance travelled. */
  lemma {:induction false} DurationsTelescope(parts: Parts, start: nat, last: nat)
    requires start <= last && Full(parts, start, last + 1) && Chained(parts, start)
    requires parts[last].End() < U64_MAX
    ensures parts[last].End() == parts[start].pts + TotalDuration(parts, start, last + 1)
  {
    if last > start {
      assert parts[last].pts == parts[last - 1].End();
      DurationsTelescope(parts, start, last - 1);
    }
  }

  /** A clean complete timeline carries the window's length of media, to within both tolerances. */
  lemma CleanMeansFullLength(w: Window, parts: Parts)
    requires w.InRange(parts) && |parts| == w.expected && w.Faults(parts) == 0
    requires w.startOffset <= w.endOffset && w.endOffset + 5 < U64_MAX
    ensures Full(parts, w.start, w.start + w.expected)
    ensures AbsDiff(TotalDuration(parts, w.start, w.start + w.expected), w.endOffset - w.startOffset)
         <= 10
  {
    CleanIffChained(w, parts);
    FullWindow(w, parts);
    DurationsTelescope(parts, w.start, w.LastSequence());
  }

  /** Until the window is full the edges are not looked at: a clean report then
      says only that the neighbours present follow one another. */
  lemma CleanWhileIncomplete(w: Window, parts: Parts)
    requires |parts| != w.expected
    ensures w.Faults(parts) == 0 <==>
      forall n :: n in parts && n + 1 in parts ==> parts[n + 1].pts == parts[n].End()
  {
    var breaks := BreaksWithin(parts, parts.Keys);
    if breaks == {} {
      forall n | n in parts && n + 1 in parts ensures parts[n + 1].pts == parts[n].End() {
        assert n !in breaks;
      }
    } else {
      var n :| n in breaks;
      assert n in parts && n + 1 in parts;
    }
  }
}
