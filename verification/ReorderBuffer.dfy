/** The probe's SoundKit consumer: parts arrive in any order and are decoded in sequence. */
module ReorderBuffers {
  import opened Wrappers
  import opened Words

  type Bytes = seq<u8>

  /** `decoded` and `attempts` are history; `decodes(n)` is how decoding attempt `n` ends. */
  datatype State = State(next: u64, pending: map<u64, Bytes>, decoded: seq<Bytes>, attempts: nat)

  datatype Arrival = Arrival(sequence: u64, body: Bytes)

  function Start(first: u64): State { State(first, map[], [], 0) }

  /** Remove the part whose turn it is and decode it; only success passes the turn on. */
  function TakeTurn(decodes: nat -> bool, s: State): (State, bool)
    requires s.next in s.pending
  {
    var taken := s.(pending := s.pending - {s.next}, attempts := s.attempts + 1);
    if decodes(s.attempts) then (taken.(decoded := s.decoded + [s.pending[s.next]], next := SatAdd(s.next, 1)), true)
    else (taken, false)
  }

  /** Take turns until one is missing or fails. */
  function Drain(decodes: nat -> bool, s: State): (State, bool)
    decreases |s.pending|
  {
    if s.next !in s.pending then (s, true)
    else
      var (s1, ok) := TakeTurn(decodes, s);
      if ok then Drain(decodes, s1) else (s1, false)
  }

  function Keep(pending: map<u64, Bytes>, a: Arrival): map<u64, Bytes> {
    if a.sequence in pending then pending else pending[a.sequence := a.body]
  }

  function PushStep(decodes: nat -> bool, s: State, a: Arrival): (State, bool) {
    if a.sequence < s.next then (s, true)
    else Drain(decodes, s.(pending := Keep(s.pending, a)))
  }

  /** Attempt `k` of a drain took the part `k` turns on and decoded it. */
  predicate Took(decodes: nat -> bool, s: State, s': State, k: nat)
    requires |s.decoded| + k < |s'.decoded|
  {
    s.next + k in s.pending && s'.decoded[|s.decoded| + k] == s.pending[s.next + k] && decodes(s.attempts + k)
  }

  /** From what waits, the bodies from the turn on were decoded one by one up to the first that is
      missing or fails; those tried are gone, the turn stands behind those decoded, and all else waits on. */
  ghost predicate Drained(decodes: nat -> bool, s: State, s': State, ok: bool) {
    |s'.decoded| >= |s.decoded| &&
    var n := |s'.decoded| - |s.decoded|;
    && s'.decoded[..|s.decoded|] == s.decoded
    && (forall k :: 0 <= k < n ==> Took(decodes, s, s', k))
    && s'.next == Min(U64_MAX, s.next + n)
    && s'.attempts == s.attempts + n + (if ok then 0 else 1)
    && (if ok then s'.next !in s'.pending else s.next + n in s.pending && !decodes(s.attempts + n))
    && (forall q: nat :: q in s'.pending <==> q in s.pending && !(s.next <= q <= s'.next))
    && (forall q: nat :: q in s'.pending ==> s'.pending[q] == s.pending[q])
  }

  lemma {:induction false} DrainTakes(decodes: nat -> bool, s: State)
    ensures Drained(decodes, s, Drain(decodes, s).0, Drain(decodes, s).1)
    decreases |s.pending|
  {
    if s.next in s.pending {
      var (s1, ok) := TakeTurn(decodes, s);
      if ok {
        var (s', fine) := Drain(decodes, s1);
        DrainTakes(decodes, s1);
        TakenThenDrained(decodes, s, s1, s', fine);
      }
    }
  }

  lemma TakenThenDrained(decodes: nat -> bool, s: State, s1: State, s': State, ok: bool)
    requires s.next in s.pending && decodes(s.attempts) && s1 == TakeTurn(decodes, s).0
    requires Drained(decodes, s1, s', ok)
    ensures Drained(decodes, s, s', ok)
  {
    forall k | 0 <= k < |s'.decoded| - |s.decoded| ensures Took(decodes, s, s', k) {
      if k > 0 { assert Took(decodes, s1, s', k - 1); }
    }
    if |s'.decoded| > |s1.decoded| { assert Took(decodes, s1, s', 0); }
    assert s1.decoded[..|s.decoded|] == s.decoded;
  }

  /** A part before its turn is over is ignored; otherwise the first arrival of a sequence is kept
      and what has its turn is decoded. */
  lemma PushTakes(decodes: nat -> bool, s: State, a: Arrival)
    ensures var (s', ok) := PushStep(decodes, s, a);
      if a.sequence < s.next then s' == s && ok
      else
        var kept := if a.sequence in s.pending then s.pending else s.pending[a.sequence := a.body];
        Drained(decodes, s.(pending := kept), s', ok)
  {
    DrainTakes(decodes, s.(pending := Keep(s.pending, a)));
  }

  // ---- Runs ----

  /** State after a run, and whether every push so far succeeded. */
  function Run(decodes: nat -> bool, first: u64, arrivals: seq<Arrival>): (State, bool) {
    if arrivals == [] then (Start(first), true)
    else
      var (before, fine) := Run(decodes, first, arrivals[..|arrivals| - 1]);
      var (after, ok) := PushStep(decodes, before, arrivals[|arrivals| - 1]);
      (after, fine && ok)
  }

  /** Body of the first arrival with sequence `q`. */
  function FirstArrival(arrivals: seq<Arrival>, q: nat): Option<Bytes> {
    if arrivals == [] then None
    else if arrivals[0].sequence == q then Some(arrivals[0].body)
    else FirstArrival(arrivals[1..], q)
  }

  lemma {:induction false} FirstArrivalAppend(arrivals: seq<Arrival>, a: Arrival, q: nat)
    ensures FirstArrival(arrivals + [a], q)
         == if FirstArrival(arrivals, q).Some? then FirstArrival(arrivals, q)
            else if a.sequence == q then Some(a.body) else None
  {
    if arrivals == [] {
      assert (arrivals + [a])[1..] == [];
    } else {
      assert (arrivals + [a])[1..] == arrivals[1..] + [a];
      FirstArrivalAppend(arrivals[1..], a, q);
    }
  }

  /** What is decoded are the first arrivals of `first`, `first + 1`, ..., `next - 1`. */
  ghost predicate DecodedInOrder(first: nat, arrivals: seq<Arrival>, s: State) {
    && s.next == first + |s.decoded|
    && forall k: nat :: k < |s.decoded| ==> FirstArrival(arrivals, first + k) == Some(s.decoded[k])
  }

  /** What waits are the first arrivals of everything from `next` on that has arrived. */
  ghost predicate PendingIsRest(arrivals: seq<Arrival>, s: State) {
    forall q: nat :: (q in s.pending <==> q >= s.next && FirstArrival(arrivals, q).Some?)
                     && (q in s.pending ==> FirstArrival(arrivals, q) == Some(s.pending[q]))
  }

  /** Decoded in order, nothing left to decode: `next` has not arrived. */
  ghost predicate Ordered(first: nat, arrivals: seq<Arrival>, s: State) {
    DecodedInOrder(first, arrivals, s) && PendingIsRest(arrivals, s) && FirstArrival(arrivals, s.next).None?
  }

  /** Everything from `first` to the greatest sequence has arrived, and the turn is stuck there. */
  ghost predicate Exhausted(first: nat, arrivals: seq<Arrival>, s: State) {
    && s.next == U64_MAX && s.pending == map[] && first + |s.decoded| > U64_MAX
    && forall q: nat :: first <= q <= U64_MAX ==> FirstArrival(arrivals, q).Some?
  }

  lemma {:induction false} DrainEndsOrdered(decodes: nat -> bool, first: nat, arrivals: seq<Arrival>, s: State)
    requires DecodedInOrder(first, arrivals, s) && PendingIsRest(arrivals, s)
    requires Drain(decodes, s).1
    ensures var s' := Drain(decodes, s).0; Ordered(first, arrivals, s') || Exhausted(first, arrivals, s')
    decreases |s.pending|
  {
    if s.next in s.pending {
      var s1 := TakeTurn(decodes, s).0;
      if s.next < U64_MAX {
        DrainEndsOrdered(decodes, first, arrivals, s1);
      } else {
        LastTurnExhausts(decodes, first, arrivals, s);
      }
    }
  }

  lemma LastTurnExhausts(decodes: nat -> bool, first: nat, arrivals: seq<Arrival>, s: State)
    requires DecodedInOrder(first, arrivals, s) && PendingIsRest(arrivals, s)
    requires s.next == U64_MAX && s.next in s.pending && TakeTurn(decodes, s).1
    ensures Exhausted(first, arrivals, TakeTurn(decodes, s).0)
    ensures Drain(decodes, s) == TakeTurn(decodes, s)
  {
    var s1 := TakeTurn(decodes, s).0;
    assert s1.pending == map[];
    forall q: nat | first <= q <= U64_MAX ensures FirstArrival(arrivals, q).Some? {
      if q < s.next { assert FirstArrival(arrivals, first + (q - first)) == Some(s.decoded[q - first]); }
    }
  }

  lemma KeepIsRest(first: nat, arrivals: seq<Arrival>, a: Arrival, s: State)
    requires Ordered(first, arrivals, s)
    ensures DecodedInOrder(first, arrivals + [a], s)
    ensures var s1 := if a.sequence < s.next then s else s.(pending := Keep(s.pending, a));
            PendingIsRest(arrivals + [a], s1) && DecodedInOrder(first, arrivals + [a], s1)
    ensures FirstArrival(arrivals + [a], s.next).None? <==> a.sequence != s.next
  {
    forall k: nat | k < |s.decoded| ensures FirstArrival(arrivals + [a], first + k) == Some(s.decoded[k]) {
      FirstArrivalAppend(arrivals, a, first + k);
    }
    forall q: nat ensures FirstArrival(arrivals + [a], q)
                       == if FirstArrival(arrivals, q).Some? then FirstArrival(arrivals, q)
                          else if a.sequence == q then Some(a.body) else None
    {
      FirstArrivalAppend(arrivals, a, q);
    }
  }

  /** A part that arrives when its turn is the greatest sequence is decoded, every time, and
      the turn stays: whatever else the state. */
  lemma LastSequenceRepeats(decodes: nat -> bool, s: State, a: Arrival)
    requires s.next == a.sequence == U64_MAX && U64_MAX !in s.pending && decodes(s.attempts)
    ensures PushStep(decodes, s, a)
         == (s.(decoded := s.decoded + [a.body], attempts := s.attempts + 1), true)
  {
    var kept := s.(pending := Keep(s.pending, a));
    assert kept.pending - {s.next} == s.pending;
    var after := TakeTurn(decodes, kept).0;
    assert after == s.(decoded := s.decoded + [a.body], attempts := s.attempts + 1);
    assert Drain(decodes, after) == (after, true);
  }

  lemma ExhaustedStays(decodes: nat -> bool, first: nat, arrivals: seq<Arrival>, s: State, a: Arrival)
    requires Exhausted(first, arrivals, s) && PushStep(decodes, s, a).1
    ensures Exhausted(first, arrivals + [a], PushStep(decodes, s, a).0)
  {
    forall q: nat | first <= q <= U64_MAX ensures FirstArrival(arrivals + [a], q).Some? {
      FirstArrivalAppend(arrivals, a, q);
    }
    if a.sequence == U64_MAX {
      if decodes(s.attempts) {
        LastSequenceRepeats(decodes, s, a);
      } else {
        assert !TakeTurn(decodes, s.(pending := Keep(s.pending, a))).1;
      }
    }
  }

  lemma PushEndsOrdered(decodes: nat -> bool, first: nat, arrivals: seq<Arrival>, s: State, a: Arrival)
    requires Ordered(first, arrivals, s) || Exhausted(first, arrivals, s)
    requires PushStep(decodes, s, a).1
    ensures var s' := PushStep(decodes, s, a).0;
      Ordered(first, arrivals + [a], s') || Exhausted(first, arrivals + [a], s')
  {
    if Ordered(first, arrivals, s) {
      KeepIsRest(first, arrivals, a, s);
      if a.sequence >= s.next {
        DrainEndsOrdered(decodes, first, arrivals + [a], s.(pending := Keep(s.pending, a)));
      }
    } else {
      ExhaustedStays(decodes, first, arrivals, s, a);
    }
  }

  lemma {:induction false} RunIsOrderedOrExhausted(decodes: nat -> bool, first: u64, arrivals: seq<Arrival>)
    requires Run(decodes, first, arrivals).1
    ensures var s := Run(decodes, first, arrivals).0; Ordered(first, arrivals, s) || Exhausted(first, arrivals, s)
  {
    if arrivals != [] {
      var n := |arrivals| - 1;
      var a := arrivals[n];
      assert arrivals == arrivals[..n] + [a];
      RunIsOrderedOrExhausted(decodes, first, arrivals[..n]);
      PushEndsOrdered(decodes, first, arrivals[..n], Run(decodes, first, arrivals[..n]).0, a);
    }
  }

  /** Some sequence from `first` on has not arrived. */
  ghost predicate SomeMissing(first: nat, arrivals: seq<Arrival>) {
    exists q: nat :: first <= q <= U64_MAX && FirstArrival(arrivals, q).None?
  }

  /** Exactly once and in order. After any arrivals, permuted and duplicated in any way, none of
      which failed to decode: as long as some sequence from `first` on has not arrived, and only
      as long, `next` is the least such sequence, what was decoded are the first arrivals of all
      before it, and what waits are the first arrivals of all after it. */
  lemma DeliversOnceInOrderIff(decodes: nat -> bool, first: u64, arrivals: seq<Arrival>)
    requires Run(decodes, first, arrivals).1
    ensures Ordered(first, arrivals, Run(decodes, first, arrivals).0) <==> SomeMissing(first, arrivals)
  {
    RunIsOrderedOrExhausted(decodes, first, arrivals);
    OrderedIffMissing(first, arrivals, Run(decodes, first, arrivals).0);
  }

  lemma OrderedIffMissing(first: nat, arrivals: seq<Arrival>, s: State)
    requires Ordered(first, arrivals, s) || Exhausted(first, arrivals, s)
    ensures Ordered(first, arrivals, s) <==> SomeMissing(first, arrivals)
  {
    if Ordered(first, arrivals, s) { assert first <= s.next <= U64_MAX; }
  }

  // ---- With failures ----

  /** The sequence whose turn the `k`-th decoded body had. */
  function TurnOf(first: nat, k: nat): nat { Min(U64_MAX, first + k) }

  /** Whatever fails to decode: every decoded body came in under its own turn's sequence. */
  ghost predicate DecodedArrived(first: nat, arrivals: set<Arrival>, s: State) {
    && s.next == TurnOf(first, |s.decoded|)
    && (forall k: nat :: k < |s.decoded| ==> Arrival(TurnOf(first, k), s.decoded[k]) in arrivals)
    && (forall q :: q in s.pending ==> q >= s.next && Arrival(q, s.pending[q]) in arrivals)
  }

  lemma TurnKeepsArrived(decodes: nat -> bool, first: nat, arrivals: set<Arrival>, s: State)
    requires DecodedArrived(first, arrivals, s) && s.next in s.pending
    ensures DecodedArrived(first, arrivals, TakeTurn(decodes, s).0)
  {
  }

  lemma {:induction false} DrainKeepsArrived(decodes: nat -> bool, first: nat, arrivals: set<Arrival>, s: State)
    requires DecodedArrived(first, arrivals, s)
    ensures DecodedArrived(first, arrivals, Drain(decodes, s).0)
    decreases |s.pending|
  {
    if s.next in s.pending {
      TurnKeepsArrived(decodes, first, arrivals, s);
      if decodes(s.attempts) { DrainKeepsArrived(decodes, first, arrivals, TakeTurn(decodes, s).0); }
    }
  }

  lemma PushKeepsArrived(decodes: nat -> bool, first: nat, arrivals: seq<Arrival>, s: State, a: Arrival)
    requires DecodedArrived(first, Arrived(arrivals), s)
    ensures DecodedArrived(first, Arrived(arrivals + [a]), PushStep(decodes, s, a).0)
  {
    assert a in Arrived(arrivals + [a]);
    assert Arrived(arrivals) <= Arrived(arrivals + [a]) by { assert forall x :: x in arrivals ==> x in arrivals + [a]; }
    if a.sequence >= s.next {
      DrainKeepsArrived(decodes, first, Arrived(arrivals + [a]), s.(pending := Keep(s.pending, a)));
    }
  }

  ghost function Arrived(arrivals: seq<Arrival>): set<Arrival> { set a | a in arrivals }

  lemma {:induction false} EveryTurnArrived(decodes: nat -> bool, first: u64, arrivals: seq<Arrival>)
    ensures DecodedArrived(first, Arrived(arrivals), Run(decodes, first, arrivals).0)
  {
    if arrivals != [] {
      var n := |arrivals| - 1;
      var a := arrivals[n];
      assert arrivals == arrivals[..n] + [a];
      EveryTurnArrived(decodes, first, arrivals[..n]);
      PushKeepsArrived(decodes, first, arrivals[..n], Run(decodes, first, arrivals[..n]).0, a);
    }
  }

  /** A concrete run: from the greatest sequence on, two arrivals of its part decode twice. */
  lemma LastSequenceDecodesTwice(body: Bytes)
    ensures var a := Arrival(U64_MAX, body);
            Run(n => true, U64_MAX, [a, a]).0.decoded == [body, body]
  {
    var a := Arrival(U64_MAX, body);
    var always := n => true;
    assert [a, a][..1] == [a] && [a][..0] == [];
    LastSequenceRepeats(always, Run(always, U64_MAX, []).0, a);
    LastSequenceRepeats(always, Run(always, U64_MAX, [a]).0, a);
  }

  // ---- The consumer itself ----

  class SoundKitOpusConsumer {
    var nextSequence: u64
    var pendingParts: map<u64, Bytes>
    var attempts: nat
    ghost const first: u64
    ghost var decoded: seq<Bytes>
    ghost var arrivals: seq<Arrival>
    ghost var failed: bool

    ghost function View(): State
      reads this
    {
      State(nextSequence, pendingParts, decoded, attempts)
    }

    /** Every decoded body had its own turn; until a decoding fails they are in order and complete. */
    ghost predicate Valid()
      reads this
    {
      && DecodedArrived(first, Arrived(arrivals), View())
      && (!failed ==> Ordered(first, arrivals, View()) || Exhausted(first, arrivals, View()))
    }

    constructor (firstSequence: u64)
      ensures Valid() && first == firstSequence && arrivals == [] && !failed
    {
      nextSequence, pendingParts, attempts := firstSequence, map[], 0;
      first, decoded, arrivals, failed := firstSequence, [], [], false;
    }

    /** False when a decoding failed: that part is gone and its turn is not passed on. While all
        succeed and some sequence is missing, `next` is the least missing one. */
    method PushPart(decodes: nat -> bool, sequence: u64, bytes: Bytes) returns (ok: bool)
      requires Valid()
      modifies this
      ensures Valid()
      ensures arrivals == old(arrivals) + [Arrival(sequence, bytes)] && failed == (old(failed) || !ok)
      ensures if sequence < old(nextSequence) then View() == old(View()) && ok
              else Drained(decodes, old(View()).(pending := if sequence in old(pendingParts) then old(pendingParts)
                                                            else old(pendingParts)[sequence := bytes]), View(), ok)
      ensures (View(), ok) == PushStep(decodes, old(View()), Arrival(sequence, bytes))
      ensures !failed ==> (Ordered(first, arrivals, View()) <==> SomeMissing(first, arrivals))
    {
      ghost var a := Arrival(sequence, bytes);
      PushTakes(decodes, View(), a);
      PushKeepsArrived(decodes, first, arrivals, View(), a);
      if !failed && PushStep(decodes, View(), a).1 { PushEndsOrdered(decodes, first, arrivals, View(), a); }
      ok := Receive(decodes, sequence, bytes);
      arrivals, failed := arrivals + [a], failed || !ok;
      if !failed { OrderedIffMissing(first, arrivals, View()); }
    }

    method Receive(decodes: nat -> bool, sequence: u64, bytes: Bytes) returns (ok: bool)
      modifies this`nextSequence, this`pendingParts, this`attempts, this`decoded
      ensures (View(), ok) == PushStep(decodes, old(View()), Arrival(sequence, bytes))
    {
      if sequence < nextSequence {
        return true;
      }
      ghost var outcome := PushStep(decodes, View(), Arrival(sequence, bytes));
      if sequence !in pendingParts {
        pendingParts := pendingParts[sequence := bytes];
      }
      while nextSequence in pendingParts
        invariant Drain(decodes, View()) == outcome
        decreases |pendingParts|
      {
        var decodedPart := TakePart(decodes);
        if !decodedPart {
          return false;
        }
      }
      return true;
    }

    method TakePart(decodes: nat -> bool) returns (ok: bool)
      requires nextSequence in pendingParts
      modifies this`nextSequence, this`pendingParts, this`attempts, this`decoded
      ensures (View(), ok) == TakeTurn(decodes, old(View()))
      ensures |pendingParts| < |old(pendingParts)|
    {
      var part := pendingParts[nextSequence];
      pendingParts := pendingParts - {nextSequence};
      attempts := attempts + 1;
      ok := decodes(attempts - 1);
      if ok {
        decoded := decoded + [part];
        nextSequence := SatAdd(nextSequence, 1);
      }
    }
  }
}
