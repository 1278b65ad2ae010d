/** Every interleaving of gate requests with each other and with control events. */
module PublishIngressRuns {
  import opened Wrappers
  import opened Words
  import opened Sets
  import opened BindingRegistry
  import opened SequenceWindows
  import opened PublishIngress

  /** A request between two of its atomic steps. `resolvedAt` counts the control events
      that had happened when its binding was resolved. */
  datatype Progress =
    | Resolved(ticket: Ticket, resolvedAt: nat)
    | Checked(ticket: Ticket, resolvedAt: nat, capability: string)

  datatype Issue = Issue(capability: string, lease: Lease, resolvedAt: nat)

  /** `controls`, `issued`, `passes` and the two clocks are history: the control events so far,
      the leases handed out, what the guard let through before expiry, and the latest
      request time seen under each lock. */
  datatype System = System(
    registry: Registry, admissions: Admissions, sequences: Sequences,
    inFlight: map<nat, Progress>,
    controls: seq<ControlEvent>, issued: seq<Issue>, passes: set<(string, Fingerprint)>,
    guardClock: Option<int>, sequenceClock: Option<int>)

  datatype Step =
    | Control(event: ControlEvent)
    | Begin(id: nat, request: Request)
    | Check(id: nat, verdict: Verdict)
    | Finish(id: nat)

  const START: System := System(EMPTY, map[], map[], map[], [], [], {}, None, None)

  function Tick(clock: Option<int>, now: int): Option<int> {
    if clock.Some? && clock.value > now then clock else Some(now)
  }

  predicate Before(clock: Option<int>, time: int) { clock.None? || clock.value < time }

  function Apply(f: Foreign, s: System, step: Step): System {
    match step
    case Control(e) => s.(registry := ApplyEvent(s.registry, e), controls := s.controls + [e])
    case Begin(id, q) =>
      var r := ResolveStep(f, s.registry, q);
      if id in s.inFlight || r.Err? then s
      else s.(inFlight := s.inFlight[id := Resolved(r.value, |s.controls|)])
    case Check(id, v) =>
      if id in s.inFlight && s.inFlight[id].Resolved? then ApplyCheck(f, s, id, v) else s
    case Finish(id) =>
      if id in s.inFlight && s.inFlight[id].Checked? then ApplyFinish(f, s, id) else s
  }

  function ApplyCheck(f: Foreign, s: System, id: nat, v: Verdict): System
    requires id in s.inFlight && s.inFlight[id].Resolved?
  {
    var t := s.inFlight[id].ticket;
    var (admissions, r) := GuardStep(f, s.admissions, t, v);
    if v.Refuses? then s.(inFlight := s.inFlight - {id})
    else
      var fingerprint := FingerprintOf(t.registered.binding, t.envelope.key);
      s.(admissions := admissions,
         guardClock := Tick(s.guardClock, t.request.now),
         passes := if r.Ok? && t.request.now < f.claims(r.value).expiresAt
                   then s.passes + {(r.value, fingerprint)} else s.passes,
         inFlight := if r.Ok? then s.inFlight[id := Checked(t, s.inFlight[id].resolvedAt, r.value)]
                     else s.inFlight - {id})
  }

  function ApplyFinish(f: Foreign, s: System, id: nat): System
    requires id in s.inFlight && s.inFlight[id].Checked?
  {
    var Checked(t, resolvedAt, capability) := s.inFlight[id];
    var (sequences, r) := FinishStep(f, s.sequences, t, capability);
    s.(sequences := sequences,
       sequenceClock := if LimitCheck(f, t, capability).Ok? then Tick(s.sequenceClock, t.request.now) else s.sequenceClock,
       issued := if r.Ok? then s.issued + [Issue(capability, r.value, resolvedAt)] else s.issued,
       inFlight := s.inFlight - {id})
  }

  function ApplyAll(f: Foreign, s: System, steps: seq<Step>): System {
    if steps == [] then s else Apply(f, ApplyAll(f, s, steps[..|steps| - 1]), steps[|steps| - 1])
  }

  // ---------------------------------------------------------------- time hypotheses

  /** No request reaches the capability lock before a capability's expiry, by its own clock,
      after that lock has already seen a time at or past the expiry. */
  predicate GuardInOrder(f: Foreign, s: System, step: Step) {
    match step
    case Check(id, Admits(capability, _)) =>
      (id in s.inFlight && s.inFlight[id].Resolved?
       && s.inFlight[id].ticket.request.now < f.claims(capability).expiresAt)
      ==> Before(s.guardClock, f.claims(capability).expiresAt)
    case _ => true
  }

  /** The same for the sequence lock. */
  predicate SequenceInOrder(f: Foreign, s: System, step: Step) {
    match step
    case Finish(id) =>
      (id in s.inFlight && s.inFlight[id].Checked?
       && LimitCheck(f, s.inFlight[id].ticket, s.inFlight[id].capability).Ok?)
      ==> Before(s.sequenceClock, f.claims(s.inFlight[id].capability).expiresAt)
    case _ => true
  }

  predicate SequencesInOrder(f: Foreign, steps: seq<Step>) {
    steps == [] || (SequencesInOrder(f, steps[..|steps| - 1])
                    && SequenceInOrder(f, ApplyAll(f, START, steps[..|steps| - 1]), steps[|steps| - 1]))
  }

  predicate GuardsInOrder(f: Foreign, steps: seq<Step>) {
    steps == [] || (GuardsInOrder(f, steps[..|steps| - 1])
                    && GuardInOrder(f, ApplyAll(f, START, steps[..|steps| - 1]), steps[|steps| - 1]))
  }

  /** The request time a step brings to a lock, if it takes one. */
  function LockTime(f: Foreign, s: System, step: Step): Option<int> {
    match step
    case Check(id, v) =>
      if id in s.inFlight && s.inFlight[id].Resolved? && v.Admits? then Some(s.inFlight[id].ticket.request.now) else None
    case Finish(id) =>
      if id in s.inFlight && s.inFlight[id].Checked? && LimitCheck(f, s.inFlight[id].ticket, s.inFlight[id].capability).Ok?
      then Some(s.inFlight[id].ticket.request.now) else None
    case _ => None
  }

  predicate TimeHolds(f: Foreign, s: System, step: Step) {
    var t := LockTime(f, s, step);
    t.Some? ==> var clock := if step.Check? then s.guardClock else s.sequenceClock;
                clock.None? || clock.value <= t.value
  }

  /** Request times never go back under either lock. */
  predicate TimesNondecreasing(f: Foreign, steps: seq<Step>) {
    steps == [] || (TimesNondecreasing(f, steps[..|steps| - 1])
                    && TimeHolds(f, ApplyAll(f, START, steps[..|steps| - 1]), steps[|steps| - 1]))
  }

  /** Nondecreasing request times keep both orders. */
  lemma {:induction false} NondecreasingTimesAreInOrder(f: Foreign, steps: seq<Step>)
    requires TimesNondecreasing(f, steps)
    ensures GuardsInOrder(f, steps) && SequencesInOrder(f, steps)
  {
    if steps != [] {
      NondecreasingTimesAreInOrder(f, steps[..|steps| - 1]);
      var s := ApplyAll(f, START, steps[..|steps| - 1]);
      assert GuardInOrder(f, s, steps[|steps| - 1]) && SequenceInOrder(f, s, steps[|steps| - 1]);
    }
  }

  // ---------------------------------------------------------------- bindings and the fence

  /** `entry` is what `key` resolved to when `resolvedAt` control events had happened. */
  ghost predicate ResolvedAt(s: System, key: BindingKey, entry: Registered, resolvedAt: nat) {
    && resolvedAt <= |s.controls|
    && entry.binding.configuration.key == key
    && Resolve(ApplyEvents(EMPTY, s.controls[..resolvedAt]), key) == Ok(entry)
  }

  ghost predicate TicketOk(s: System, p: Progress) {
    ResolvedAt(s, p.ticket.envelope.key, p.ticket.registered, p.resolvedAt)
  }

  ghost predicate IssueOk(s: System, i: Issue) {
    ResolvedAt(s, i.lease.envelope.key, Registered(i.lease.binding, i.lease.bindingRevision, true), i.resolvedAt)
  }

  ghost predicate BindingsOk(s: System) {
    && s.registry == ApplyEvents(EMPTY, s.controls)
    && Valid(s.registry)
    && (forall id :: id in s.inFlight ==> TicketOk(s, s.inFlight[id]))
    && (forall i :: 0 <= i < |s.issued| ==> IssueOk(s, s.issued[i]))
  }

  lemma {:induction false} EventsConcat(r: Registry, a: seq<ControlEvent>, b: seq<ControlEvent>)
    ensures ApplyEvents(r, a + b) == ApplyEvents(ApplyEvents(r, a), b)
    decreases |a|
  {
    if a == [] {
      assert a + b == b;
    } else {
      assert (a + b)[1..] == a[1..] + b;
      EventsConcat(ApplyEvent(r, a[0]), a[1..], b);
    }
  }

  lemma ControlKeepsBindings(f: Foreign, s: System, e: ControlEvent)
    requires BindingsOk(s)
    ensures BindingsOk(Apply(f, s, Control(e)))
  {
    var s' := Apply(f, s, Control(e));
    EventsConcat(EMPTY, s.controls, [e]);
    EventKeepsValid(s.registry, e);
    assert ApplyEvents(s.registry, [e]) == ApplyEvent(s.registry, e) by {
      assert ApplyEvents(ApplyEvent(s.registry, e), []) == ApplyEvent(s.registry, e);
    }
    assert forall n :: 0 <= n <= |s.controls| ==> s'.controls[..n] == s.controls[..n];
    forall id | id in s'.inFlight ensures TicketOk(s', s'.inFlight[id]) {
      assert TicketOk(s, s.inFlight[id]);
    }
    forall i | 0 <= i < |s'.issued| ensures IssueOk(s', s'.issued[i]) {
      assert IssueOk(s, s.issued[i]);
    }
  }

  lemma BeginKeepsBindings(f: Foreign, s: System, id: nat, q: Request)
    requires BindingsOk(s)
    ensures BindingsOk(Apply(f, s, Begin(id, q)))
  {
    assert s.controls[..|s.controls|] == s.controls;
    var s' := Apply(f, s, Begin(id, q));
    forall i | i in s'.inFlight ensures TicketOk(s', s'.inFlight[i]) {
      if i in s.inFlight { assert TicketOk(s, s.inFlight[i]); }
    }
    forall i | 0 <= i < |s'.issued| ensures IssueOk(s', s'.issued[i]) {
      assert IssueOk(s, s.issued[i]);
    }
  }

  predicate SamePlace(p: Progress, q: Progress) { p.ticket == q.ticket && p.resolvedAt == q.resolvedAt }

  predicate IssuedFrom(i: Issue, p: Progress) {
    && i.resolvedAt == p.resolvedAt
    && i.lease.envelope == p.ticket.envelope
    && i.lease.binding == p.ticket.registered.binding
    && i.lease.bindingRevision == p.ticket.registered.revision
  }

  /** Steps that leave the control history alone only pass tickets on. */
  lemma PassingKeepsBindings(s: System, s': System, id: nat)
    requires BindingsOk(s) && id in s.inFlight
    requires s'.registry == s.registry && s'.controls == s.controls
    requires forall i :: i in s'.inFlight ==> i in s.inFlight && SamePlace(s.inFlight[i], s'.inFlight[i])
    requires forall i :: 0 <= i < |s'.issued| ==>
      ((i < |s.issued| && s'.issued[i] == s.issued[i]) || IssuedFrom(s'.issued[i], s.inFlight[id]))
    ensures BindingsOk(s')
  {
    forall i | i in s'.inFlight ensures TicketOk(s', s'.inFlight[i]) {
      assert TicketOk(s, s.inFlight[i]);
    }
    assert TicketOk(s, s.inFlight[id]);
    forall i | 0 <= i < |s'.issued| ensures IssueOk(s', s'.issued[i]) {
      if i < |s.issued| && s'.issued[i] == s.issued[i] { assert IssueOk(s, s.issued[i]); }
    }
  }

  /** A granted lease carries its ticket's binding and the claims of its capability. */
  lemma GrantedLease(f: Foreign, m: Sequences, t: Ticket, capability: string)
    ensures FinishStep(f, m, t, capability).1.Ok? ==>
      LimitCheck(f, t, capability).Ok? && FinishStep(f, m, t, capability).1.value == LeaseFor(f, t, capability)
  {
  }

  lemma FinishKeepsBindings(f: Foreign, s: System, id: nat)
    requires BindingsOk(s) && id in s.inFlight && s.inFlight[id].Checked?
    ensures BindingsOk(ApplyFinish(f, s, id))
  {
    var s' := ApplyFinish(f, s, id);
    GrantedLease(f, s.sequences, s.inFlight[id].ticket, s.inFlight[id].capability);
    if |s'.issued| > |s.issued| {
      assert IssuedFrom(s'.issued[|s.issued|], s.inFlight[id]);
    }
    PassingKeepsBindings(s, s', id);
  }

  lemma CheckKeepsBindings(f: Foreign, s: System, id: nat, v: Verdict)
    requires BindingsOk(s) && id in s.inFlight && s.inFlight[id].Resolved?
    ensures BindingsOk(ApplyCheck(f, s, id, v))
  {
    PassingKeepsBindings(s, ApplyCheck(f, s, id, v), id);
  }

  lemma StepKeepsBindings(f: Foreign, s: System, step: Step)
    requires BindingsOk(s)
    ensures BindingsOk(Apply(f, s, step))
  {
    match step
    case Control(e) => ControlKeepsBindings(f, s, e);
    case Begin(id, q) => BeginKeepsBindings(f, s, id, q);
    case Check(id, v) =>
      if id in s.inFlight && s.inFlight[id].Resolved? { CheckKeepsBindings(f, s, id, v); }
    case Finish(id) =>
      if id in s.inFlight && s.inFlight[id].Checked? { FinishKeepsBindings(f, s, id); }
  }

  lemma {:induction false} RunKeepsBindings(f: Foreign, steps: seq<Step>)
    ensures BindingsOk(ApplyAll(f, START, steps))
  {
    if steps != [] {
      RunKeepsBindings(f, steps[..|steps| - 1]);
      StepKeepsBindings(f, ApplyAll(f, START, steps[..|steps| - 1]), steps[|steps| - 1]);
    }
  }

  /** After any run, a lease revalidates exactly when it is unexpired, the length matches, and
      no control event since its binding was resolved invalidated its coordinates. */
  lemma LeaseFence(f: Foreign, steps: seq<Step>, i: nat, payloadBytes: nat, now: int)
    requires i < |ApplyAll(f, START, steps).issued|
    ensures var s := ApplyAll(f, START, steps);
      var issue := s.issued[i];
      && issue.resolvedAt <= |s.controls|
      && (RevalidateLease(s.registry, issue.lease, payloadBytes, now).Ok? <==>
            && now < issue.lease.expiresAt
            && payloadBytes == issue.lease.envelope.payloadBytes
            && Invalidate(issue.lease.envelope.key) !in s.controls[issue.resolvedAt..])
  {
    RunKeepsBindings(f, steps);
    var s := ApplyAll(f, START, steps);
    var issue := s.issued[i];
    assert IssueOk(s, issue);
    var before, after := s.controls[..issue.resolvedAt], s.controls[issue.resolvedAt..];
    assert before + after == s.controls;
    EventsConcat(EMPTY, before, after);
    RevocationFence(ApplyEvents(EMPTY, before), issue.lease.envelope.key, after);
  }

  // ---------------------------------------------------------------- at most once

  ghost function LeasedSequences(issued: seq<Issue>, key: SequenceKey): set<nat> {
    set i | 0 <= i < |issued| && issued[i].capability == key.0 && issued[i].lease.envelope.key == key.1
      :: issued[i].lease.envelope.sequence as nat
  }

  predicate SameFrame(a: Issue, b: Issue) {
    && a.capability == b.capability
    && a.lease.envelope.key == b.lease.envelope.key
    && a.lease.envelope.sequence == b.lease.envelope.sequence
  }

  ghost predicate FramesDistinct(issued: seq<Issue>) {
    forall i, j :: 0 <= i < j < |issued| ==> !SameFrame(issued[i], issued[j])
  }

  /** Live windows stand for exactly the leased sequences, and no window of a capability whose
      expiry the lock has seen remains. */
  ghost predicate WindowsTrack(f: Foreign, s: System) {
    forall k :: k in s.sequences ==>
      && s.sequences[k].expiresAt == f.claims(k.0).expiresAt
      && Before(s.sequenceClock, f.claims(k.0).expiresAt)
      && Represents(s.sequences[k].window, LeasedSequences(s.issued, k))
  }

  /** A leased window is kept until its capability's expiry is seen. */
  ghost predicate LeasesHeld(f: Foreign, s: System) {
    forall i :: 0 <= i < |s.issued| && Before(s.sequenceClock, f.claims(s.issued[i].capability).expiresAt)
      ==> (s.issued[i].capability, s.issued[i].lease.envelope.key) in s.sequences
  }

  ghost predicate SequencesTrackLeases(f: Foreign, s: System) { WindowsTrack(f, s) && LeasesHeld(f, s) }

  lemma LeasedSequencesExtend(issued: seq<Issue>, x: Issue, key: SequenceKey)
    ensures LeasedSequences(issued + [x], key) == LeasedSequences(issued, key)
         + if (x.capability, x.lease.envelope.key) == key then {x.lease.envelope.sequence as nat} else {}
  {
    var all := issued + [x];
    forall q | q in LeasedSequences(issued, key) ensures q in LeasedSequences(all, key) {
      var i :| 0 <= i < |issued| && issued[i].capability == key.0 && issued[i].lease.envelope.key == key.1
        && issued[i].lease.envelope.sequence == q;
      assert all[i] == issued[i];
    }
    assert all[|issued|] == x;
  }

  lemma PurgeKeepsTracking(f: Foreign, s: System, now: int)
    requires SequencesTrackLeases(f, s)
    ensures SequencesTrackLeases(f, s.(sequences := LiveSequences(s.sequences, now),
                                       sequenceClock := Tick(s.sequenceClock, now)))
  {
  }

  /** `issued` adds nothing, or one lease for `key`. */
  ghost predicate AddsLease(before: seq<Issue>, key: SequenceKey, issued: seq<Issue>) {
    issued == before
    || (|issued| == |before| + 1 && issued[..|before|] == before
        && (issued[|before|].capability, issued[|before|].lease.envelope.key) == key)
  }

  function WithWindow(f: Foreign, s: System, key: SequenceKey, window: Window, issued: seq<Issue>): System {
    s.(sequences := s.sequences[key := SequenceAdmission(window, f.claims(key.0).expiresAt)], issued := issued)
  }

  lemma UpdateKeepsWindows(f: Foreign, s: System, key: SequenceKey, window: Window, issued: seq<Issue>)
    requires WindowsTrack(f, s) && AddsLease(s.issued, key, issued)
    requires Before(s.sequenceClock, f.claims(key.0).expiresAt)
    requires Represents(window, LeasedSequences(issued, key))
    ensures WindowsTrack(f, WithWindow(f, s, key, window, issued))
  {
    if issued != s.issued {
      var x := issued[|s.issued|];
      assert issued == s.issued + [x];
      forall k | k in s.sequences && k != key
        ensures Represents(s.sequences[k].window, LeasedSequences(issued, k))
      {
        LeasedSequencesExtend(s.issued, x, k);
      }
    }
  }

  /** Replacing one window, with or without a new lease for it, keeps the tracking. */
  lemma UpdateKeepsTracking(f: Foreign, s: System, key: SequenceKey, window: Window, issued: seq<Issue>)
    requires SequencesTrackLeases(f, s) && AddsLease(s.issued, key, issued)
    requires Before(s.sequenceClock, f.claims(key.0).expiresAt)
    requires Represents(window, LeasedSequences(issued, key))
    ensures SequencesTrackLeases(f, WithWindow(f, s, key, window, issued))
  {
    UpdateKeepsWindows(f, s, key, window, issued);
    assert forall i :: 0 <= i < |s.issued| ==> issued[i] == s.issued[i];
  }

  /** The window and verdict of consuming sequence `q` for `key`. */
  function Consumed(s: System, key: SequenceKey, q: u64): (Window, bool) {
    if key in s.sequences then AdmitStep(s.sequences[key].window, q) else (FirstWindow(q), true)
  }

  function WithLease(issued: seq<Issue>, x: Issue, admitted: bool): seq<Issue> {
    if admitted then issued + [x] else issued
  }

  lemma ConsumedRepresents(f: Foreign, s: System, key: SequenceKey, x: Issue)
    requires SequencesTrackLeases(f, s) && Before(s.sequenceClock, f.claims(key.0).expiresAt)
    requires (x.capability, x.lease.envelope.key) == key
    ensures var q := x.lease.envelope.sequence;
      var (window, admitted) := Consumed(s, key, q);
      && Represents(window, LeasedSequences(WithLease(s.issued, x, admitted), key))
      && (admitted ==> q !in LeasedSequences(s.issued, key))
  {
    var q, leased := x.lease.envelope.sequence, LeasedSequences(s.issued, key);
    if key in s.sequences {
      AdmitRefinesSet(s.sequences[key].window, leased, q);
    } else {
      FirstRepresents(q);
      assert leased == {};
    }
    LeasedSequencesExtend(s.issued, x, key);
  }

  lemma NewFrameIsDistinct(issued: seq<Issue>, x: Issue)
    requires FramesDistinct(issued)
    requires x.lease.envelope.sequence !in LeasedSequences(issued, (x.capability, x.lease.envelope.key))
    ensures FramesDistinct(issued + [x])
  {
    assert forall i :: 0 <= i < |issued| ==>
      issued[i].lease.envelope.sequence
        in LeasedSequences(issued, (issued[i].capability, issued[i].lease.envelope.key));
  }

  /** Under the lock, a sequence is consumed exactly when it was never leased. */
  lemma ConsumeKeepsTracking(f: Foreign, s: System, key: SequenceKey, x: Issue)
    requires SequencesTrackLeases(f, s) && FramesDistinct(s.issued)
    requires Before(s.sequenceClock, f.claims(key.0).expiresAt)
    requires (x.capability, x.lease.envelope.key) == key
    ensures var (window, admitted) := Consumed(s, key, x.lease.envelope.sequence);
      var issued := WithLease(s.issued, x, admitted);
      SequencesTrackLeases(f, WithWindow(f, s, key, window, issued)) && FramesDistinct(issued)
  {
    var (window, admitted) := Consumed(s, key, x.lease.envelope.sequence);
    ConsumedRepresents(f, s, key, x);
    if admitted { NewFrameIsDistinct(s.issued, x); }
    UpdateKeepsTracking(f, s, key, window, WithLease(s.issued, x, admitted));
  }

  /** The state after the sequence lock has purged at time `now`. */
  function Purged(s: System, now: int): System {
    s.(sequences := LiveSequences(s.sequences, now), sequenceClock := Tick(s.sequenceClock, now))
  }

  /** The state after the last step of a request within its limits, up to the ticket itself. */
  function Settled(f: Foreign, s: System, t: Ticket, capability: string, x: Issue): System {
    var purged, key := Purged(s, t.request.now), (capability, t.envelope.key);
    if key !in purged.sequences && |purged.sequences| >= MAX_ACTIVE_PUBLISH_LEASES then purged
    else
      var (window, admitted) := Consumed(purged, key, t.envelope.sequence);
      WithWindow(f, purged, key, window, WithLease(s.issued, x, admitted))
  }

  lemma FinishSettles(f: Foreign, s: System, id: nat)
    requires id in s.inFlight && s.inFlight[id].Checked?
    requires LimitCheck(f, s.inFlight[id].ticket, s.inFlight[id].capability).Ok?
    ensures var Checked(t, resolvedAt, capability) := s.inFlight[id];
      var settled := Settled(f, s, t, capability, Issue(capability, LeaseFor(f, t, capability), resolvedAt));
      ApplyFinish(f, s, id).(inFlight := s.inFlight) == settled
  {
  }

  lemma SettlingKeepsTracking(f: Foreign, s: System, t: Ticket, capability: string, x: Issue)
    requires SequencesTrackLeases(f, s) && FramesDistinct(s.issued)
    requires (x.capability, x.lease.envelope.key) == (capability, t.envelope.key)
    requires x.lease.envelope.sequence == t.envelope.sequence
    requires Before(Tick(s.sequenceClock, t.request.now), f.claims(capability).expiresAt)
    ensures var settled := Settled(f, s, t, capability, x);
      SequencesTrackLeases(f, settled) && FramesDistinct(settled.issued)
  {
    PurgeKeepsTracking(f, s, t.request.now);
    ConsumeKeepsTracking(f, Purged(s, t.request.now), (capability, t.envelope.key), x);
  }

  /** A lease taken in order is for a frame never leased before. */
  lemma FinishKeepsTracking(f: Foreign, s: System, id: nat)
    requires id in s.inFlight && s.inFlight[id].Checked?
    requires SequencesTrackLeases(f, s) && FramesDistinct(s.issued)
    requires SequenceInOrder(f, s, Finish(id))
    ensures SequencesTrackLeases(f, ApplyFinish(f, s, id)) && FramesDistinct(ApplyFinish(f, s, id).issued)
  {
    var Checked(t, resolvedAt, capability) := s.inFlight[id];
    if LimitCheck(f, t, capability).Ok? {
      var x := Issue(capability, LeaseFor(f, t, capability), resolvedAt);
      FinishSettles(f, s, id);
      SettlingKeepsTracking(f, s, t, capability, x);
      TrackingCarriesOver(f, Settled(f, s, t, capability, x), ApplyFinish(f, s, id));
    }
  }

  /** Only the last step of a request touches the windows, their clock and the leases. */
  lemma OthersLeaveWindows(f: Foreign, s: System, step: Step)
    requires !(step.Finish? && step.id in s.inFlight && s.inFlight[step.id].Checked?)
    ensures var s' := Apply(f, s, step);
      s'.sequences == s.sequences && s'.sequenceClock == s.sequenceClock && s'.issued == s.issued
  {
  }

  lemma TrackingCarriesOver(f: Foreign, s: System, s': System)
    requires SequencesTrackLeases(f, s)
    requires s'.sequences == s.sequences && s'.sequenceClock == s.sequenceClock && s'.issued == s.issued
    ensures SequencesTrackLeases(f, s')
  {
  }

  lemma StepKeepsTracking(f: Foreign, s: System, step: Step)
    requires SequencesTrackLeases(f, s) && FramesDistinct(s.issued)
    requires SequenceInOrder(f, s, step)
    ensures SequencesTrackLeases(f, Apply(f, s, step)) && FramesDistinct(Apply(f, s, step).issued)
  {
    if step.Finish? && step.id in s.inFlight && s.inFlight[step.id].Checked? {
      FinishKeepsTracking(f, s, step.id);
    } else {
      OthersLeaveWindows(f, s, step);
      TrackingCarriesOver(f, s, Apply(f, s, step));
    }
  }

  /** Over every interleaving whose request times do not fall back across an expiry at the
      sequence lock, no (capability, coordinates, sequence) is leased twice. */
  lemma {:induction false} AtMostOnce(f: Foreign, steps: seq<Step>)
    requires SequencesInOrder(f, steps)
    ensures SequencesTrackLeases(f, ApplyAll(f, START, steps))
    ensures FramesDistinct(ApplyAll(f, START, steps).issued)
  {
    if steps != [] {
      AtMostOnce(f, steps[..|steps| - 1]);
      StepKeepsTracking(f, ApplyAll(f, START, steps[..|steps| - 1]), steps[|steps| - 1]);
    }
  }

  /** The hypothesis is needed and exact: after an in-order run, a request for a frame that
      already has a lease is given a second one if and only if it passes the limits, there is
      room, and the sequence lock has already seen a time at or past the capability's expiry. */
  lemma SecondLeaseIffRewound(f: Foreign, steps: seq<Step>, id: nat, first: nat)
    requires SequencesInOrder(f, steps)
    requires var s := ApplyAll(f, START, steps);
      && id in s.inFlight && s.inFlight[id].Checked?
      && first < |s.issued|
      && s.issued[first].capability == s.inFlight[id].capability
      && s.issued[first].lease.envelope.key == s.inFlight[id].ticket.envelope.key
      && s.issued[first].lease.envelope.sequence == s.inFlight[id].ticket.envelope.sequence
    ensures var s := ApplyAll(f, START, steps);
      var Checked(t, _, capability) := s.inFlight[id];
      FinishStep(f, s.sequences, t, capability).1.Ok? <==>
        && LimitCheck(f, t, capability).Ok?
        && |LiveSequences(s.sequences, t.request.now)| < MAX_ACTIVE_PUBLISH_LEASES
        && !Before(s.sequenceClock, f.claims(capability).expiresAt)
  {
    AtMostOnce(f, steps);
    var s := ApplyAll(f, START, steps);
    var Checked(t, _, capability) := s.inFlight[id];
    var key := (capability, t.envelope.key);
    if key in s.sequences {
      assert s.issued[first].lease.envelope.sequence as nat in LeasedSequences(s.issued, key);
      AdmitRefinesSet(s.sequences[key].window, LeasedSequences(s.issued, key), t.envelope.sequence);
    }
  }

  lemma ApplyAllExtends(f: Foreign, steps: seq<Step>, step: Step)
    ensures ApplyAll(f, START, steps + [step]) == Apply(f, ApplyAll(f, START, steps), step)
  {
    assert (steps + [step])[..|steps|] == steps;
  }

  // ---------------------------------------------------------------- which sequences are still free

  /** New, and no leased sequence is 128 or more ahead of it. */
  ghost predicate Fresh(leased: set<nat>, q: nat) {
    q !in leased && forall x :: x in leased ==> x < q + SEQUENCE_WINDOW_BITS
  }

  /** In order, a request that reached the locks is granted a lease exactly when it passes the
      limits and, with earlier leases for its capability and coordinates, its sequence is fresh
      among theirs; without any, when there is room for one more window. */
  lemma LeaseIffFresh(f: Foreign, steps: seq<Step>, id: nat)
    requires SequencesInOrder(f, steps)
    requires var s := ApplyAll(f, START, steps);
      id in s.inFlight && s.inFlight[id].Checked? && SequenceInOrder(f, s, Finish(id))
    ensures var s := ApplyAll(f, START, steps);
      var Checked(t, _, capability) := s.inFlight[id];
      var leased := LeasedSequences(s.issued, (capability, t.envelope.key));
      FinishStep(f, s.sequences, t, capability).1.Ok? <==>
        && LimitCheck(f, t, capability).Ok?
        && if leased == {} then |LiveSequences(s.sequences, t.request.now)| < MAX_ACTIVE_PUBLISH_LEASES
           else Fresh(leased, t.envelope.sequence)
  {
    AtMostOnce(f, steps);
    var s := ApplyAll(f, START, steps);
    var Checked(t, _, capability) := s.inFlight[id];
    if LimitCheck(f, t, capability).Ok? { WindowIffFresh(f, s, t, capability); }
  }

  lemma WindowIffFresh(f: Foreign, s: System, t: Ticket, capability: string)
    requires SequencesTrackLeases(f, s) && Before(s.sequenceClock, f.claims(capability).expiresAt)
    requires t.request.now < f.claims(capability).expiresAt
    ensures var leased := LeasedSequences(s.issued, (capability, t.envelope.key));
      SequenceStep(f, s.sequences, t, capability).1.Ok? <==>
        if leased == {} then |LiveSequences(s.sequences, t.request.now)| < MAX_ACTIVE_PUBLISH_LEASES
        else Fresh(leased, t.envelope.sequence)
  {
    var key := (capability, t.envelope.key);
    var leased, q := LeasedSequences(s.issued, key), t.envelope.sequence;
    if key in s.sequences {
      var highest := s.sequences[key].window.highest;
      AdmitRefinesSet(s.sequences[key].window, leased, q);
      assert highest as nat in leased;
      assert Admissible(leased, highest, q) <==> Fresh(leased, q);
    } else {
      assert leased == {};
    }
  }

  // ---------------------------------------------------------------- concrete runs

  /** Coordinates number `n`, their frame and their route. */
  function FrameOf(n: u64): Envelope { Envelope(BindingKey(1, 1, n), 7, 0, 0) }

  function RouteOf(n: u64): Binding {
    Binding(Configuration(Identity("s", "e", None, None, None, OtherMedia, 0), BindingKey(1, 1, n), 0, 0, false, false),
            1, Publish, "edge")
  }

  function PrintOf(n: u64): Fingerprint { FingerprintOf(RouteOf(n), FrameOf(n).key) }

  const OPEN: Foreign :=
    Foreign(1, 1, (e, c) => Ok(()), c => Claims(if c == "a" then 10 else 100, 0, 0, 0))

  /** A frame sent at time `now`. */
  function FrameAt(n: u64, now: int): Request { Request(1, 1, Ok(FrameOf(n)), true, 0, 1, now) }

  /** One request served from start to end. */
  function Serve(id: nat, n: u64, now: int, capability: string): seq<Step> {
    [Begin(id, FrameAt(n, now)), Check(id, Admits(capability, None)), Finish(id)]
  }

  /** Two routes installed. */
  const ROUTED: Registry := Registry(2, map[FrameOf(1).key := Registered(RouteOf(1), 1, true),
                                            FrameOf(2).key := Registered(RouteOf(2), 2, true)])

  function TicketAt(n: u64, now: int): Ticket
    requires 1 <= n <= 2
  {
    Ticket(FrameAt(n, now), FrameOf(n), Registered(RouteOf(n), n, true))
  }

  /** The capability lock leaves room for `capability` with the frame's fingerprint. */
  predicate GuardClear(s: System, id: nat, n: u64, now: int, capability: string) {
    && id !in s.inFlight && s.registry == ROUTED
    && now < OPEN.claims(capability).expiresAt
    && |LiveAdmissions(s.admissions, now)| < 2
    && (capability in s.admissions ==> s.admissions[capability].fingerprint == PrintOf(n))
  }

  /** The sequence lock has room and no live window for the frame under `capability`. */
  predicate SequenceClear(s: System, id: nat, n: u64, now: int, capability: string) {
    && id !in s.inFlight
    && now < OPEN.claims(capability).expiresAt
    && |LiveSequences(s.sequences, now)| < 2
    && (capability, FrameOf(n).key) !in LiveSequences(s.sequences, now)
  }

  predicate Clear(s: System, id: nat, n: u64, now: int, capability: string) {
    GuardClear(s, id, n, now, capability) && SequenceClear(s, id, n, now, capability)
  }

  function Granted(s: System, n: u64, now: int, capability: string): System
    requires 1 <= n <= 2
  {
    var expiresAt := OPEN.claims(capability).expiresAt;
    var window := SequenceAdmission(FirstWindow(7), expiresAt);
    s.(admissions := LiveAdmissions(s.admissions, now)[capability := CapabilityAdmission(PrintOf(n), expiresAt)],
       sequences := LiveSequences(s.sequences, now)[(capability, FrameOf(n).key) := window],
       issued := s.issued + [Issue(capability, LeaseFor(OPEN, TicketAt(n, now), capability), |s.controls|)],
       passes := s.passes + {(capability, PrintOf(n))},
       guardClock := Tick(s.guardClock, now), sequenceClock := Tick(s.sequenceClock, now))
  }

  lemma BeginGrants(s: System, id: nat, n: u64, now: int)
    requires id !in s.inFlight && s.registry == ROUTED && 1 <= n <= 2
    ensures Apply(OPEN, s, Begin(id, FrameAt(n, now)))
         == s.(inFlight := s.inFlight[id := Resolved(TicketAt(n, now), |s.controls|)])
  {
    assert FrameOf(1).key != FrameOf(2).key;
    assert ResolveStep(OPEN, ROUTED, FrameAt(n, now)) == Ok(TicketAt(n, now));
  }

  lemma CheckGrants(s: System, id: nat, n: u64, now: int, capability: string)
    requires GuardClear(s, id, n, now, capability) && 1 <= n <= 2
    ensures var t, resolvedAt := TicketAt(n, now), |s.controls|;
      Apply(OPEN, s.(inFlight := s.inFlight[id := Resolved(t, resolvedAt)]), Check(id, Admits(capability, None)))
      == s.(inFlight := s.inFlight[id := Checked(t, resolvedAt, capability)],
            admissions := Granted(s, n, now, capability).admissions,
            passes := Granted(s, n, now, capability).passes,
            guardClock := Granted(s, n, now, capability).guardClock)
  {
    var t := TicketAt(n, now);
    assert GuardStep(OPEN, s.admissions, t, Admits(capability, None))
        == (Granted(s, n, now, capability).admissions, Ok(capability));
    var s1 := s.(inFlight := s.inFlight[id := Resolved(t, |s.controls|)]);
    assert s1.inFlight[id := Checked(t, |s.controls|, capability)] == s.inFlight[id := Checked(t, |s.controls|, capability)];
  }

  lemma FinishGrants(s: System, id: nat, n: u64, now: int, capability: string)
    requires SequenceClear(s, id, n, now, capability) && 1 <= n <= 2
    ensures var t, resolvedAt := TicketAt(n, now), |s.controls|;
      Apply(OPEN, s.(inFlight := s.inFlight[id := Checked(t, resolvedAt, capability)]), Finish(id))
      == s.(sequences := Granted(s, n, now, capability).sequences,
            issued := Granted(s, n, now, capability).issued,
            sequenceClock := Granted(s, n, now, capability).sequenceClock)
  {
    var t := TicketAt(n, now);
    assert LimitCheck(OPEN, t, capability).Ok?;
    assert FinishStep(OPEN, s.sequences, t, capability)
        == (Granted(s, n, now, capability).sequences, Ok(LeaseFor(OPEN, t, capability)));
    assert s.inFlight[id := Checked(t, |s.controls|, capability)] - {id} == s.inFlight;
  }

  lemma ServeGrants(s: System, id: nat, n: u64, now: int, capability: string)
    requires Clear(s, id, n, now, capability) && 1 <= n <= 2
    ensures var steps := Serve(id, n, now, capability);
      Apply(OPEN, Apply(OPEN, Apply(OPEN, s, steps[0]), steps[1]), steps[2]) == Granted(s, n, now, capability)
  {
    BeginGrants(s, id, n, now);
    CheckGrants(s, id, n, now, capability);
    var g := Granted(s, n, now, capability);
    FinishGrants(s.(admissions := g.admissions, passes := g.passes, guardClock := g.guardClock), id, n, now, capability);
  }

  lemma ServeRun(steps: seq<Step>, id: nat, n: u64, now: int, capability: string)
    requires Clear(ApplyAll(OPEN, START, steps), id, n, now, capability) && 1 <= n <= 2
    ensures ApplyAll(OPEN, START, steps + Serve(id, n, now, capability))
         == Granted(ApplyAll(OPEN, START, steps), n, now, capability)
  {
    var more := Serve(id, n, now, capability);
    ApplyAllExtends(OPEN, steps, more[0]);
    ApplyAllExtends(OPEN, steps + [more[0]], more[1]);
    ApplyAllExtends(OPEN, steps + [more[0]] + [more[1]], more[2]);
    assert steps + more == steps + [more[0]] + [more[1]] + [more[2]];
    ServeGrants(ApplyAll(OPEN, START, steps), id, n, now, capability);
  }

  predicate Quiet(s: System) { s.registry == ROUTED && s.inFlight == map[] }

  /** Both maps hold exactly the entries of `capability` for frame 1. */
  predicate HoldsOnly(s: System, capability: string, expiresAt: int) {
    && s.admissions == map[capability := CapabilityAdmission(PrintOf(1), expiresAt)]
    && s.sequences == map[(capability, FrameOf(1).key) := SequenceAdmission(FirstWindow(7), expiresAt)]
  }

  /** Frame 1 served when nothing live is left. */
  lemma ServeAlone(steps: seq<Step>, id: nat, now: int, capability: string)
    requires var s := ApplyAll(OPEN, START, steps);
      && Quiet(s) && now < OPEN.claims(capability).expiresAt
      && LiveAdmissions(s.admissions, now) == map[] && LiveSequences(s.sequences, now) == map[]
      && (capability in s.admissions ==> s.admissions[capability].fingerprint == PrintOf(1))
    ensures var s, s' := ApplyAll(OPEN, START, steps), ApplyAll(OPEN, START, steps + Serve(id, 1, now, capability));
      && Quiet(s') && HoldsOnly(s', capability, OPEN.claims(capability).expiresAt)
      && |s'.issued| == |s.issued| + 1 && s'.issued[..|s.issued|] == s.issued
      && s'.issued[|s.issued|].capability == capability && s'.issued[|s.issued|].lease.envelope == FrameOf(1)
  {
    assert Clear(ApplyAll(OPEN, START, steps), id, 1, now, capability);
    ServeRun(steps, id, 1, now, capability);
  }

  lemma InstallRoutes() returns (steps: seq<Step>)
    ensures var s := ApplyAll(OPEN, START, steps);
      Quiet(s) && s.admissions == map[] && s.sequences == map[] && s.issued == []
  {
    var first, second := Control(Install(RouteOf(1))), Control(Install(RouteOf(2)));
    ApplyAllExtends(OPEN, [], first);
    ApplyAllExtends(OPEN, [] + [first], second);
    assert FrameOf(1).key != FrameOf(2).key;
    var one := InstallStep(EMPTY, RouteOf(1)).0;
    assert one == Registry(1, map[FrameOf(1).key := Registered(RouteOf(1), 1, true)]);
    assert InstallStep(one, RouteOf(2)).0 == ROUTED;
    steps := [] + [first] + [second];
  }

  lemma PurgedAtTwenty(s: System)
    requires HoldsOnly(s, "a", 10)
    ensures LiveAdmissions(s.admissions, 20) == map[] && LiveSequences(s.sequences, 20) == map[]
  {
  }

  lemma ClearForRepeat(s: System, n: u64)
    requires Quiet(s) && HoldsOnly(s, "b", 100)
    ensures Clear(s, 2, n, 5, "a")
  {
    assert LiveAdmissions(s.admissions, 5) == s.admissions && LiveSequences(s.sequences, 5) == s.sequences;
    assert "a" != "b";
  }

  lemma LeaseThenPurge() returns (steps: seq<Step>)
    ensures var s := ApplyAll(OPEN, START, steps);
      && Quiet(s) && HoldsOnly(s, "b", 100)
      && |s.issued| == 2 && s.issued[0].capability == "a" && s.issued[0].lease.envelope == FrameOf(1)
  {
    var r0 := InstallRoutes();
    assert LiveAdmissions(map[], 5) == map[] && LiveSequences(map[], 5) == map[];
    ServeAlone(r0, 0, 5, "a");
    var r1 := r0 + Serve(0, 1, 5, "a");
    PurgedAtTwenty(ApplyAll(OPEN, START, r1));
    assert "a" != "b";
    ServeAlone(r1, 1, 20, "b");
    steps := r1 + Serve(1, 1, 20, "b");
  }

  /** A concrete run whose clock goes back: the frame is leased at time 5, another
      capability's request at time 20 purges the window, and a repeat at time 5 is leased again. */
  lemma RewoundClockLeasesTwice() returns (steps: seq<Step>)
    ensures var issued := ApplyAll(OPEN, START, steps).issued;
      |issued| == 3 && SameFrame(issued[0], issued[2])
    ensures !SequencesInOrder(OPEN, steps)
  {
    var before := LeaseThenPurge();
    ClearForRepeat(ApplyAll(OPEN, START, before), 1);
    ServeRun(before, 2, 1, 5, "a");
    steps := before + Serve(2, 1, 5, "a");
    assert SameFrame(ApplyAll(OPEN, START, steps).issued[0], ApplyAll(OPEN, START, steps).issued[2]);
    if SequencesInOrder(OPEN, steps) { AtMostOnce(OPEN, steps); }
  }

  // ---------------------------------------------------------------- one binding per capability

  /** Guard passes give each capability one fingerprint; the guard remembers it until expiry. */
  ghost predicate GuardTracksPasses(f: Foreign, s: System) {
    && (forall p, q :: p in s.passes && q in s.passes && p.0 == q.0 ==> p == q)
    && (forall p :: p in s.passes && Before(s.guardClock, f.claims(p.0).expiresAt)
          ==> p.0 in s.admissions && s.admissions[p.0].fingerprint == p.1)
    && (forall c :: c in s.admissions ==> s.admissions[c].expiresAt == f.claims(c).expiresAt)
    && (forall id :: id in s.inFlight && s.inFlight[id].Checked?
          && s.inFlight[id].ticket.request.now < f.claims(s.inFlight[id].capability).expiresAt
          ==> (s.inFlight[id].capability,
               FingerprintOf(s.inFlight[id].ticket.registered.binding, s.inFlight[id].ticket.envelope.key)) in s.passes)
    && (forall i :: 0 <= i < |s.issued|
          ==> (s.issued[i].capability, FingerprintOf(s.issued[i].lease.binding, s.issued[i].lease.envelope.key)) in s.passes)
  }

  /** What the guard call alone does to the recorded passes. */
  lemma GuardKeepsPasses(f: Foreign, s: System, fingerprint: Fingerprint, now: int, capability: string)
    requires GuardTracksPasses(f, s)
    requires now < f.claims(capability).expiresAt ==> Before(s.guardClock, f.claims(capability).expiresAt)
    ensures var (admissions, admitted) :=
        CheckAndAdmit(s.admissions, fingerprint, now, capability, f.claims(capability).expiresAt);
      GuardOutcome(f, s, fingerprint, now, capability, admissions, admitted)
  {
  }

  ghost predicate GuardOutcome(f: Foreign, s: System, fingerprint: Fingerprint, now: int, capability: string,
                               admissions: Admissions, admitted: bool) {
    && (admitted && now < f.claims(capability).expiresAt
        ==> forall p :: p in s.passes && p.0 == capability ==> p.1 == fingerprint)
    && (forall p :: p in s.passes && Before(Tick(s.guardClock, now), f.claims(p.0).expiresAt) ==>
          p.0 in admissions && admissions[p.0].fingerprint == p.1)
    && (forall c :: c in admissions ==> admissions[c].expiresAt == f.claims(c).expiresAt)
    && (admitted ==> capability in admissions && admissions[capability].fingerprint == fingerprint)
  }

  /** `s'` is `s` after the guard answered request `id`: it is gone, or it goes on and its pass is
      recorded. */
  ghost predicate Recorded(f: Foreign, s: System, id: nat, now: int, capability: string, fingerprint: Fingerprint,
                           admissions: Admissions, admitted: bool, s': System)
    requires id in s.inFlight && s.inFlight[id].Resolved?
  {
    && s'.admissions == admissions && s'.issued == s.issued && s'.guardClock == Tick(s.guardClock, now)
    && ((s'.inFlight == s.inFlight - {id} && s'.passes == s.passes)
        || (admitted
            && s'.inFlight == s.inFlight[id := Checked(s.inFlight[id].ticket, s.inFlight[id].resolvedAt, capability)]
            && s'.passes == if now < f.claims(capability).expiresAt then s.passes + {(capability, fingerprint)}
                            else s.passes))
  }

  lemma CheckRecords(f: Foreign, s: System, id: nat, v: Verdict)
    requires id in s.inFlight && s.inFlight[id].Resolved? && v.Admits?
    ensures var t := s.inFlight[id].ticket;
      var fingerprint := FingerprintOf(t.registered.binding, t.envelope.key);
      var (admissions, admitted) :=
        CheckAndAdmit(s.admissions, fingerprint, t.request.now, v.capability, f.claims(v.capability).expiresAt);
      Recorded(f, s, id, t.request.now, v.capability, fingerprint, admissions, admitted, ApplyCheck(f, s, id, v))
  {
  }

  lemma RecordPass(f: Foreign, s: System, id: nat, now: int, capability: string, fingerprint: Fingerprint,
                   admissions: Admissions, admitted: bool, s': System)
    requires GuardTracksPasses(f, s) && id in s.inFlight && s.inFlight[id].Resolved?
    requires var t := s.inFlight[id].ticket;
      now == t.request.now && fingerprint == FingerprintOf(t.registered.binding, t.envelope.key)
    requires GuardOutcome(f, s, fingerprint, now, capability, admissions, admitted)
    requires Recorded(f, s, id, now, capability, fingerprint, admissions, admitted, s')
    ensures GuardTracksPasses(f, s')
  {
  }

  lemma CheckKeepsPasses(f: Foreign, s: System, id: nat, v: Verdict)
    requires id in s.inFlight && s.inFlight[id].Resolved?
    requires GuardTracksPasses(f, s) && GuardInOrder(f, s, Check(id, v))
    ensures GuardTracksPasses(f, ApplyCheck(f, s, id, v))
  {
    if v.Admits? {
      var t, s' := s.inFlight[id].ticket, ApplyCheck(f, s, id, v);
      var fingerprint := FingerprintOf(t.registered.binding, t.envelope.key);
      var (admissions, admitted) :=
        CheckAndAdmit(s.admissions, fingerprint, t.request.now, v.capability, f.claims(v.capability).expiresAt);
      GuardKeepsPasses(f, s, fingerprint, t.request.now, v.capability);
      CheckRecords(f, s, id, v);
      RecordPass(f, s, id, t.request.now, v.capability, fingerprint, admissions, admitted, s');
    }
  }

  lemma FinishKeepsPasses(f: Foreign, s: System, id: nat)
    requires id in s.inFlight && s.inFlight[id].Checked?
    requires GuardTracksPasses(f, s)
    ensures GuardTracksPasses(f, ApplyFinish(f, s, id))
  {
    var Checked(t, resolvedAt, capability) := s.inFlight[id];
    GrantedLease(f, s.sequences, t, capability);
  }

  lemma StepKeepsPasses(f: Foreign, s: System, step: Step)
    requires GuardTracksPasses(f, s) && GuardInOrder(f, s, step)
    ensures GuardTracksPasses(f, Apply(f, s, step))
  {
    match step
    case Control(e) =>
    case Begin(id, q) =>
    case Check(id, v) =>
      if id in s.inFlight && s.inFlight[id].Resolved? { CheckKeepsPasses(f, s, id, v); }
    case Finish(id) =>
      if id in s.inFlight && s.inFlight[id].Checked? { FinishKeepsPasses(f, s, id); }
  }

  lemma {:induction false} RunKeepsPasses(f: Foreign, steps: seq<Step>)
    requires GuardsInOrder(f, steps)
    ensures GuardTracksPasses(f, ApplyAll(f, START, steps))
  {
    if steps != [] {
      RunKeepsPasses(f, steps[..|steps| - 1]);
      StepKeepsPasses(f, ApplyAll(f, START, steps[..|steps| - 1]), steps[|steps| - 1]);
    }
  }

  /** All leases ever issued under one capability share their coordinates, their fingerprint
      and the one binding installed there. */
  lemma OneCapabilityOneBinding(f: Foreign, steps: seq<Step>, i: nat, j: nat)
    requires GuardsInOrder(f, steps)
    requires var issued := ApplyAll(f, START, steps).issued;
      i < |issued| && j < |issued| && issued[i].capability == issued[j].capability
    ensures var issued := ApplyAll(f, START, steps).issued;
      && issued[i].lease.envelope.key == issued[j].lease.envelope.key
      && issued[i].lease.binding == issued[j].lease.binding
  {
    RunKeepsPasses(f, steps);
    RunKeepsBindings(f, steps);
    var s := ApplyAll(f, START, steps);
    assert IssueOk(s, s.issued[i]) && IssueOk(s, s.issued[j]);
    IssuedBindingIsInstalled(s, i);
    IssuedBindingIsInstalled(s, j);
  }

  /** The hypothesis is needed and exact: after an in-order run, a capability that already passed
      with one fingerprint is admitted before its expiry with another if and only if the capability
      lock has already seen a time at or past the expiry and the guard has no live record of it. */
  lemma SecondFingerprintIffRewound(f: Foreign, steps: seq<Step>, first: Fingerprint, t: Ticket, capability: string)
    requires GuardsInOrder(f, steps) && (capability, first) in ApplyAll(f, START, steps).passes
    requires t.request.now < f.claims(capability).expiresAt
    requires FingerprintOf(t.registered.binding, t.envelope.key) != first
    ensures var s := ApplyAll(f, START, steps);
      GuardStep(f, s.admissions, t, Admits(capability, None)).1.Ok? <==>
        && !Before(s.guardClock, f.claims(capability).expiresAt)
        && CapabilityFree(s.admissions, t.request.now, capability, FingerprintOf(t.registered.binding, t.envelope.key))
  {
    RunKeepsPasses(f, steps);
    var s := ApplyAll(f, START, steps);
    LiveSizes(s.admissions, s.sequences, t.request.now);
    if Before(s.guardClock, f.claims(capability).expiresAt) {
      assert s.admissions[capability].fingerprint == first && s.admissions[capability].expiresAt > t.request.now;
    }
  }

  /** A concrete run whose clock goes back: one capability is leased for two bindings. */
  lemma RewoundClockSharesCapability() returns (steps: seq<Step>)
    ensures var issued := ApplyAll(OPEN, START, steps).issued;
      |issued| == 3 && issued[0].capability == issued[2].capability
      && issued[0].lease.envelope.key != issued[2].lease.envelope.key
    ensures !GuardsInOrder(OPEN, steps)
  {
    var before := LeaseThenPurge();
    ClearForRepeat(ApplyAll(OPEN, START, before), 2);
    ServeRun(before, 2, 2, 5, "a");
    steps := before + Serve(2, 2, 5, "a");
    assert FrameOf(1).key != FrameOf(2).key;
    if GuardsInOrder(OPEN, steps) { OneCapabilityOneBinding(OPEN, steps, 0, 2); }
  }

  lemma IssuedBindingIsInstalled(s: System, i: nat)
    requires BindingsOk(s) && i < |s.issued|
    ensures var lease := s.issued[i].lease;
      lease.envelope.key in s.registry.bindings && s.registry.bindings[lease.envelope.key].binding == lease.binding
  {
    var issue := s.issued[i];
    assert IssueOk(s, issue);
    var before, after := s.controls[..issue.resolvedAt], s.controls[issue.resolvedAt..];
    assert before + after == s.controls;
    EventsConcat(EMPTY, before, after);
    CoordinatesAreImmutable(ApplyEvents(EMPTY, before), issue.lease.envelope.key, after);
  }

  // ---------------------------------------------------------------- what every lease was checked for

  /** A request that holds a ticket was well-formed, and its binding and envelope fit together;
      talkback is monitor-only mono Opus at 48 kHz. */
  ghost predicate TicketSound(f: Foreign, t: Ticket) {
    var q, e, b := t.request, t.envelope, t.registered.binding;
    && 0 < q.jwsBytes <= f.maxJwsBytes && 0 < q.envelopeBytes <= f.maxJsonBytes
    && q.parsed == Ok(e) && q.canonical && q.contentLength == e.payloadBytes && q.streamId == b.streamId
    && BindingSound(f, e, b)
  }

  ghost predicate BindingSound(f: Foreign, e: Envelope, b: Binding) {
    var c := b.configuration;
    && f.conforms(e, c).Ok?
    && (c.identity.mediaClass.Talkback? ==>
          c.monitorOnly && c.opusPayload && c.timebaseHz == 48_000 && c.channelCount == 1)
  }

  ghost predicate IssueSound(f: Foreign, i: Issue) {
    var claims := f.claims(i.capability);
    && BindingSound(f, i.lease.envelope, i.lease.binding)
    && i.lease.binding.configuration.channelCount <= claims.maxChannels
    && i.lease.expiresAt == claims.expiresAt && i.lease.maxDatagramBytes == claims.maxDatagramBytes
  }

  ghost predicate AllSound(f: Foreign, s: System) {
    && (forall id :: id in s.inFlight ==> TicketSound(f, s.inFlight[id].ticket))
    && (forall i :: 0 <= i < |s.issued| ==> IssueSound(f, s.issued[i]))
  }

  lemma BeginIsSound(f: Foreign, s: System, id: nat, q: Request)
    requires AllSound(f, s)
    ensures AllSound(f, Apply(f, s, Begin(id, q)))
  {
    HeaderAnswers(f, q);
    BindingAnswers(f, s.registry, q);
  }

  lemma FinishIsSound(f: Foreign, s: System, id: nat)
    requires AllSound(f, s) && id in s.inFlight && s.inFlight[id].Checked?
    ensures AllSound(f, ApplyFinish(f, s, id))
  {
    GrantedLease(f, s.sequences, s.inFlight[id].ticket, s.inFlight[id].capability);
  }

  /** Over all interleavings, every lease was issued for an envelope that conforms to its binding,
      within the capability's channels, and for talkback only in its isolated form. */
  lemma {:induction false} LeasesAreSound(f: Foreign, steps: seq<Step>)
    ensures AllSound(f, ApplyAll(f, START, steps))
  {
    if steps != [] {
      var s, step := ApplyAll(f, START, steps[..|steps| - 1]), steps[|steps| - 1];
      LeasesAreSound(f, steps[..|steps| - 1]);
      match step
      case Control(e) =>
      case Begin(id, q) => BeginIsSound(f, s, id, q);
      case Check(id, v) =>
      case Finish(id) =>
        if id in s.inFlight && s.inFlight[id].Checked? { FinishIsSound(f, s, id); }
    }
  }

  /** A request refused by the guard and one that reached its end hold no ticket any more. */
  lemma AnsweredRequestsAreGone(f: Foreign, s: System, id: nat, v: Verdict)
    requires id in s.inFlight
    ensures s.inFlight[id].Resolved? && GuardStep(f, s.admissions, s.inFlight[id].ticket, v).1.Err? ==>
      id !in Apply(f, s, Check(id, v)).inFlight
    ensures s.inFlight[id].Checked? ==> id !in Apply(f, s, Finish(id)).inFlight
  {
  }

  // ---------------------------------------------------------------- rate and capacity

  function TotalBytes(leases: seq<Lease>): nat {
    if leases == [] then 0 else TotalBytes(leases[1..]) + leases[0].envelope.payloadBytes
  }

  function TotalTicks(leases: seq<Lease>): nat {
    if leases == [] then 0 else TotalTicks(leases[1..]) + leases[0].envelope.durationTicks
  }

  predicate WithinRate(l: Lease, timebaseHz: nat, maxBitrate: nat) {
    8 * timebaseHz * l.envelope.payloadBytes <= maxBitrate * l.envelope.durationTicks
  }

  lemma Distribute(a: nat, b: nat, c: nat)
    ensures a * (b + c) == a * b + a * c
  {
  }

  lemma {:induction false} RatesAdd(leases: seq<Lease>, timebaseHz: nat, maxBitrate: nat)
    requires forall l :: l in leases ==> WithinRate(l, timebaseHz, maxBitrate)
    ensures 8 * timebaseHz * TotalBytes(leases) <= maxBitrate * TotalTicks(leases)
  {
    if leases != [] {
      RatesAdd(leases[1..], timebaseHz, maxBitrate);
      assert leases[0] in leases;
      Distribute(8 * timebaseHz, TotalBytes(leases[1..]), leases[0].envelope.payloadBytes);
      Distribute(maxBitrate, TotalTicks(leases[1..]), leases[0].envelope.durationTicks);
    }
  }

  /** Every lease passed the rate check of its own capability. */
  ghost predicate RatesOk(f: Foreign, s: System) {
    forall i :: 0 <= i < |s.issued| ==>
      WithinRate(s.issued[i].lease, s.issued[i].lease.binding.configuration.timebaseHz,
                 f.claims(s.issued[i].capability).maxBitrate)
  }

  lemma {:induction false} RunKeepsRates(f: Foreign, steps: seq<Step>)
    ensures RatesOk(f, ApplyAll(f, START, steps))
  {
    if steps != [] {
      RunKeepsRates(f, steps[..|steps| - 1]);
      var s, step := ApplyAll(f, START, steps[..|steps| - 1]), steps[|steps| - 1];
      if step.Finish? && step.id in s.inFlight && s.inFlight[step.id].Checked? {
        FinishKeepsRates(f, s, step.id);
      } else {
        assert Apply(f, s, step).issued == s.issued;
      }
    }
  }

  lemma FinishKeepsRates(f: Foreign, s: System, id: nat)
    requires id in s.inFlight && s.inFlight[id].Checked? && RatesOk(f, s)
    ensures RatesOk(f, ApplyFinish(f, s, id))
  {
    var Checked(t, resolvedAt, capability) := s.inFlight[id];
    var r := FinishStep(f, s.sequences, t, capability).1;
    if r.Ok? {
      GrantedLease(f, s.sequences, t, capability);
      assert RequiredBits(t.envelope, t.registered.binding.configuration) <= AllowedBits(t.envelope, f.claims(capability));
      RateCheckIsExact(t.envelope, t.registered.binding.configuration, f.claims(capability));
      assert WithinRate(r.value, t.registered.binding.configuration.timebaseHz, f.claims(capability).maxBitrate);
    }
  }

  /** Over any collection of leases of one capability: 8 * timebase * bytes stays within
      the capability's bit rate times the media ticks, with one timebase for them all. */
  lemma CapabilityRateBound(f: Foreign, steps: seq<Step>, capability: string, leases: seq<Lease>, timebaseHz: nat)
    requires GuardsInOrder(f, steps)
    requires forall l :: l in leases ==>
      exists i :: 0 <= i < |ApplyAll(f, START, steps).issued|
        && ApplyAll(f, START, steps).issued[i].capability == capability
        && ApplyAll(f, START, steps).issued[i].lease == l
    requires leases != [] ==> timebaseHz == leases[0].binding.configuration.timebaseHz
    ensures 8 * timebaseHz * TotalBytes(leases) <= f.claims(capability).maxBitrate * TotalTicks(leases)
  {
    var s := ApplyAll(f, START, steps);
    RunKeepsRates(f, steps);
    forall l | l in leases ensures WithinRate(l, timebaseHz, f.claims(capability).maxBitrate) {
      var i :| 0 <= i < |s.issued| && s.issued[i].capability == capability && s.issued[i].lease == l;
      assert leases[0] in leases;
      var j :| 0 <= j < |s.issued| && s.issued[j].capability == capability && s.issued[j].lease == leases[0];
      OneCapabilityOneBinding(f, steps, i, j);
    }
    RatesAdd(leases, timebaseHz, f.claims(capability).maxBitrate);
  }

  lemma SubmapSize<K, V>(small: map<K, V>, large: map<K, V>)
    requires small.Keys <= large.Keys
    ensures |small| <= |large|
  {
    SubsetSize(small.Keys, large.Keys);
    assert |small| == |small.Keys| && |large| == |large.Keys|;
  }

  /** Neither lock's map ever outgrows the lease capacity, whatever the times. */
  lemma {:induction false} CapacityBound(f: Foreign, steps: seq<Step>)
    ensures var s := ApplyAll(f, START, steps);
      |s.admissions| <= MAX_ACTIVE_PUBLISH_LEASES && |s.sequences| <= MAX_ACTIVE_PUBLISH_LEASES
  {
    if steps != [] {
      CapacityBound(f, steps[..|steps| - 1]);
      StepKeepsCapacity(f, ApplyAll(f, START, steps[..|steps| - 1]), steps[|steps| - 1]);
    }
  }

  lemma GuardKeepsCapacity(f: Foreign, m: Admissions, t: Ticket, v: Verdict)
    requires |m| <= MAX_ACTIVE_PUBLISH_LEASES
    ensures |GuardStep(f, m, t, v).0| <= MAX_ACTIVE_PUBLISH_LEASES
  {
    var live := LiveAdmissions(m, t.request.now);
    SubmapSize(live, m);
    if v.Admits? && v.capability in live {
      var entry := CapabilityAdmission(FingerprintOf(t.registered.binding, t.envelope.key),
                                       f.claims(v.capability).expiresAt);
      assert live[v.capability := entry].Keys == live.Keys;
      SubmapSize(live[v.capability := entry], live);
    }
  }

  lemma FinishKeepsCapacity(f: Foreign, m: Sequences, t: Ticket, capability: string)
    requires |m| <= MAX_ACTIVE_PUBLISH_LEASES
    ensures |FinishStep(f, m, t, capability).0| <= MAX_ACTIVE_PUBLISH_LEASES
  {
    var live, key := LiveSequences(m, t.request.now), (capability, t.envelope.key);
    SubmapSize(live, m);
    if key in live {
      var m' := SequenceStep(f, m, t, capability).0;
      assert m'.Keys == live.Keys;
      SubmapSize(m', live);
    }
  }

  lemma StepKeepsCapacity(f: Foreign, s: System, step: Step)
    requires |s.admissions| <= MAX_ACTIVE_PUBLISH_LEASES && |s.sequences| <= MAX_ACTIVE_PUBLISH_LEASES
    ensures var s' := Apply(f, s, step);
      |s'.admissions| <= MAX_ACTIVE_PUBLISH_LEASES && |s'.sequences| <= MAX_ACTIVE_PUBLISH_LEASES
  {
    match step
    case Control(e) =>
    case Begin(id, q) =>
    case Check(id, v) =>
      if id in s.inFlight && s.inFlight[id].Resolved? {
        GuardKeepsCapacity(f, s.admissions, s.inFlight[id].ticket, v);
      }
    case Finish(id) =>
      if id in s.inFlight && s.inFlight[id].Checked? {
        FinishKeepsCapacity(f, s.sequences, s.inFlight[id].ticket, s.inFlight[id].capability);
      }
  }
}
