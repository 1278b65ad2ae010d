/** Publication admission: header checks, binding resolution, the capability guard and
    the sequence window, each as the atomic step the source takes under one lock. */
module PublishIngress {
  import opened Wrappers
  import opened Words
  import opened Bits
  import opened BindingRegistry
  import opened SequenceWindows

  const MAX_ACTIVE_PUBLISH_LEASES: nat := 65_536

  /** Verified limits of a capability. They are a function of the capability id. */
  datatype Claims = Claims(expiresAt: int, maxChannels: u16, maxBitrate: u64, maxDatagramBytes: u32)

  datatype Envelope = Envelope(key: BindingKey, sequence: u64, payloadBytes: u32, durationTicks: u64)

  /** Code this model does not contain: size limits and envelope conformance come from the
      media-object crate, claims from the verified token. */
  datatype Foreign = Foreign(
    maxJwsBytes: nat, maxJsonBytes: nat,
    conforms: (Envelope, Configuration) -> Result<(), RejectionCode>,
    claims: string -> Claims)

  /** A request after its envelope JSON has been parsed by foreign code. */
  datatype Request = Request(
    jwsBytes: nat, envelopeBytes: nat, parsed: Result<Envelope, RejectionCode>, canonical: bool,
    contentLength: u64, streamId: u64, now: int)

  /** What the token verifier does with a request: refuse it without asking the guard, or
      ask the guard to admit one capability id and possibly refuse afterwards. */
  datatype Verdict = Refuses(code: RejectionCode) | Admits(capability: string, afterwards: Option<RejectionCode>)

  datatype Fingerprint = Fingerprint(
    sessionId: string, endpointId: string, edgeId: string, operation: Operation, key: BindingKey,
    sourceId: Option<string>, audienceId: Option<string>, takeId: Option<string>)

  datatype CapabilityAdmission = CapabilityAdmission(fingerprint: Fingerprint, expiresAt: int)

  datatype SequenceAdmission = SequenceAdmission(window: Window, expiresAt: int)

  type Admissions = map<string, CapabilityAdmission>
  type SequenceKey = (string, BindingKey)
  type Sequences = map<SequenceKey, SequenceAdmission>

  /** The binding a request resolved to, held while it waits for the locks. */
  datatype Ticket = Ticket(request: Request, envelope: Envelope, registered: Registered)

  datatype Lease = Lease(
    binding: Binding, envelope: Envelope, bindingRevision: u64, expiresAt: int, maxDatagramBytes: u32)

  function Precheck(f: Foreign, q: Request): Result<Envelope, RejectionCode> {
    if q.jwsBytes == 0 then Err(MissingCapability)
    else if q.jwsBytes > f.maxJwsBytes then Err(CapabilityTooLarge)
    else if q.envelopeBytes == 0 then Err(MissingEnvelope)
    else if q.envelopeBytes > f.maxJsonBytes then Err(EnvelopeTooLarge)
    else if q.parsed.Err? then q.parsed
    else if !q.canonical then Err(NonCanonicalEnvelope)
    else if q.contentLength != q.parsed.value.payloadBytes then Err(PayloadLengthMismatch)
    else q.parsed
  }

  predicate TalkbackIsolated(c: Configuration) {
    c.identity.mediaClass == Talkback ==>
      c.monitorOnly && c.opusPayload && c.timebaseHz == 48_000 && c.channelCount == 1
  }

  /** Under the registry's read lock: resolve the coordinates and check the request against them. */
  function ResolveStep(f: Foreign, registry: Registry, q: Request): Result<Ticket, RejectionCode> {
    match Precheck(f, q)
    case Err(code) => Err(code)
    case Ok(envelope) =>
      match Resolve(registry, envelope.key)
      case Err(code) => Err(code)
      case Ok(registered) =>
        var conforms := f.conforms(envelope, registered.binding.configuration);
        if conforms.Err? then Err(conforms.error)
        else if q.streamId != registered.binding.streamId then Err(StreamMismatch)
        else if !TalkbackIsolated(registered.binding.configuration) then Err(TalkbackIsolation)
        else Ok(Ticket(q, envelope, registered))
  }

  function FingerprintOf(b: Binding, key: BindingKey): Fingerprint {
    var i := b.configuration.identity;
    Fingerprint(i.sessionId, i.endpointId, b.edgeId, b.operation, key, i.sourceId, i.audienceId, i.takeId)
  }

  /** Two requests look the same to the guard exactly when session, endpoint, edge, operation,
      coordinates, source, audience and take agree. */
  lemma FingerprintsAgreeIff(a: Binding, j: BindingKey, b: Binding, k: BindingKey)
    ensures FingerprintOf(a, j) == FingerprintOf(b, k) <==>
      var x, y := a.configuration.identity, b.configuration.identity;
      && x.sessionId == y.sessionId && x.endpointId == y.endpointId && a.edgeId == b.edgeId
      && a.operation == b.operation && j == k
      && x.sourceId == y.sourceId && x.audienceId == y.audienceId && x.takeId == y.takeId
  {
  }

  function LiveAdmissions(m: Admissions, now: int): Admissions {
    map c | c in m && m[c].expiresAt > now :: m[c]
  }

  function LiveSequences(m: Sequences, now: int): Sequences {
    map k | k in m && m[k].expiresAt > now :: m[k]
  }

  /** `AdmissionGuard::check_and_admit`: purge, then admit a new capability if there is room,
      or one already bound to the same fingerprint. */
  function CheckAndAdmit(m: Admissions, fingerprint: Fingerprint, now: int, capability: string, expiresAt: int)
    : (Admissions, bool)
  {
    var live := LiveAdmissions(m, now);
    if capability !in live && |live| >= MAX_ACTIVE_PUBLISH_LEASES then (live, false)
    else if capability in live && live[capability].fingerprint != fingerprint then (live, false)
    else (live[capability := CapabilityAdmission(fingerprint, expiresAt)], true)
  }

  /** Under the capability lock: the verifier runs and may call the guard. */
  function GuardStep(f: Foreign, m: Admissions, t: Ticket, v: Verdict): (Admissions, Result<string, RejectionCode>) {
    match v
    case Refuses(code) => (m, Err(code))
    case Admits(capability, afterwards) =>
      var (m', admitted) := CheckAndAdmit(m, FingerprintOf(t.registered.binding, t.envelope.key),
                                          t.request.now, capability, f.claims(capability).expiresAt);
      if !admitted then (m', Err(CapabilityReplay))
      else if afterwards.Some? then (m', Err(afterwards.value))
      else (m', Ok(capability))
  }

  function RequiredBits(e: Envelope, c: Configuration): nat {
    SatMulTo(U128_MAX, SatMulTo(U128_MAX, e.payloadBytes, 8), c.timebaseHz)
  }

  function AllowedBits(e: Envelope, claims: Claims): nat {
    SatMulTo(U128_MAX, claims.maxBitrate, e.durationTicks)
  }

  /** Checks between the two locks. */
  function LimitCheck(f: Foreign, t: Ticket, capability: string): Result<(), RejectionCode> {
    var claims := f.claims(capability);
    var configuration := t.registered.binding.configuration;
    if t.request.now >= claims.expiresAt then Err(CapabilityExpired)
    else if configuration.channelCount > claims.maxChannels then Err(ChannelLimit)
    else if RequiredBits(t.envelope, configuration) > AllowedBits(t.envelope, claims) then Err(BitrateLimit)
    else Ok(())
  }

  function LeaseFor(f: Foreign, t: Ticket, capability: string): Lease {
    var claims := f.claims(capability);
    Lease(t.registered.binding, t.envelope, t.registered.revision, claims.expiresAt, claims.maxDatagramBytes)
  }

  /** Under the sequence lock: purge, then consume the sequence. */
  function SequenceStep(f: Foreign, m: Sequences, t: Ticket, capability: string): (Sequences, Result<Lease, RejectionCode>) {
    var live := LiveSequences(m, t.request.now);
    var key := (capability, t.envelope.key);
    var expiresAt := f.claims(capability).expiresAt;
    if key !in live && |live| >= MAX_ACTIVE_PUBLISH_LEASES then (live, Err(CapabilityRejected))
    else if key !in live then
      (live[key := SequenceAdmission(FirstWindow(t.envelope.sequence), expiresAt)], Ok(LeaseFor(f, t, capability)))
    else
      var (window, admitted) := AdmitStep(live[key].window, t.envelope.sequence);
      (live[key := SequenceAdmission(window, expiresAt)],
       if admitted then Ok(LeaseFor(f, t, capability)) else Err(FrameReplay))
  }

  function FinishStep(f: Foreign, m: Sequences, t: Ticket, capability: string): (Sequences, Result<Lease, RejectionCode>) {
    match LimitCheck(f, t, capability)
    case Err(code) => (m, Err(code))
    case Ok(_) => SequenceStep(f, m, t, capability)
  }

  /** `revalidate_strict`. */
  function RevalidateLease(registry: Registry, lease: Lease, payloadBytes: nat, now: int): Result<(), RejectionCode> {
    if now >= lease.expiresAt then Err(CapabilityExpired)
    else if payloadBytes != lease.envelope.payloadBytes then Err(PayloadLengthMismatch)
    else Revalidate(registry, lease.envelope.key, lease.bindingRevision)
  }

  /** One request served without interference: the three steps in a row. */
  function AuthorizeAlone(f: Foreign, registry: Registry, a: Admissions, s: Sequences, q: Request, v: Verdict)
    : (Admissions, Sequences, Result<Lease, RejectionCode>)
  {
    match ResolveStep(f, registry, q)
    case Err(code) => (a, s, Err(code))
    case Ok(t) =>
      var (a', checked) := GuardStep(f, a, t, v);
      if checked.Err? then (a', s, Err(checked.error))
      else
        var (s', r) := FinishStep(f, s, t, checked.value);
        (a', s', r)
  }

  /** The 128-bit products never saturate, so the check is the exact rate inequality. */
  lemma RateCheckIsExact(e: Envelope, c: Configuration, claims: Claims)
    ensures RequiredBits(e, c) <= AllowedBits(e, claims)
        <==> 8 * c.timebaseHz * e.payloadBytes <= claims.maxBitrate * e.durationTicks
  {
    ProductBound(e.payloadBytes * 8, c.timebaseHz, 8 * U32_MAX, U32_MAX);
    ProductBound(claims.maxBitrate, e.durationTicks, U64_MAX, U64_MAX);
    assert e.payloadBytes * 8 * c.timebaseHz == 8 * c.timebaseHz * e.payloadBytes;
  }

  lemma ProductBound(a: nat, b: nat, aMax: nat, bMax: nat)
    requires a <= aMax && b <= bMax
    ensures a * b <= aMax * bMax
  {
    assert a * b <= aMax * b <= aMax * bMax by {
      assert (aMax - a) * b >= 0 && aMax * (bMax - b) >= 0;
    }
  }

  /** The capability's unexpired record has the same fingerprint, or there is none and room for one. */
  ghost predicate CapabilityFree(a: Admissions, now: int, capability: string, fingerprint: Fingerprint) {
    if capability in a && a[capability].expiresAt > now then a[capability].fingerprint == fingerprint
    else |set c | c in a && a[c].expiresAt > now| < 65_536
  }

  /** The sequence is above the unexpired window or unmarked within it, or there is no such window
      and room for one. */
  ghost predicate SequenceFree(s: Sequences, now: int, key: SequenceKey, sequence: u64) {
    if key in s && s[key].expiresAt > now then
      var w := s[key].window;
      sequence > w.highest || (w.highest - sequence < 128 && !Bit(w.seen, w.highest - sequence))
    else |set k | k in s && s[k].expiresAt > now| < 65_536
  }

  lemma LiveSizes(a: Admissions, s: Sequences, now: int)
    ensures |LiveAdmissions(a, now)| == |set c | c in a && a[c].expiresAt > now|
    ensures |LiveSequences(s, now)| == |set k | k in s && s[k].expiresAt > now|
  {
    assert LiveAdmissions(a, now).Keys == set c | c in a && a[c].expiresAt > now;
    assert LiveSequences(s, now).Keys == set k | k in s && s[k].expiresAt > now;
    assert |LiveAdmissions(a, now)| == |LiveAdmissions(a, now).Keys|;
    assert |LiveSequences(s, now)| == |LiveSequences(s, now).Keys|;
  }

  /** Position of the first demand from `at` on that is not met, or the end. */
  ghost function FirstUnmet(demands: seq<(bool, RejectionCode)>, at: nat): (i: nat)
    requires at <= |demands|
    ensures at <= i <= |demands| && (i < |demands| ==> !demands[i].0)
    ensures forall j :: at <= j < i ==> demands[j].0
    decreases |demands| - at
  {
    if at == |demands| || !demands[at].0 then at else FirstUnmet(demands, at + 1)
  }

  /** Demands are put in order, and the first one not met is the answer. */
  ghost predicate Answers(demands: seq<(bool, RejectionCode)>, answer: Option<RejectionCode>) {
    var i := FirstUnmet(demands, 0);
    answer == if i == |demands| then None else Some(demands[i].1)
  }

  function AnswerOf<T>(r: Result<T, RejectionCode>): Option<RejectionCode> {
    match r case Ok(_) => None case Err(code) => Some(code)
  }

  ghost function HeaderDemands(f: Foreign, q: Request): seq<(bool, RejectionCode)> {
    [(q.jwsBytes != 0, MissingCapability), (q.jwsBytes <= f.maxJwsBytes, CapabilityTooLarge),
     (q.envelopeBytes != 0, MissingEnvelope), (q.envelopeBytes <= f.maxJsonBytes, EnvelopeTooLarge),
     (q.parsed.Ok?, if q.parsed.Err? then q.parsed.error else MalformedEnvelope),
     (q.canonical, NonCanonicalEnvelope),
     (q.parsed.Ok? && q.contentLength == q.parsed.value.payloadBytes, PayloadLengthMismatch)]
  }

  ghost function BindingDemands(f: Foreign, registry: Registry, q: Request, e: Envelope): seq<(bool, RejectionCode)> {
    if e.key !in registry.bindings then [(false, UnknownBinding)]
    else
      var b := registry.bindings[e.key].binding;
      var c := b.configuration;
      [(registry.bindings[e.key].active, RevokedBinding),
       (f.conforms(e, c).Ok?, if f.conforms(e, c).Err? then f.conforms(e, c).error else ConfigurationMismatch),
       (q.streamId == b.streamId, StreamMismatch),
       (c.identity.mediaClass.Talkback? ==>
          c.monitorOnly && c.opusPayload && c.timebaseHz == 48_000 && c.channelCount == 1, TalkbackIsolation)]
  }

  ghost function GuardDemands(f: Foreign, a: Admissions, t: Ticket, v: Verdict): seq<(bool, RejectionCode)> {
    match v
    case Refuses(code) => [(false, code)]
    case Admits(capability, afterwards) =>
      [(CapabilityFree(a, t.request.now, capability, FingerprintOf(t.registered.binding, t.envelope.key)), CapabilityReplay),
       (afterwards.None?, if afterwards.Some? then afterwards.value else CapabilityRejected)]
  }

  ghost function LeaseDemands(f: Foreign, s: Sequences, t: Ticket, capability: string): seq<(bool, RejectionCode)> {
    var e, c, claims := t.envelope, t.registered.binding.configuration, f.claims(capability);
    var known := (capability, e.key) in s && s[(capability, e.key)].expiresAt > t.request.now;
    var free := SequenceFree(s, t.request.now, (capability, e.key), e.sequence);
    [(t.request.now < claims.expiresAt, CapabilityExpired), (c.channelCount <= claims.maxChannels, ChannelLimit),
     (8 * c.timebaseHz * e.payloadBytes <= claims.maxBitrate * e.durationTicks, BitrateLimit),
     (free, if known then FrameReplay else CapabilityRejected)]
  }

  /** Each step of a request answers with its first demand that is not met, whatever happened
      between the steps. */
  lemma HeaderAnswers(f: Foreign, q: Request)
    ensures var r := Precheck(f, q);
      Answers(HeaderDemands(f, q), AnswerOf(r)) && (r.Ok? ==> r == q.parsed)
  {
    var d := HeaderDemands(f, q);
    var terms := (d[0], d[1], d[2], d[3], d[4], d[5], d[6]);
  }

  lemma BindingAnswers(f: Foreign, registry: Registry, q: Request)
    ensures var r := ResolveStep(f, registry, q);
      if Precheck(f, q).Err? then AnswerOf(r) == AnswerOf(Precheck(f, q))
      else
        && Answers(BindingDemands(f, registry, q, q.parsed.value), AnswerOf(r))
        && (r.Ok? ==> r.value == Ticket(q, q.parsed.value, registry.bindings[q.parsed.value.key]))
  {
    if Precheck(f, q).Ok? {
      var d := BindingDemands(f, registry, q, q.parsed.value);
      if |d| > 1 { var terms := (d[0], d[1], d[2], d[3]); }
    }
  }

  lemma GuardAnswers(f: Foreign, a: Admissions, t: Ticket, v: Verdict)
    ensures var r := GuardStep(f, a, t, v).1;
      Answers(GuardDemands(f, a, t, v), AnswerOf(r)) && (r.Ok? ==> r.value == v.capability)
  {
    LiveSizes(a, map[], t.request.now);
  }

  lemma FinishAnswers(f: Foreign, s: Sequences, t: Ticket, capability: string)
    ensures Answers(LeaseDemands(f, s, t, capability), AnswerOf(FinishStep(f, s, t, capability).1))
  {
    var d := LeaseDemands(f, s, t, capability);
    var terms := (d[0], d[1], d[2], d[3]);
    LiveSizes(map[], s, t.request.now);
    RateCheckIsExact(t.envelope, t.registered.binding.configuration, f.claims(capability));
  }

  /** What is asked of a request that is served without interference, from the binding on... */
  ghost function TicketDemands(f: Foreign, a: Admissions, s: Sequences, t: Ticket, v: Verdict): seq<(bool, RejectionCode)> {
    GuardDemands(f, a, t, v) + if v.Refuses? then [] else LeaseDemands(f, s, t, v.capability)
  }

  /** ... from the envelope on ... */
  ghost function EnvelopeDemands(f: Foreign, registry: Registry, a: Admissions, s: Sequences, q: Request, e: Envelope,
                                 v: Verdict): seq<(bool, RejectionCode)>
  {
    BindingDemands(f, registry, q, e)
    + if e.key !in registry.bindings then [] else TicketDemands(f, a, s, Ticket(q, e, registry.bindings[e.key]), v)
  }

  /** ... and in all. */
  ghost function Demands(f: Foreign, registry: Registry, a: Admissions, s: Sequences, q: Request, v: Verdict)
    : seq<(bool, RejectionCode)>
  {
    HeaderDemands(f, q) + if q.parsed.Err? then [] else EnvelopeDemands(f, registry, a, s, q, q.parsed.value, v)
  }

  lemma AnswersConcat(first: seq<(bool, RejectionCode)>, more: seq<(bool, RejectionCode)>,
                      early: Option<RejectionCode>, answer: Option<RejectionCode>)
    requires Answers(first, early) && if early.Some? then answer == early else Answers(more, answer)
    ensures Answers(first + more, answer)
  {
    var all := first + more;
    assert forall k :: 0 <= k < |first| ==> all[k] == first[k];
    assert forall k :: 0 <= k < |more| ==> all[|first| + k] == more[k];
    assert forall k :: |first| <= k < |all| ==> all[k] == more[k - |first|];
  }

  lemma TicketAnswers(f: Foreign, a: Admissions, s: Sequences, t: Ticket, v: Verdict)
    ensures var checked := GuardStep(f, a, t, v).1;
      Answers(TicketDemands(f, a, s, t, v),
              if checked.Err? then AnswerOf(checked) else AnswerOf(FinishStep(f, s, t, checked.value).1))
  {
    var checked := GuardStep(f, a, t, v).1;
    GuardAnswers(f, a, t, v);
    if checked.Ok? { FinishAnswers(f, s, t, v.capability); }
    AnswersConcat(GuardDemands(f, a, t, v), if v.Refuses? then [] else LeaseDemands(f, s, t, v.capability),
                  AnswerOf(checked),
                  if checked.Err? then AnswerOf(checked) else AnswerOf(FinishStep(f, s, t, checked.value).1));
  }

  lemma EnvelopeAnswers(f: Foreign, registry: Registry, a: Admissions, s: Sequences, q: Request, v: Verdict)
    requires Precheck(f, q).Ok?
    ensures q.parsed.Ok?
    ensures Answers(EnvelopeDemands(f, registry, a, s, q, q.parsed.value, v),
                    AnswerOf(AuthorizeAlone(f, registry, a, s, q, v).2))
  {
    var resolved := ResolveStep(f, registry, q);
    BindingAnswers(f, registry, q);
    if resolved.Ok? { TicketAnswers(f, a, s, resolved.value, v); }
    var e := q.parsed.value;
    AnswersConcat(BindingDemands(f, registry, q, e),
                  if e.key !in registry.bindings then []
                  else TicketDemands(f, a, s, Ticket(q, e, registry.bindings[e.key]), v),
                  AnswerOf(resolved), AnswerOf(AuthorizeAlone(f, registry, a, s, q, v).2));
  }

  /** A request served alone gets a lease exactly when every demand is met, and then for its own
      envelope, the binding installed at its coordinates and that binding's revision; otherwise
      the answer is that of the first demand not met. */
  lemma LeaseIffDeserved(f: Foreign, registry: Registry, a: Admissions, s: Sequences, q: Request, v: Verdict)
    ensures var r := AuthorizeAlone(f, registry, a, s, q, v).2;
      && Answers(Demands(f, registry, a, s, q, v), AnswerOf(r))
      && (r.Ok? ==>
            && r.value.envelope == q.parsed.value
            && r.value.binding == registry.bindings[r.value.envelope.key].binding
            && r.value.bindingRevision == registry.bindings[r.value.envelope.key].revision
            && r.value.expiresAt == f.claims(v.capability).expiresAt
            && r.value.maxDatagramBytes == f.claims(v.capability).maxDatagramBytes)
  {
    HeaderAnswers(f, q);
    BindingAnswers(f, registry, q);
    if Precheck(f, q).Ok? { EnvelopeAnswers(f, registry, a, s, q, v); }
    AnswersConcat(HeaderDemands(f, q),
                  if q.parsed.Err? then [] else EnvelopeDemands(f, registry, a, s, q, q.parsed.value, v),
                  AnswerOf(Precheck(f, q)), AnswerOf(AuthorizeAlone(f, registry, a, s, q, v).2));
  }

  /** A lease is refused again for its first demand that no longer holds. */
  lemma RevalidationAnswers(registry: Registry, lease: Lease, payloadBytes: nat, now: int)
    ensures Answers(RevalidationDemands(registry, lease, payloadBytes, now),
                    AnswerOf(RevalidateLease(registry, lease, payloadBytes, now)))
  {
    var d := RevalidationDemands(registry, lease, payloadBytes, now);
    var terms := (d[0], d[1], d[2], d[3], d[4]);
  }

  ghost function RevalidationDemands(registry: Registry, lease: Lease, payloadBytes: nat, now: int)
    : seq<(bool, RejectionCode)>
  {
    var key := lease.envelope.key;
    [(now < lease.expiresAt, CapabilityExpired), (payloadBytes == lease.envelope.payloadBytes, PayloadLengthMismatch),
     (key in registry.bindings, UnknownBinding),
     (key in registry.bindings && registry.bindings[key].active, RevokedBinding),
     (key in registry.bindings && registry.bindings[key].revision == lease.bindingRevision, RevokedBinding)]
  }

  /** A refused request consumes no sequence: whatever windows are left are as they were. */
  lemma RefusalConsumesNothing(f: Foreign, registry: Registry, a: Admissions, s: Sequences, q: Request, v: Verdict)
    requires AuthorizeAlone(f, registry, a, s, q, v).2.Err?
    ensures var s' := AuthorizeAlone(f, registry, a, s, q, v).1;
            forall k :: k in s' ==> k in s && s'[k].window == s[k].window
  {
  }

  /** The gate with its maps updated in place. */
  class PublishIngressGate {
    const registry: PublishBindingRegistry
    var capabilityAdmissions: Admissions
    var sequenceWindows: Sequences

    constructor (registry: PublishBindingRegistry)
      ensures this.registry == registry
      ensures capabilityAdmissions == map[] && sequenceWindows == map[]
    {
      this.registry := registry;
      capabilityAdmissions, sequenceWindows := map[], map[];
    }

    method CheckAndAdmitCapability(fingerprint: Fingerprint, now: int, capability: string, expiresAt: int)
      returns (admitted: bool)
      modifies this`capabilityAdmissions
      ensures (capabilityAdmissions, admitted)
           == CheckAndAdmit(old(capabilityAdmissions), fingerprint, now, capability, expiresAt)
    {
      capabilityAdmissions := map c | c in capabilityAdmissions && capabilityAdmissions[c].expiresAt > now
                                  :: capabilityAdmissions[c];
      if capability !in capabilityAdmissions && |capabilityAdmissions| >= MAX_ACTIVE_PUBLISH_LEASES {
        return false;
      }
      if capability !in capabilityAdmissions {
        capabilityAdmissions := capabilityAdmissions[capability := CapabilityAdmission(fingerprint, expiresAt)];
        return true;
      }
      if capabilityAdmissions[capability].fingerprint == fingerprint {
        capabilityAdmissions :=
          capabilityAdmissions[capability := capabilityAdmissions[capability].(expiresAt := expiresAt)];
        return true;
      }
      return false;
    }

    method ConsumeSequence(f: Foreign, t: Ticket, capability: string) returns (r: Result<Lease, RejectionCode>)
      modifies this`sequenceWindows
      ensures (sequenceWindows, r) == SequenceStep(f, old(sequenceWindows), t, capability)
    {
      var key, expiresAt := (capability, t.envelope.key), f.claims(capability).expiresAt;
      sequenceWindows := map k | k in sequenceWindows && sequenceWindows[k].expiresAt > t.request.now
                             :: sequenceWindows[k];
      if key !in sequenceWindows && |sequenceWindows| >= MAX_ACTIVE_PUBLISH_LEASES {
        return Err(CapabilityRejected);
      }
      var admitted := true;
      if key !in sequenceWindows {
        sequenceWindows := sequenceWindows[key := SequenceAdmission(FirstWindow(t.envelope.sequence), expiresAt)];
      } else {
        var (window, unseen) := AdmitStep(sequenceWindows[key].window, t.envelope.sequence);
        admitted := unseen;
        sequenceWindows := sequenceWindows[key := SequenceAdmission(window, expiresAt)];
      }
      return if admitted then Ok(LeaseFor(f, t, capability)) else Err(FrameReplay);
    }

    /** A lease exactly when every demand is met, the first one unmet otherwise; a refusal
        consumes no sequence. */
    method AuthorizeStrict(f: Foreign, q: Request, v: Verdict) returns (r: Result<Lease, RejectionCode>)
      modifies this`capabilityAdmissions, this`sequenceWindows
      ensures Answers(Demands(f, registry.View(), old(capabilityAdmissions), old(sequenceWindows), q, v), AnswerOf(r))
      ensures r.Err? ==> forall k :: k in sequenceWindows ==>
        k in old(sequenceWindows) && sequenceWindows[k].window == old(sequenceWindows)[k].window
      ensures (capabilityAdmissions, sequenceWindows, r)
           == AuthorizeAlone(f, registry.View(), old(capabilityAdmissions), old(sequenceWindows), q, v)
    {
      LeaseIffDeserved(f, registry.View(), capabilityAdmissions, sequenceWindows, q, v);
      if AuthorizeAlone(f, registry.View(), capabilityAdmissions, sequenceWindows, q, v).2.Err? {
        RefusalConsumesNothing(f, registry.View(), capabilityAdmissions, sequenceWindows, q, v);
      }
      r := Decide(f, q, v);
    }

    method Decide(f: Foreign, q: Request, v: Verdict) returns (r: Result<Lease, RejectionCode>)
      modifies this`capabilityAdmissions, this`sequenceWindows
      ensures (capabilityAdmissions, sequenceWindows, r)
           == AuthorizeAlone(f, registry.View(), old(capabilityAdmissions), old(sequenceWindows), q, v)
    {
      var envelope := Precheck(f, q);
      if envelope.Err? { return Err(envelope.error); }
      var registered := registry.ResolveKey(envelope.value.key);
      if registered.Err? { return Err(registered.error); }
      var binding := registered.value.binding;
      var conforms := f.conforms(envelope.value, binding.configuration);
      if conforms.Err? { return Err(conforms.error); }
      if q.streamId != binding.streamId { return Err(StreamMismatch); }
      if !TalkbackIsolated(binding.configuration) { return Err(TalkbackIsolation); }
      var t := Ticket(q, envelope.value, registered.value);

      if v.Refuses? { return Err(v.code); }
      var admitted := CheckAndAdmitCapability(FingerprintOf(binding, t.envelope.key), q.now,
                                              v.capability, f.claims(v.capability).expiresAt);
      if !admitted { return Err(CapabilityReplay); }
      if v.afterwards.Some? { return Err(v.afterwards.value); }

      var limits := LimitCheck(f, t, v.capability);
      if limits.Err? { return Err(limits.error); }
      r := ConsumeSequence(f, t, v.capability);
    }

    method RevalidateStrict(lease: Lease, payloadBytes: nat, now: int) returns (r: Result<(), RejectionCode>)
      ensures Answers(RevalidationDemands(registry.View(), lease, payloadBytes, now), AnswerOf(r))
      ensures r == RevalidateLease(registry.View(), lease, payloadBytes, now)
    {
      RevalidationAnswers(registry.View(), lease, payloadBytes, now);
      if now >= lease.expiresAt { return Err(CapabilityExpired); }
      if payloadBytes != lease.envelope.payloadBytes { return Err(PayloadLengthMismatch); }
      r := registry.RevalidateKey(lease.envelope.key, lease.bindingRevision);
    }
  }
}
