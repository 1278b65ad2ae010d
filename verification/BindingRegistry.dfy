/** Control-installed publish bindings, their revisions and their revocation. */
module BindingRegistry {
  import opened Wrappers
  import opened Words

  datatype MediaClass = Talkback | TakeChunk | OtherMedia

  datatype Operation = Publish | UploadTake

  /** `remainder` stands for the identity members that are compared but never read here. */
  datatype Identity = Identity(
    sessionId: string, endpointId: string,
    sourceId: Option<string>, audienceId: Option<string>, takeId: Option<string>,
    mediaClass: MediaClass, remainder: int)

  datatype BindingKey = BindingKey(generation: u64, configurationRef: u32, epoch: u64)

  datatype Configuration = Configuration(
    identity: Identity, key: BindingKey, timebaseHz: u32, channelCount: u16,
    monitorOnly: bool, opusPayload: bool)

  datatype Binding = Binding(
    configuration: Configuration, streamId: u64, operation: Operation, edgeId: string)

  datatype Registered = Registered(binding: Binding, revision: u64, active: bool)

  datatype Registry = Registry(nextRevision: u64, bindings: map<BindingKey, Registered>)

  datatype RejectionCode =
    | MissingCapability | CapabilityTooLarge | MissingEnvelope | EnvelopeTooLarge
    | MalformedEnvelope | NonCanonicalEnvelope | PayloadLengthMismatch
    | UnknownBinding | RevokedBinding | ConfigurationMismatch
    | InvalidSignature | WrongScope | CapabilityRejected | CapabilityReplay | FrameReplay
    | CapabilityExpired | ChannelLimit | BitrateLimit | StreamMismatch | TalkbackIsolation

  const EMPTY: Registry := Registry(0, map[])

  function NextRevision(r: Registry): u64 { Max(SatAdd(r.nextRevision, 1), 1) }

  /** Some installed binding carries this stream id for a different identity. */
  predicate StreamTaken(r: Registry, b: Binding) {
    exists k :: k in r.bindings
      && r.bindings[k].binding.streamId == b.streamId
      && r.bindings[k].binding.configuration.identity != b.configuration.identity
  }

  function InstallStep(r: Registry, b: Binding): (Registry, Result<u64, RejectionCode>) {
    var key := b.configuration.key;
    if StreamTaken(r, b) then (r, Err(StreamMismatch))
    else if key in r.bindings then (r, Err(ConfigurationMismatch))
    else
      var revision := NextRevision(r);
      (Registry(revision, r.bindings[key := Registered(b, revision, true)]), Ok(revision))
  }

  function InvalidateStep(r: Registry, key: BindingKey): (Registry, bool) {
    if key in r.bindings && r.bindings[key].active then
      var revision := NextRevision(r);
      (Registry(revision, r.bindings[key := r.bindings[key].(active := false, revision := revision)]), true)
    else (r, false)
  }

  function Resolve(r: Registry, key: BindingKey): Result<Registered, RejectionCode> {
    if key !in r.bindings then Err(UnknownBinding)
    else if !r.bindings[key].active then Err(RevokedBinding)
    else Ok(r.bindings[key])
  }

  function Revalidate(r: Registry, key: BindingKey, revision: u64): Result<(), RejectionCode> {
    match Resolve(r, key)
    case Err(code) => Err(code)
    case Ok(entry) => if entry.revision != revision then Err(RevokedBinding) else Ok(())
  }

  /** Installation fails exactly for a stream id in use for another identity, then for coordinates
      in use; a success adds the binding, active and under the next revision, and nothing else. */
  lemma InstallIff(r: Registry, b: Binding)
    ensures var (r', outcome) := InstallStep(r, b);
      var taken := exists k :: k in r.bindings && r.bindings[k].binding.streamId == b.streamId
                               && r.bindings[k].binding.configuration.identity != b.configuration.identity;
      && (outcome == Err(StreamMismatch) <==> taken)
      && (outcome == Err(ConfigurationMismatch) <==> !taken && b.configuration.key in r.bindings)
      && (outcome.Err? ==> r' == r && (taken || b.configuration.key in r.bindings))
      && (outcome.Ok? ==>
            && outcome.value == r'.nextRevision == Min(U64_MAX, r.nextRevision + 1)
            && r'.bindings.Keys == r.bindings.Keys + {b.configuration.key}
            && r'.bindings[b.configuration.key] == Registered(b, outcome.value, true)
            && forall k :: k in r.bindings && k != b.configuration.key ==> r'.bindings[k] == r.bindings[k])
  {
  }

  /** Invalidation takes effect exactly on an active entry, which becomes inactive under the next
      revision; no other entry changes. */
  lemma InvalidateIff(r: Registry, key: BindingKey)
    ensures var (r', effective) := InvalidateStep(r, key);
      && (effective <==> key in r.bindings && r.bindings[key].active)
      && (!effective ==> r' == r)
      && (effective ==>
            && r'.nextRevision == Min(U64_MAX, r.nextRevision + 1) && r'.bindings.Keys == r.bindings.Keys
            && r'.bindings[key] == Registered(r.bindings[key].binding, r'.nextRevision, false)
            && forall k :: k in r.bindings && k != key ==> r'.bindings[k] == r.bindings[k])
  {
  }

  // ---------------------------------------------------------------- control histories

  datatype ControlEvent = Install(binding: Binding) | Invalidate(key: BindingKey)

  function ApplyEvent(r: Registry, e: ControlEvent): Registry {
    match e
    case Install(b) => InstallStep(r, b).0
    case Invalidate(k) => InvalidateStep(r, k).0
  }

  function ApplyEvents(r: Registry, es: seq<ControlEvent>): Registry
    decreases |es|
  {
    if es == [] then r else ApplyEvents(ApplyEvent(r, es[0]), es[1..])
  }

  /** Stream ids name one identity each, and every entry sits under its own coordinates. */
  ghost predicate Valid(r: Registry) {
    && (forall k :: k in r.bindings ==> r.bindings[k].binding.configuration.key == k)
    && (forall j, k :: j in r.bindings && k in r.bindings
          && r.bindings[j].binding.streamId == r.bindings[k].binding.streamId
          ==> r.bindings[j].binding.configuration.identity == r.bindings[k].binding.configuration.identity)
  }

  lemma EventKeepsValid(r: Registry, e: ControlEvent)
    requires Valid(r)
    ensures Valid(ApplyEvent(r, e))
  {
  }

  /** Over every control history the stream id determines the identity. */
  lemma {:induction false} EventsKeepValid(r: Registry, es: seq<ControlEvent>)
    requires Valid(r)
    ensures Valid(ApplyEvents(r, es))
    decreases |es|
  {
    if es != [] {
      EventKeepsValid(r, es[0]);
      EventsKeepValid(ApplyEvent(r, es[0]), es[1..]);
    }
  }

  /** Installed coordinates keep their binding for ever; once revoked they stay revoked,
      whatever is installed or invalidated later and whether or not revisions saturate. */
  lemma {:induction false} CoordinatesAreImmutable(r: Registry, key: BindingKey, es: seq<ControlEvent>)
    requires key in r.bindings
    ensures var r' := ApplyEvents(r, es);
      && key in r'.bindings
      && r'.bindings[key].binding == r.bindings[key].binding
      && (!r.bindings[key].active ==> Resolve(r', key) == Err(RevokedBinding))
      && (!r.bindings[key].active ==> forall b: Binding :: b.configuration.key == key ==> InstallStep(r', b).0 == r')
    decreases |es|
  {
    if es != [] { CoordinatesAreImmutable(ApplyEvent(r, es[0]), key, es[1..]); }
  }

  /** The fence: a revision obtained by resolving `key` revalidates after any further
      control history exactly when that history does not invalidate `key`. */
  lemma {:induction false} RevocationFence(r: Registry, key: BindingKey, es: seq<ControlEvent>)
    requires Resolve(r, key).Ok?
    ensures Revalidate(ApplyEvents(r, es), key, Resolve(r, key).value.revision).Ok?
        <==> Invalidate(key) !in es
    decreases |es|
  {
    if es != [] {
      var r' := ApplyEvent(r, es[0]);
      if es[0] == Invalidate(key) {
        CoordinatesAreImmutable(r', key, es[1..]);
      } else {
        assert r'.bindings[key] == r.bindings[key];
        RevocationFence(r', key, es[1..]);
      }
    }
  }

  /** The registry with its state updated in place. */
  class PublishBindingRegistry {
    var nextRevision: u64
    var bindings: map<BindingKey, Registered>

    ghost function View(): Registry
      reads this
    {
      Registry(nextRevision, bindings)
    }

    ghost predicate Consistent()
      reads this
    {
      Valid(View())
    }

    constructor ()
      ensures View() == EMPTY && Consistent()
    {
      nextRevision, bindings := 0, map[];
    }

    method Install(binding: Binding) returns (r: Result<u64, RejectionCode>)
      modifies this
      ensures (View(), r) == InstallStep(old(View()), binding)
      ensures old(Consistent()) ==> Consistent()
    {
      var key := binding.configuration.key;
      if exists k :: k in bindings
           && bindings[k].binding.streamId == binding.streamId
           && bindings[k].binding.configuration.identity != binding.configuration.identity {
        return Err(StreamMismatch);
      }
      if key in bindings {
        return Err(ConfigurationMismatch);
      }
      nextRevision := Max(SatAdd(nextRevision, 1), 1);
      bindings := bindings[key := Registered(binding, nextRevision, true)];
      return Ok(nextRevision);
    }

    method Invalidate(key: BindingKey) returns (effective: bool)
      modifies this
      ensures (View(), effective) == InvalidateStep(old(View()), key)
      ensures old(Consistent()) ==> Consistent()
    {
      if key !in bindings || !bindings[key].active {
        return false;
      }
      nextRevision := Max(SatAdd(nextRevision, 1), 1);
      bindings := bindings[key := bindings[key].(active := false, revision := nextRevision)];
      return true;
    }

    method ResolveKey(key: BindingKey) returns (r: Result<Registered, RejectionCode>)
      ensures r == Resolve(View(), key)
    {
      if key !in bindings {
        return Err(UnknownBinding);
      }
      if !bindings[key].active {
        return Err(RevokedBinding);
      }
      return Ok(bindings[key]);
    }

    method RevalidateKey(key: BindingKey, revision: u64) returns (r: Result<(), RejectionCode>)
      ensures r == Revalidate(View(), key, revision)
    {
      var entry := ResolveKey(key);
      match entry
      case Err(code) => return Err(code);
      case Ok(e) =>
        if e.revision != revision {
          return Err(RevokedBinding);
        }
        return Ok(());
    }
  }
}
