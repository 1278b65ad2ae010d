/** The byte coalescer and the per-worker rendition table as mutable objects. */
module OpaqueObjects {
  import opened Wrappers
  import opened Words
  import opened OpaquePackaging
  import opened OpaquePackagingRuns
  import opened OpaqueCuts

  class OpaquePartSegmenter {
    const streamId: u64
    const sourceEpoch: u64
    const minPartMs: u32
    var bytes: seq<u8>
    var durationMs: u32
    var audioUnits: nat
    var publishedParts: u64
    ghost var held: seq<Group>

    ghost function View(): Segmenter
      reads this
    {
      Segmenter(streamId, sourceEpoch, minPartMs, bytes, durationMs, audioUnits, publishedParts, held)
    }

    /** The buffer is the payloads of the held groups, empty exactly when nothing is counted,
        and below the part target. */
    ghost predicate Valid()
      reads this
    {
      SegmenterOk(View())
    }

    constructor (c: Config, streamId: u64, sessionId: u64)
      ensures Valid() && View() == NewSegmenter(c, streamId, sessionId)
    {
      this.streamId, sourceEpoch, minPartMs := streamId, Max(sessionId / 1_000, 1), Max(c.minPartMs, 1);
      bytes, durationMs, audioUnits, publishedParts, held := [], 0, 0, 0, [];
    }

    /** Whatever is buffered goes out as one part, published or not. */
    method FlushBytes(published: nat -> bool, n: nat) returns (ok: bool, ghost parts: seq<Part>)
      modifies this
      ensures old(Valid()) ==> Valid()
      ensures bytes == [] && BytesOf(parts) == old(bytes) && |parts| <= 1
      ensures Emission(View(), parts, ok) == Flush(old(View()), published, n)
    {
      if bytes == [] {
        return true, [];
      }
      if Valid() { FlushSound(View(), published, n); }
      OneBytes(Part(streamId, sourceEpoch, publishedParts, Max(durationMs, 1), audioUnits, bytes, held));
      parts := [Part(streamId, sourceEpoch, publishedParts, Max(durationMs, 1), audioUnits, bytes, held)];
      bytes, durationMs, audioUnits, held := [], 0, 0, [];
      publishedParts := SatAdd(publishedParts, 1);
      ok := published(n);
    }

    method Push(ghost g: Group, packet: seq<u8>, packetMs: u32, published: nat -> bool, n: nat)
      returns (ok: bool, ghost parts: seq<Part>)
      requires packet == g.payload
      modifies this
      ensures old(Valid()) && packet != [] && packetMs == GroupMs(g) > 0 ==> Valid()
      ensures BytesOf(parts) + bytes == old(bytes) + packet
      ensures packet != [] ==> (parts != [] <==> Min(U32_MAX, old(durationMs) + packetMs) >= minPartMs)
      ensures parts == [] || bytes == []
      ensures Emission(View(), parts, ok) == PushPacket(old(View()), g, packetMs, published, n)
    {
      if packet != [] { PushCutsIff(View(), g, packetMs, published, n); }
      if Valid() && packet != [] && packetMs == GroupMs(g) > 0 { PushSound(View(), g, packetMs, published, n); }
      ok, parts := TakePacket(g, packet, packetMs, published, n);
    }

    method TakePacket(ghost g: Group, packet: seq<u8>, packetMs: u32, published: nat -> bool, n: nat)
      returns (ok: bool, ghost parts: seq<Part>)
      requires packet == g.payload
      modifies this
      ensures BytesOf(parts) + bytes == old(bytes) + packet && (parts == [] || bytes == [])
      ensures Emission(View(), parts, ok) == PushPacket(old(View()), g, packetMs, published, n)
    {
      Append(g, packet, packetMs);
      if durationMs >= minPartMs {
        ok, parts := FlushBytes(published, n);
      } else {
        ok, parts := true, [];
      }
      assert BytesOf([]) + bytes == bytes && BytesOf(parts) + [] == BytesOf(parts);
    }

    method Append(ghost g: Group, packet: seq<u8>, packetMs: u32)
      requires packet == g.payload
      modifies this`bytes, this`durationMs, this`audioUnits, this`held
      ensures View() == Buffered(old(View()), g, packetMs)
    {
      bytes := bytes + packet;
      durationMs := SatAddTo(U32_MAX, durationMs, packetMs);
      audioUnits := audioUnits + 1;
      held := held + [g];
    }

    method Reset()
      modifies this
      ensures old(Valid()) ==> Valid()
      ensures View() == ResetSegmenter(old(View()))
    {
      bytes, durationMs, audioUnits, held := [], 0, 0, [];
    }
  }

  lemma OneBytes(p: Part)
    ensures BytesOf([p]) == p.bytes
  {
    assert [p][..0] == [];
  }

  /** One worker's renditions, with the parts its key has handed to the publisher. */
  class RenditionTable {
    const config: Config
    const key: Key
    var renditions: Renditions
    var attempts: nat
    ghost var parts: seq<Part>
    ghost var taken: seq<Group>

    /** The count of publish attempts is that of the parts handed over. */
    ghost predicate Linked()
      reads this
    {
      attempts == |parts|
    }

    /** Parts and buffer account for exactly the groups taken. */
    ghost predicate Valid()
      reads this
    {
      Linked() && PackagerOk(config, View(), key, taken)
    }

    ghost function View(): Packager
      reads this
    {
      Packager(renditions, parts)
    }

    constructor (config: Config, key: Key)
      ensures Valid() && taken == [] && View() == Packager(map[], [])
      ensures this.config == config && this.key == key
    {
      this.config, this.key := config, key;
      renditions, attempts, parts, taken := map[], 0, [], [];
    }

    /** Package one group of the worker's key: it is taken exactly when nothing refuses it, and
        no byte of what was taken is lost or doubled, published or not. */
    method Package(g: Group, published: nat -> bool) returns (ok: bool)
      requires Valid() && KeyOf(g) == key
      modifies this
      ensures Valid() && Conserved(View(), key, taken)
      ensures GroupOwes(config, published, old(View()), key, g, taken != old(taken), ok, View())
      ensures taken == old(taken) + if TakenBy(config, published, old(View()), g) then [g] else []
      ensures View() == PackageStep(config, published, old(View()), g)
    {
      ghost var more := if TakenBy(config, published, View(), g) then [g] else [];
      StepKeepsPackager(config, published, View(), key, taken, g);
      StepKeepsPromise(config, published, View(), key, taken, g);
      ok := HandleGroup(g, published);
      taken := taken + more;
      PackagerConserves(config, View(), key, taken);
    }

    /** The worker leaves: every byte taken has been handed over. */
    method Finish(published: nat -> bool) returns (ok: bool)
      requires Valid()
      modifies this`renditions, this`attempts, this`parts
      ensures Valid() && BytesOf(parts) == PayloadsOf(taken) && UnitsOf(parts) == |taken|
      ensures ok <==> forall i :: old(|parts|) <= i < |parts| ==> published(i)
      ensures View() == FinishPackager(published, old(View()), key)
    {
      FinishKeepsPackager(config, published, View(), key, taken);
      FinishOkIff(published, View(), key);
      ok := FlushKey(published);
    }

    method HandOver(emitted: seq<Part>)
      requires Linked()
      modifies this`attempts, this`parts
      ensures Linked() && parts == old(parts) + emitted && attempts == old(attempts) + |emitted|
    {
      attempts, parts := attempts + |emitted|, parts + emitted;
    }

    method HandleGroup(g: Group, published: nat -> bool) returns (ok: bool)
      requires Linked()
      modifies this`renditions, this`attempts, this`parts
      ensures Linked() && View() == PackageStep(config, published, old(View()), g)
      ensures ok == PackageGroup(config, old(renditions), g, published, old(attempts)).ok
    {
      assert parts + [] == parts;
      if g.erasure || g.payload == [] || g.sampleRate == 0 || g.frameCount == 0 || g.channelCount == 0 {
        return false;
      }
      var k := KeyOf(g);
      if k !in renditions {
        var streamId := StreamId(config, g.groupId, g.kind);
        if streamId.None? {
          return false;
        }
        renditions := renditions[k := Rendition(FormatOf(g), None, NewSegmenter(config, streamId.value, g.sessionId))];
      }
      var r := renditions[k];
      var closed := CloseSegment(r, g, published, attempts);
      if !closed.ok {
        renditions := renditions[k := closed.state];
        HandOver(closed.parts);
        return false;
      }
      var appended := Append(closed.state, g, published, attempts + |closed.parts|);
      renditions := renditions[k := appended.state];
      HandOver(closed.parts + appended.parts);
      return appended.ok;
    }

    method FlushKey(published: nat -> bool) returns (ok: bool)
      requires Linked()
      modifies this`renditions, this`attempts, this`parts
      ensures Linked() && View() == FinishPackager(published, old(View()), key)
      ensures ok == FinishKey(old(renditions), key, published, old(attempts)).ok
    {
      if key !in renditions {
        assert parts + [] == parts;
        return true;
      }
      var e := Flush(renditions[key].segmenter, published, attempts);
      renditions := renditions[key := renditions[key].(segmenter := e.state)];
      HandOver(e.parts);
      return e.ok;
    }
  }
}
