/** Cutting an aggregated SoundKit body back into its cached parts. */
module SoundKitSplits {
  import opened Wrappers
  import opened Words

  type Bytes = seq<u8>

  const SAMPLE_RATE: nat := 48_000

  datatype Header = Header(
    opus: bool, sampleRate: u32, channels: u8, frameCount: u32, payloadSize: u32, encrypted: bool, hasCrc: bool)

  /** The frame header parser and the packet checksum, which this model does not contain. */
  datatype Parser = Parser(
    headerSize: Bytes -> Option<nat>,
    decode: Bytes -> Option<Header>,
    crcMatches: (Bytes, Bytes) -> bool)

  datatype SplitError =
    BadDuration | BadHeader | TruncatedHeader | BadFrame | TruncatedPayload | CrossedBoundary | PartialUnit

  /** A header is not empty and its size depends on the header's own bytes only. */
  ghost predicate PrefixLocal(p: Parser) {
    && (forall b :: p.headerSize(b).Some? ==> p.headerSize(b).value > 0)
    && (forall b, c, n: nat :: n <= |b| ==> SizeAgrees(p, b, c, n))
  }

  ghost predicate SizeAgrees(p: Parser, b: Bytes, c: Bytes, n: nat) {
    p.headerSize(b) == Some(n) <==> p.headerSize(b + c) == Some(n)
  }

  /** The packet at the front of `b`: size of its header and the header itself. */
  function Front(p: Parser, b: Bytes): (r: Result<(nat, Header), SplitError>)
    ensures r.Ok? ==> p.headerSize(b) == Some(r.value.0) && r.value.0 + r.value.1.payloadSize <= |b|
  {
    match p.headerSize(b)
    case None => Err(BadHeader)
    case Some(n) =>
      if n > |b| then Err(TruncatedHeader)
      else
        match p.decode(b[..n])
        case None => Err(BadFrame)
        case Some(h) => if n + h.payloadSize > |b| then Err(TruncatedPayload) else Ok((n, h))
  }

  function PacketSize(packet: (nat, Header)): nat { packet.0 + packet.1.payloadSize }

  lemma FrontIsLocal(p: Parser, b: Bytes, c: Bytes)
    requires PrefixLocal(p)
    ensures Front(p, b).Ok? ==> Front(p, b + c) == Front(p, b) && PacketSize(Front(p, b).value) > 0
    ensures Front(p, b + c).Ok? && PacketSize(Front(p, b + c).value) <= |b| ==> Front(p, b) == Front(p, b + c)
  {
    var whole := b + c;
    if Front(p, b).Ok? {
      var n := Front(p, b).value.0;
      assert SizeAgrees(p, b, c, n);
      assert whole[..n] == b[..n];
    }
    if Front(p, whole).Ok? && PacketSize(Front(p, whole).value) <= |b| {
      var n := Front(p, whole).value.0;
      assert SizeAgrees(p, b, c, n);
      assert whole[..n] == b[..n];
    }
  }

  // ---------------------------------------------------------------- splitting

  /** The splitter's loop: `frames` counted since `partStart`, `parts` already cut. */
  function SplitFrom(p: Parser, body: Bytes, expected: nat, partStart: nat, offset: nat, frames: nat, parts: seq<Bytes>)
    : Result<seq<Bytes>, SplitError>
    requires PrefixLocal(p) && partStart <= offset <= |body|
    decreases |body| - offset
  {
    if offset == |body| then
      if frames != 0 || partStart != |body| then Err(PartialUnit) else Ok(parts)
    else
      match Front(p, body[offset..])
      case Err(e) => Err(e)
      case Ok(packet) =>
        var total := SatAdd(frames, packet.1.frameCount);
        var end := offset + PacketSize(packet);
        if total > expected then Err(CrossedBoundary)
        else if total == expected then SplitFrom(p, body, expected, end, end, 0, parts + [body[partStart..end]])
        else SplitFrom(p, body, expected, partStart, end, total, parts)
  }

  function Split(p: Parser, body: Bytes, partMs: u64): Result<seq<Bytes>, SplitError>
    requires PrefixLocal(p)
  {
    if SAMPLE_RATE * partMs > U64_MAX || partMs == 0 || (SAMPLE_RATE * partMs) % 1000 != 0 then Err(BadDuration)
    else SplitFrom(p, body, SAMPLE_RATE * partMs / 1000, 0, 0, 0, [])
  }

  method SplitSoundkitOpusParts(p: Parser, body: Bytes, partMs: u64) returns (r: Result<seq<Bytes>, SplitError>)
    requires PrefixLocal(p)
    ensures r == Split(p, body, partMs)
  {
    var scaledFrames := SAMPLE_RATE * partMs;
    if scaledFrames > U64_MAX || partMs == 0 || scaledFrames % 1000 != 0 {
      return Err(BadDuration);
    }
    var expectedFrames := scaledFrames / 1000;
    var parts: seq<Bytes> := [];
    var partStart: nat, offset: nat, partFrames: nat := 0, 0, 0;
    while offset < |body|
      invariant partStart <= offset <= |body|
      invariant Split(p, body, partMs) == SplitFrom(p, body, expectedFrames, partStart, offset, partFrames, parts)
      decreases |body| - offset
    {
      var rest := body[offset..];
      var size := p.headerSize(rest);
      if size.None? {
        return Err(BadHeader);
      }
      var headerEnd := offset + size.value;
      if headerEnd > |body| {
        return Err(TruncatedHeader);
      }
      assert rest[..size.value] == body[offset..headerEnd];
      var header := p.decode(body[offset..headerEnd]);
      if header.None? {
        return Err(BadFrame);
      }
      var packetEnd := headerEnd + header.value.payloadSize;
      if packetEnd > |body| {
        return Err(TruncatedPayload);
      }
      partFrames := SatAdd(partFrames, header.value.frameCount);
      if partFrames > expectedFrames {
        return Err(CrossedBoundary);
      }
      offset := packetEnd;
      if partFrames == expectedFrames {
        parts := parts + [body[partStart..offset]];
        partStart, partFrames := offset, 0;
      }
    }
    if partFrames != 0 || partStart != |body| {
      return Err(PartialUnit);
    }
    return Ok(parts);
  }

  // ---------------------------------------------------------------- one part

  predicate AcceptablePacket(p: Parser, b: Bytes, packet: (nat, Header))
    requires PacketSize(packet) <= |b|
  {
    var (n, h) := packet;
    && h.opus && h.sampleRate == SAMPLE_RATE && 1 <= h.channels <= 2
    && h.frameCount > 0 && h.payloadSize > 0 && h.encrypted
    && (h.hasCrc ==> p.crcMatches(b[..n], b[n..PacketSize(packet)]))
  }

  /** Why a row of packets ends early: a packet that is not acceptable, or a header said to
      reach past the end, on which the source's slice aborts. */
  datatype Stop = NotAcceptable | SliceOutOfRange

  /** Audio frames in `b` if it is a row of acceptable packets, counted from `before`. */
  function CountFrames(p: Parser, b: Bytes, before: nat): Result<nat, Stop>
    requires PrefixLocal(p)
    decreases |b|
  {
    if b == [] then Ok(before)
    else
      match Front(p, b)
      case Err(e) => Err(if e.TruncatedHeader? then SliceOutOfRange else NotAcceptable)
      case Ok(packet) =>
        if AcceptablePacket(p, b, packet)
        then CountFrames(p, b[PacketSize(packet)..], SatAdd(before, packet.1.frameCount)) else Err(NotAcceptable)
  }

  predicate ValidPart(p: Parser, b: Bytes, partMs: u64)
    requires PrefixLocal(p)
  {
    && b != [] && partMs != 0
    && var frames := CountFrames(p, b, 0);
       frames.Ok? && SatMul(frames.value, 1000) == SatMul(SAMPLE_RATE, partMs)
  }

  /** Checking the part aborts instead of answering. */
  predicate CheckAborts(p: Parser, b: Bytes, partMs: u64)
    requires PrefixLocal(p)
  {
    b != [] && partMs != 0 && CountFrames(p, b, 0) == Err(SliceOutOfRange)
  }

  /** `b` starts with acceptable packets up to `at`. */
  ghost predicate AcceptableTo(p: Parser, b: Bytes, at: nat)
    requires PrefixLocal(p) && at <= |b|
    decreases |b|
  {
    at == 0 ||
    (var front := Front(p, b);
     && front.Ok? && AcceptablePacket(p, b, front.value) && PacketSize(front.value) <= at
     && AcceptableTo(p, b[PacketSize(front.value)..], at - PacketSize(front.value)))
  }

  /** What stands at `at` is a header said to reach past the end of `b`. */
  ghost predicate HeaderPastEnd(p: Parser, b: Bytes, at: nat)
    requires at < |b|
  {
    p.headerSize(b[at..]).Some? && p.headerSize(b[at..]).value > |b| - at
  }

  /** What stands behind the first packet stands there in the rest as well. */
  lemma PastEndShifts(p: Parser, b: Bytes, at: nat)
    requires PrefixLocal(p) && Front(p, b).Ok? && AcceptablePacket(p, b, Front(p, b).value)
    requires at < |b| - PacketSize(Front(p, b).value)
    ensures var size := PacketSize(Front(p, b).value);
      AcceptableTo(p, b, at + size) && HeaderPastEnd(p, b, at + size)
      <==> AcceptableTo(p, b[size..], at) && HeaderPastEnd(p, b[size..], at)
  {
    var size := PacketSize(Front(p, b).value);
    assert b[at + size..] == b[size..][at..];
  }

  lemma NoneBeforeFirstPacketEnds(p: Parser, b: Bytes, at: nat)
    requires PrefixLocal(p) && Front(p, b).Ok? && at < |b| && AcceptableTo(p, b, at) && HeaderPastEnd(p, b, at)
    ensures PacketSize(Front(p, b).value) <= at
  {
    assert b[0..] == b;
  }

  /** Counting aborts exactly when acceptable packets lead up to a header past the end. */
  lemma {:induction false} AbortsIffHeaderPastEnd(p: Parser, b: Bytes, before: nat)
    requires PrefixLocal(p)
    ensures CountFrames(p, b, before) == Err(SliceOutOfRange) <==>
      exists at :: 0 <= at < |b| && AcceptableTo(p, b, at) && HeaderPastEnd(p, b, at)
    decreases |b|
  {
    if b != [] {
      assert b[0..] == b;
      var front := Front(p, b);
      if front.Ok? && AcceptablePacket(p, b, front.value) {
        var size := PacketSize(front.value);
        AbortsIffHeaderPastEnd(p, b[size..], SatAdd(before, front.value.1.frameCount));
        forall at | 0 <= at < |b[size..]| && AcceptableTo(p, b[size..], at) && HeaderPastEnd(p, b[size..], at)
          ensures AcceptableTo(p, b, at + size) && HeaderPastEnd(p, b, at + size)
        {
          PastEndShifts(p, b, at);
        }
        forall at | 0 <= at < |b| && AcceptableTo(p, b, at) && HeaderPastEnd(p, b, at)
          ensures size <= at && AcceptableTo(p, b[size..], at - size) && HeaderPastEnd(p, b[size..], at - size)
        {
          NoneBeforeFirstPacketEnds(p, b, at);
          PastEndShifts(p, b, at - size);
        }
      } else if front == Err(TruncatedHeader) {
        assert AcceptableTo(p, b, 0) && HeaderPastEnd(p, b, 0);
      }
    }
  }

  /** `Err` is the source's abort. */
  method SoundkitOpusPartIsValid(p: Parser, part: Bytes, partMs: u64) returns (r: Result<bool, Stop>)
    requires PrefixLocal(p)
    ensures r.Err? <==> CheckAborts(p, part, partMs)
    ensures r == Ok(true) <==>
      partMs > 0 && exists packets :: packets != [] && MadeOf(p, part, packets)
                       && Min(U64_MAX, 1_000 * FramesOf(packets)) == Min(U64_MAX, 48_000 * partMs)
    ensures r == Ok(true) <==> ValidPart(p, part, partMs)
  {
    ValidPartIff(p, part, partMs);
    if part == [] || partMs == 0 {
      return Ok(false);
    }
    var bytes, totalFrames, packets := part, 0, 0;
    while bytes != []
      invariant CountFrames(p, part, 0) == CountFrames(p, bytes, totalFrames)
      invariant packets == 0 ==> bytes == part
      decreases |bytes|
    {
      var size := p.headerSize(bytes);
      if size.None? {
        return Ok(false);
      }
      if size.value > |bytes| {
        return Err(SliceOutOfRange);
      }
      var header := p.decode(bytes[..size.value]);
      if header.None? {
        return Ok(false);
      }
      var h := header.value;
      var packetSize := size.value + h.payloadSize;
      if packetSize > |bytes| || !h.opus || h.sampleRate != SAMPLE_RATE || !(1 <= h.channels <= 2)
         || h.frameCount == 0 || h.payloadSize == 0 || !h.encrypted {
        return Ok(false);
      }
      if h.hasCrc && !p.crcMatches(bytes[..size.value], bytes[size.value..packetSize]) {
        return Ok(false);
      }
      totalFrames := SatAdd(totalFrames, h.frameCount);
      packets := SatAdd(packets, 1);
      bytes := bytes[packetSize..];
    }
    return Ok(packets > 0 && SatMul(totalFrames, 1000) == SatMul(SAMPLE_RATE, partMs));
  }

  // ---------------------------------------------------------------- theorems

  /** `b` is a row of packets that reaches `expected` frames with its last packet and not before. */
  ghost predicate FillsExactly(p: Parser, b: Bytes, frames: nat, expected: nat)
    requires PrefixLocal(p)
    decreases |b|
  {
    var front := Front(p, b);
    && b != [] && front.Ok?
    && var total := SatAdd(frames, front.value.1.frameCount);
       var rest := b[PacketSize(front.value)..];
       if rest == [] then total == expected else total < expected && FillsExactly(p, rest, total, expected)
  }

  function Concat(parts: seq<Bytes>): Bytes {
    if parts == [] then [] else parts[0] + Concat(parts[1..])
  }

  /** With `done` of a part already behind it, the loop walks to the part's end and cuts there. */
  lemma {:induction false} LoopCutsPart(
      p: Parser, body: Bytes, expected: nat, partStart: nat, offset: nat, end: nat, frames: nat, parts: seq<Bytes>)
    requires PrefixLocal(p) && partStart <= offset <= end <= |body|
    requires FillsExactly(p, body[offset..end], frames, expected)
    ensures SplitFrom(p, body, expected, partStart, offset, frames, parts)
         == SplitFrom(p, body, expected, end, end, 0, parts + [body[partStart..end]])
    decreases end - offset
  {
    var b := body[offset..end];
    assert body[offset..] == b + body[end..];
    FrontIsLocal(p, b, body[end..]);
    var packet := Front(p, b).value;
    var next := offset + PacketSize(packet);
    assert b[PacketSize(packet)..] == body[next..end];
    if next < end {
      LoopCutsPart(p, body, expected, partStart, next, end, SatAdd(frames, packet.1.frameCount), parts);
    }
  }

  lemma {:induction false} LoopCutsAll(p: Parser, body: Bytes, expected: nat, at: nat, parts: seq<Bytes>, more: seq<Bytes>)
    requires PrefixLocal(p) && at <= |body| && body[at..] == Concat(more)
    requires forall part :: part in more ==> FillsExactly(p, part, 0, expected)
    ensures SplitFrom(p, body, expected, at, at, 0, parts) == Ok(parts + more)
    decreases |more|
  {
    if more == [] {
      assert parts + more == parts;
    } else {
      var end := at + |more[0]|;
      assert body[at..end] == body[at..][..|more[0]|] == more[0];
      assert body[end..] == body[at..][|more[0]|..] == Concat(more[1..]);
      LoopCutsPart(p, body, expected, at, at, end, 0, parts);
      LoopCutsAll(p, body, expected, end, parts + [more[0]], more[1..]);
      assert parts + [more[0]] + more[1..] == parts + more;
    }
  }

  /** A packet that completes `expected` fills the rest of its part by itself. */
  lemma LastPacketFills(p: Parser, body: Bytes, offset: nat, end: nat, frames: nat, expected: nat)
    requires PrefixLocal(p) && offset <= end <= |body|
    requires Front(p, body[offset..]).Ok? && offset + PacketSize(Front(p, body[offset..]).value) == end
    requires SatAdd(frames, Front(p, body[offset..]).value.1.frameCount) == expected
    ensures FillsExactly(p, body[offset..end], frames, expected)
  {
    var b := body[offset..end];
    assert body[offset..] == b + body[end..];
    FrontIsLocal(p, b, body[end..]);
    FrontIsLocal(p, b, []);
    assert b[PacketSize(Front(p, b).value)..] == [];
  }

  /** A packet that stays below `expected` goes in front of what fills the rest. */
  lemma EarlierPacketFills(p: Parser, body: Bytes, offset: nat, next: nat, end: nat, frames: nat, expected: nat)
    requires PrefixLocal(p) && offset <= next < end <= |body|
    requires Front(p, body[offset..]).Ok? && offset + PacketSize(Front(p, body[offset..]).value) == next
    requires SatAdd(frames, Front(p, body[offset..]).value.1.frameCount) < expected
    requires FillsExactly(p, body[next..end], SatAdd(frames, Front(p, body[offset..]).value.1.frameCount), expected)
    ensures FillsExactly(p, body[offset..end], frames, expected)
  {
    var b := body[offset..end];
    assert body[offset..] == b + body[end..];
    FrontIsLocal(p, b, body[end..]);
    assert b[PacketSize(Front(p, b).value)..] == body[next..end];
  }

  lemma AppendAssociates(parts: seq<Bytes>, part: Bytes, later: seq<Bytes>)
    ensures parts + [part] + later == parts + ([part] + later)
    ensures ([part] + later)[1..] == later
  {
  }

  /** A successful loop has cut the rest of the body into exactly filled parts; `end` is
      where the part under way ends. */
  lemma {:induction false} LoopResult(
      p: Parser, body: Bytes, expected: nat, partStart: nat, offset: nat, frames: nat, parts: seq<Bytes>)
      returns (end: nat, more: seq<Bytes>)
    requires PrefixLocal(p) && partStart <= offset <= |body| && (offset == partStart ==> frames == 0)
    requires SplitFrom(p, body, expected, partStart, offset, frames, parts).Ok?
    ensures SplitFrom(p, body, expected, partStart, offset, frames, parts).value == parts + more
    ensures offset <= end <= |body|
    ensures more == [] ==> partStart == offset == end == |body|
    ensures more != [] ==>
      && more[0] == body[partStart..end] && offset < end && body[end..] == Concat(more[1..])
      && FillsExactly(p, body[offset..end], frames, expected)
      && forall i :: 1 <= i < |more| ==> FillsExactly(p, more[i], 0, expected)
    decreases |body| - offset
  {
    if offset == |body| {
      end, more := offset, [];
      assert parts + more == parts;
    } else {
      var packet := Front(p, body[offset..]).value;
      FrontIsLocal(p, body[offset..], []);
      var total := SatAdd(frames, packet.1.frameCount);
      var next := offset + PacketSize(packet);
      if total == expected {
        end := next;
        LastPacketFills(p, body, offset, end, frames, expected);
        var part := body[partStart..end];
        var laterEnd, later := LoopResult(p, body, expected, end, end, 0, parts + [part]);
        more := [part] + later;
        AppendAssociates(parts, part, later);
        ConcatFrom(body, end, laterEnd, later);
      } else {
        end, more := LoopResult(p, body, expected, partStart, next, total, parts);
        EarlierPacketFills(p, body, offset, next, end, frames, expected);
      }
    }
  }

  lemma ConcatFrom(body: Bytes, start: nat, end: nat, parts: seq<Bytes>)
    requires start <= end <= |body|
    requires if parts == [] then start == |body| else parts[0] == body[start..end] && body[end..] == Concat(parts[1..])
    ensures body[start..] == Concat(parts)
  {
    assert body[start..] == body[start..end] + body[end..];
  }

  /** The splitter succeeds with `parts` exactly when they are exactly filled and
      concatenate to the body: the answer is unique and nothing is missed. */
  lemma SplitIffConcatenation(p: Parser, body: Bytes, partMs: u64, parts: seq<Bytes>)
    requires PrefixLocal(p) && 0 < partMs && SAMPLE_RATE * partMs <= U64_MAX
    ensures Split(p, body, partMs) == Ok(parts) <==>
      body == Concat(parts) && forall part :: part in parts ==> FillsExactly(p, part, 0, 48 * partMs)
  {
    assert SAMPLE_RATE * partMs == 48 * partMs * 1000;
    assert body[0..] == body;
    if Split(p, body, partMs) == Ok(parts) {
      var end, more := LoopResult(p, body, 48 * partMs, 0, 0, 0, []);
      assert [] + more == more;
      ConcatFrom(body, 0, end, more);
    }
    if body == Concat(parts) && forall part :: part in parts ==> FillsExactly(p, part, 0, 48 * partMs) {
      LoopCutsAll(p, body, 48 * partMs, 0, [], parts);
      assert [] + parts == parts;
    }
  }

  /** `b` is exactly these packets: encrypted 48 kHz Opus of one or two channels, with frames and a
      payload, and a checksum that matches where there is one. */
  ghost predicate MadeOf(p: Parser, b: Bytes, packets: seq<(nat, Header)>)
    decreases packets
  {
    if packets == [] then b == []
    else
      var (n, h) := packets[0];
      && n + h.payloadSize <= |b| && p.headerSize(b) == Some(n) && p.decode(b[..n]) == Some(h)
      && h.opus && h.encrypted && h.sampleRate == 48_000 && (h.channels == 1 || h.channels == 2)
      && h.frameCount > 0 && h.payloadSize > 0
      && (h.hasCrc ==> p.crcMatches(b[..n], b[n..n + h.payloadSize]))
      && MadeOf(p, b[n + h.payloadSize..], packets[1..])
  }

  function FramesOf(packets: seq<(nat, Header)>): nat {
    if packets == [] then 0 else packets[0].1.frameCount + FramesOf(packets[1..])
  }

  lemma {:induction false} CountedIsMade(p: Parser, b: Bytes, before: u64) returns (packets: seq<(nat, Header)>)
    requires PrefixLocal(p) && CountFrames(p, b, before).Ok?
    ensures MadeOf(p, b, packets) && CountFrames(p, b, before).value == Min(U64_MAX, before + FramesOf(packets))
    decreases |b|
  {
    packets := [];
    if b != [] {
      var packet := Front(p, b).value;
      var more := CountedIsMade(p, b[PacketSize(packet)..], SatAdd(before, packet.1.frameCount));
      packets := [packet] + more;
      assert packets[1..] == more;
    }
  }

  lemma {:induction false} MadeIsCounted(p: Parser, b: Bytes, packets: seq<(nat, Header)>, before: u64)
    requires PrefixLocal(p) && MadeOf(p, b, packets)
    ensures CountFrames(p, b, before) == Ok(Min(U64_MAX, before + FramesOf(packets)))
    ensures b == [] <==> packets == []
    decreases packets
  {
    if packets != [] {
      var (n, h) := packets[0];
      MadeIsCounted(p, b[n + h.payloadSize..], packets[1..], SatAdd(before, h.frameCount));
    }
  }

  /** A part is accepted exactly when it is made of one or more such packets whose frames last as
      long as the part is declared to, both counted in 64 bits with saturation. */
  lemma ValidPartIff(p: Parser, part: Bytes, partMs: u64)
    requires PrefixLocal(p)
    ensures ValidPart(p, part, partMs) <==>
      partMs > 0 && exists packets :: packets != [] && MadeOf(p, part, packets)
                       && Min(U64_MAX, 1_000 * FramesOf(packets)) == Min(U64_MAX, 48_000 * partMs)
  {
    if CountFrames(p, part, 0).Ok? {
      var packets := CountedIsMade(p, part, 0);
      assert MadeOf(p, part, packets);
    }
    forall packets | MadeOf(p, part, packets)
      ensures CountFrames(p, part, 0) == Ok(Min(U64_MAX, FramesOf(packets))) && (part == [] <==> packets == [])
    {
      MadeIsCounted(p, part, packets, 0);
    }
  }

  lemma {:induction false} CountOnlyGrows(p: Parser, b: Bytes, before: nat)
    requires PrefixLocal(p) && CountFrames(p, b, before).Ok?
    requires before <= U64_MAX
    ensures before <= CountFrames(p, b, before).value <= U64_MAX
    ensures b != [] && before < U64_MAX ==> before < CountFrames(p, b, before).value
    decreases |b|
  {
    if b != [] {
      var packet := Front(p, b).value;
      FrontIsLocal(p, b, []);
      CountOnlyGrows(p, b[PacketSize(packet)..], SatAdd(before, packet.1.frameCount));
    }
  }

  lemma {:induction false} CountedFillsExactly(p: Parser, b: Bytes, frames: nat, expected: nat)
    requires PrefixLocal(p) && b != [] && frames < expected < U64_MAX
    requires CountFrames(p, b, frames) == Ok(expected)
    ensures FillsExactly(p, b, frames, expected)
    decreases |b|
  {
    var packet := Front(p, b).value;
    FrontIsLocal(p, b, []);
    var rest := b[PacketSize(packet)..];
    var total := SatAdd(frames, packet.1.frameCount);
    CountOnlyGrows(p, rest, total);
    if rest != [] { CountedFillsExactly(p, rest, total, expected); }
  }

  /** A part the probe accepts is filled exactly: every packet adds frames, so the
      total is reached only at the end. */
  lemma ValidPartFillsExactly(p: Parser, part: Bytes, partMs: u64)
    requires PrefixLocal(p) && SAMPLE_RATE * partMs <= U64_MAX && ValidPart(p, part, partMs)
    ensures FillsExactly(p, part, 0, 48 * partMs)
  {
    var frames := CountFrames(p, part, 0).value;
    assert SAMPLE_RATE * partMs == 48 * partMs * 1000;
    assert U64_MAX % 1000 != 0;
    assert frames * 1000 == 48 * partMs * 1000;
    CountedFillsExactly(p, part, 0, 48 * partMs);
  }

  /** Splitting undoes concatenation of accepted parts. */
  lemma SplitInvertsConcat(p: Parser, parts: seq<Bytes>, partMs: u64)
    requires PrefixLocal(p) && 0 < partMs
    requires forall part :: part in parts ==> ValidPart(p, part, partMs)
    ensures Split(p, Concat(parts), partMs) == if SAMPLE_RATE * partMs <= U64_MAX then Ok(parts) else Err(BadDuration)
  {
    if SAMPLE_RATE * partMs <= U64_MAX {
      forall part | part in parts ensures FillsExactly(p, part, 0, 48 * partMs) {
        ValidPartFillsExactly(p, part, partMs);
      }
      SplitIffConcatenation(p, Concat(parts), partMs, parts);
    }
  }
}
