/** Length-prefixed H.264 samples and the removal of their parameter sets. */
module NaluSamples {
  import opened Wrappers
  import opened Words

  type Bytes = seq<u8>

  const SPS_TYPE: nat := 7
  const PPS_TYPE: nat := 8

  datatype SampleError =
    | TruncatedLengthPrefix(remaining: nat)
    | TruncatedNalu(declared: nat, remaining: nat)

  /** `u32::from_be_bytes` of the first four bytes. */
  function ReadLength(data: Bytes): (n: u32)
    requires |data| >= 4
  {
    var (a, b, c, d) := (data[0] as nat, data[1] as nat, data[2] as nat, data[3] as nat);
    ((a * 256 + b) * 256 + c) * 256 + d
  }

  /** `u32::to_be_bytes`. */
  function LengthPrefix(n: u32): (p: Bytes)
    ensures |p| == 4
  {
    [n / 256 / 256 / 256, n / 256 / 256 % 256, n / 256 % 256, n % 256]
  }

  lemma ReadOfPrefix(n: u32)
    ensures ReadLength(LengthPrefix(n)) == n
  {
    assert n == (n / 256) * 256 + n % 256;
    assert n / 256 == (n / 256 / 256) * 256 + n / 256 % 256;
    assert n / 256 / 256 == (n / 256 / 256 / 256) * 256 + n / 256 / 256 % 256;
  }

  lemma PrefixOfRead(data: Bytes)
    requires |data| >= 4
    ensures LengthPrefix(ReadLength(data)) == data[..4]
  {
    var (a, b, c, d) := (data[0] as nat, data[1] as nat, data[2] as nat, data[3] as nat);
    var n := ReadLength(data);
    assert n / 256 == (a * 256 + b) * 256 + c && n % 256 == d;
    assert n / 256 / 256 == a * 256 + b && n / 256 % 256 == c;
    assert n / 256 / 256 / 256 == a && n / 256 / 256 % 256 == b;
  }

  /** Prefixes sort as the lengths do: with the round trip that is big-endian and nothing else. */
  lemma PrefixesKeepOrder(m: u32, n: u32)
    requires m < n
    ensures Before(LengthPrefix(m), LengthPrefix(n))
  {
    assert m == m / 256 * 256 + m % 256 && n == n / 256 * 256 + n % 256;
    assert m / 256 == m / 256 / 256 * 256 + m / 256 % 256 && n / 256 == n / 256 / 256 * 256 + n / 256 % 256;
    assert m / 256 / 256 == m / 256 / 256 / 256 * 256 + m / 256 / 256 % 256;
    assert n / 256 / 256 == n / 256 / 256 / 256 * 256 + n / 256 / 256 % 256;
    var p, q := LengthPrefix(m), LengthPrefix(n);
    var i := if p[0] != q[0] then 0 else if p[1] != q[1] then 1 else if p[2] != q[2] then 2 else 3;
    assert p[..i] == q[..i] && p[i] < q[i];
  }

  /** The byte strings differ, and where they first do, `a` has the smaller byte. */
  predicate Before(a: Bytes, b: Bytes) {
    exists i :: 0 <= i < |a| && i < |b| && a[..i] == b[..i] && a[i] < b[i]
  }

  function Frame(nalu: Bytes): Bytes
    requires |nalu| <= U32_MAX
  {
    LengthPrefix(|nalu|) + nalu
  }

  /** The unit at the head of `data` and what follows it. */
  function NextNalu(data: Bytes): (r: Result<Option<(Bytes, Bytes)>, SampleError>)
    ensures r.Ok? && r.value.Some? ==> |r.value.value.0| <= U32_MAX && |r.value.value.1| < |data|
  {
    if data == [] then Ok(None)
    else if |data| < 4 then Err(TruncatedLengthPrefix(|data|))
    else
      var n, body := ReadLength(data), data[4..];
      if |body| < n then Err(TruncatedNalu(n, |body|)) else Ok(Some((body[..n], body[n..])))
  }

  lemma NextNaluFrames(data: Bytes)
    requires NextNalu(data).Ok? && NextNalu(data).value.Some?
    ensures var (nalu, rest) := NextNalu(data).value.value; data == Frame(nalu) + rest
  {
    PrefixOfRead(data);
    var n, body := ReadLength(data), data[4..];
    assert data == data[..4] + body && body == body[..n] + body[n..];
  }

  function Parse(data: Bytes): (r: Result<seq<Bytes>, SampleError>)
    ensures r.Ok? ==> Framable(r.value)
    decreases |data|
  {
    match NextNalu(data)
    case Err(e) => Err(e)
    case Ok(None) => Ok([])
    case Ok(Some((nalu, rest))) =>
      match Parse(rest)
      case Err(e) => Err(e)
      case Ok(nalus) => Ok([nalu] + nalus)
  }

  predicate Framable(nalus: seq<Bytes>) { forall n :: n in nalus ==> |n| <= U32_MAX }

  function Serialize(nalus: seq<Bytes>): Bytes
    requires Framable(nalus)
  {
    if nalus == [] then [] else Frame(nalus[0]) + Serialize(nalus[1..])
  }

  /** `data` starts with an incomplete prefix or an incomplete unit. */
  predicate Truncated(data: Bytes) {
    data != [] && (|data| < 4 || |data| - 4 < ReadLength(data))
  }

  function NaluType(nalu: Bytes): nat
    requires nalu != []
  {
    nalu[0] % 32
  }

  predicate IsParameterSet(nalu: Bytes) {
    nalu != [] && (NaluType(nalu) == SPS_TYPE || NaluType(nalu) == PPS_TYPE)
  }

  predicate IsMedia(nalu: Bytes) { nalu != [] && !IsParameterSet(nalu) }

  function MediaNalus(nalus: seq<Bytes>): (r: seq<Bytes>)
    ensures forall n :: n in r <==> n in nalus && IsMedia(n)
  {
    if nalus == [] then []
    else if IsMedia(nalus[0]) then [nalus[0]] + MediaNalus(nalus[1..])
    else MediaNalus(nalus[1..])
  }

  /** What is left of a sample once its parameter sets and empty units are gone. */
  function Strip(data: Bytes): Result<Bytes, SampleError> {
    match Parse(data)
    case Err(e) => Err(e)
    case Ok(nalus) => Ok(Serialize(MediaNalus(nalus)))
  }

  // ---------------------------------------------------------------- round trips

  lemma FrameReads(nalu: Bytes, rest: Bytes)
    requires |nalu| <= U32_MAX
    ensures NextNalu(Frame(nalu) + rest) == Ok(Some((nalu, rest)))
  {
    ReadOfPrefix(|nalu|);
    var data := Frame(nalu) + rest;
    assert data[..4] == LengthPrefix(|nalu|);
    assert ReadLength(data) == ReadLength(data[..4]);
    assert data[4..] == nalu + rest;
  }

  function Prepend(nalus: seq<Bytes>, r: Result<seq<Bytes>, SampleError>): Result<seq<Bytes>, SampleError> {
    match r
    case Err(e) => Err(e)
    case Ok(more) => Ok(nalus + more)
  }

  lemma ParseFrame(nalu: Bytes, rest: Bytes)
    requires |nalu| <= U32_MAX
    ensures Parse(Frame(nalu) + rest) == Prepend([nalu], Parse(rest))
  {
    FrameReads(nalu, rest);
  }

  lemma PrependTwice(nalus: seq<Bytes>, r: Result<seq<Bytes>, SampleError>)
    requires nalus != []
    ensures Prepend([nalus[0]], Prepend(nalus[1..], r)) == Prepend(nalus, r)
  {
    if r.Ok? { assert [nalus[0]] + (nalus[1..] + r.value) == nalus + r.value; }
  }

  lemma {:induction false} ParseSerialize(nalus: seq<Bytes>, tail: Bytes)
    requires Framable(nalus)
    ensures Parse(Serialize(nalus) + tail) == Prepend(nalus, Parse(tail))
  {
    if nalus == [] {
      assert Serialize(nalus) + tail == tail;
      if Parse(tail).Ok? { assert [] + Parse(tail).value == Parse(tail).value; }
    } else {
      var rest := Serialize(nalus[1..]) + tail;
      assert Serialize(nalus) + tail == Frame(nalus[0]) + rest;
      ParseFrame(nalus[0], rest);
      ParseSerialize(nalus[1..], tail);
      PrependTwice(nalus, Parse(tail));
    }
  }

  /** Parsing loses nothing: the units serialize back to the sample. */
  lemma {:induction false} SerializeParse(data: Bytes)
    requires Parse(data).Ok?
    ensures Serialize(Parse(data).value) == data
    decreases |data|
  {
    if data != [] {
      var (nalu, rest) := NextNalu(data).value.value;
      SerializeParse(rest);
      NextNaluFrames(data);
      assert ([nalu] + Parse(rest).value)[1..] == Parse(rest).value;
    }
  }

  /** The serialized form determines the units. */
  lemma ParseInvertsSerialize(nalus: seq<Bytes>)
    requires Framable(nalus)
    ensures Parse(Serialize(nalus)) == Ok(nalus)
  {
    ParseSerialize(nalus, []);
    assert Serialize(nalus) + [] == Serialize(nalus) && nalus + [] == nalus;
  }

  /** The bytes there are of what is cut off, and the bytes there should be. */
  function TruncationOf(tail: Bytes): SampleError
    requires Truncated(tail)
  {
    if |tail| < 4 then SampleError.TruncatedLengthPrefix(remaining := |tail|)
    else SampleError.TruncatedNalu(declared := ReadLength(tail), remaining := |tail| - 4)
  }

  /** Parsing fails with a given error exactly on samples that are whole units followed by that
      truncated one. */
  lemma FailsIffTruncated(data: Bytes, e: SampleError)
    ensures Parse(data) == Err(e) <==>
      exists nalus, tail ::
        Framable(nalus) && data == Serialize(nalus) + tail && Truncated(tail) && e == TruncationOf(tail)
  {
    if Parse(data) == Err(e) {
      var nalus, tail := SplitAtTruncation(data);
    }
    forall nalus, tail | Framable(nalus) && data == Serialize(nalus) + tail && Truncated(tail)
      ensures Parse(data) == Err(TruncationOf(tail))
    {
      TruncatedFails(nalus, tail);
    }
  }

  lemma TruncatedFails(nalus: seq<Bytes>, tail: Bytes)
    requires Framable(nalus) && Truncated(tail)
    ensures Parse(Serialize(nalus) + tail) == Err(TruncationOf(tail))
  {
    ParseSerialize(nalus, tail);
  }

  lemma {:induction false} SplitAtTruncation(data: Bytes) returns (nalus: seq<Bytes>, tail: Bytes)
    requires Parse(data).Err?
    ensures Framable(nalus) && data == Serialize(nalus) + tail && Truncated(tail)
    ensures Parse(data) == Err(TruncationOf(tail))
    decreases |data|
  {
    if NextNalu(data).Err? {
      nalus, tail := [], data;
    } else {
      var (nalu, rest) := NextNalu(data).value.value;
      NextNaluFrames(data);
      var more;
      more, tail := SplitAtTruncation(rest);
      nalus := [nalu] + more;
      assert nalus[1..] == more;
      assert Frame(nalu) + (Serialize(more) + tail) == Frame(nalu) + Serialize(more) + tail;
    }
  }

  // ---------------------------------------------------------------- stripping

  /** Selecting media units goes unit by unit: those that are not empty nor of type 7 or 8 stay. */
  lemma {:induction false} MediaOfConcat(a: seq<Bytes>, b: seq<Bytes>)
    ensures MediaNalus(a + b) == MediaNalus(a) + MediaNalus(b)
    ensures forall n: Bytes ::
      MediaNalus([n]) == if n != [] && n[0] % 32 != 7 && n[0] % 32 != 8 then [n] else []
  {
    if a == [] {
      assert a + b == b;
    } else {
      assert (a + b)[1..] == a[1..] + b;
      MediaOfConcat(a[1..], b);
    }
  }

  /** The stripped sample parses to the media units of the original, in order. */
  lemma StripKeepsMedia(data: Bytes)
    requires Parse(data).Ok?
    ensures Strip(data).Ok? && Parse(Strip(data).value) == Ok(MediaNalus(Parse(data).value))
  {
    ParseInvertsSerialize(MediaNalus(Parse(data).value));
  }

  lemma {:induction false} MediaOfMedia(nalus: seq<Bytes>)
    requires forall n :: n in nalus ==> IsMedia(n)
    ensures MediaNalus(nalus) == nalus
  {
    if nalus != [] { MediaOfMedia(nalus[1..]); }
  }

  lemma StripIsIdempotent(data: Bytes)
    requires Strip(data).Ok?
    ensures Strip(Strip(data).value) == Strip(data)
  {
    StripKeepsMedia(data);
    MediaOfMedia(MediaNalus(Parse(data).value));
  }

  lemma {:induction false} MediaNalusAppend(nalus: seq<Bytes>, nalu: Bytes)
    ensures MediaNalus(nalus + [nalu]) == MediaNalus(nalus) + if IsMedia(nalu) then [nalu] else []
  {
    if nalus == [] {
      assert nalus + [nalu] == [nalu];
    } else {
      assert (nalus + [nalu])[1..] == nalus[1..] + [nalu];
      MediaNalusAppend(nalus[1..], nalu);
    }
  }

  lemma {:induction false} SerializeAppend(nalus: seq<Bytes>, nalu: Bytes)
    requires Framable(nalus) && |nalu| <= U32_MAX
    ensures Serialize(nalus + [nalu]) == Serialize(nalus) + Frame(nalu)
  {
    if nalus == [] {
      assert nalus + [nalu] == [nalu];
      assert Serialize([nalu]) == Frame(nalu) + Serialize([]);
    } else {
      assert (nalus + [nalu])[1..] == nalus[1..] + [nalu];
      SerializeAppend(nalus[1..], nalu);
    }
  }

  /** The state of the stripping pass: `seen` has been read, `kept` written, `data` is left. */
  ghost predicate Stripping(sample: Bytes, seen: seq<Bytes>, kept: Bytes, data: Bytes) {
    Framable(seen) && sample == Serialize(seen) + data && kept == Serialize(MediaNalus(seen))
  }

  lemma StrippingStep(sample: Bytes, seen: seq<Bytes>, kept: Bytes, nalu: Bytes, rest: Bytes)
    requires |nalu| <= U32_MAX && Stripping(sample, seen, kept, Frame(nalu) + rest)
    ensures Stripping(sample, seen + [nalu], if IsMedia(nalu) then kept + Frame(nalu) else kept, rest)
  {
    MediaNalusAppend(seen, nalu);
    SerializeAppend(seen, nalu);
    assert Serialize(seen) + (Frame(nalu) + rest) == Serialize(seen) + Frame(nalu) + rest;
    if IsMedia(nalu) {
      SerializeAppend(MediaNalus(seen), nalu);
    } else {
      assert MediaNalus(seen) + [] == MediaNalus(seen);
    }
  }

  lemma StrippingFails(sample: Bytes, seen: seq<Bytes>, kept: Bytes, data: Bytes)
    requires Stripping(sample, seen, kept, data) && NextNalu(data).Err?
    ensures Strip(sample) == Err(NextNalu(data).error)
  {
    ParseSerialize(seen, data);
  }

  lemma StrippingEnds(sample: Bytes, seen: seq<Bytes>, kept: Bytes)
    requires Stripping(sample, seen, kept, [])
    ensures Strip(sample) == Ok(kept)
  {
    ParseSerialize(seen, []);
    assert seen + [] == seen;
  }

  /** `strip_h264_parameter_sets`: one pass that appends the kept units to a new sample.
      `Ok(None)` is the source's `Ok(false)`, a sample with nothing left. */
  method StripParameterSets(sample: Bytes) returns (r: Result<Option<Bytes>, SampleError>)
    ensures match Strip(sample)
      case Err(e) => r == Err(e)
      case Ok(kept) => r == Ok(if kept == [] then None else Some(kept))
  {
    var data, kept: Bytes := sample, [];
    ghost var seen: seq<Bytes> := [];
    while data != []
      invariant Stripping(sample, seen, kept, data)
      decreases |data|
    {
      var next := NextNalu(data);
      if next.Err? {
        StrippingFails(sample, seen, kept, data);
        return Err(next.error);
      }
      var (nalu, rest) := next.value.value;
      NextNaluFrames(data);
      StrippingStep(sample, seen, kept, nalu, rest);
      if IsMedia(nalu) {
        kept := kept + Frame(nalu);
      }
      seen := seen + [nalu];
      data := rest;
    }
    StrippingEnds(sample, seen, kept);
    return Ok(if kept == [] then None else Some(kept));
  }
}
