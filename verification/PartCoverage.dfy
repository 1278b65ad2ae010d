/** The probe's coverage bitset: which parts of the qualification window have arrived. */
module PartCoverages {
  import opened Wrappers
  import opened Words
  import opened Bits
  import opened Sets

  const WORD_BITS: nat := 64

  /** Index of a presentation time in the window, if it is aligned and inside. */
  function RelativeOf(startSequence: nat, partMs: nat, expectedParts: nat, ptsMs: nat): Option<nat>
    requires partMs > 0
  {
    if ptsMs % partMs == 0 && startSequence <= ptsMs / partMs < startSequence + expectedParts
    then Some(ptsMs / partMs - startSequence) else None
  }

  function PartStart(startSequence: nat, partMs: nat, relative: nat): nat { (startSequence + relative) * partMs }

  /** The index is the distance in whole parts from the window's start, if that is inside. */
  lemma RelativeIff(startSequence: nat, partMs: nat, expectedParts: nat, ptsMs: nat, relative: nat)
    requires partMs > 0
    ensures RelativeOf(startSequence, partMs, expectedParts, ptsMs) == Some(relative) <==>
      relative < expectedParts && ptsMs == PartStart(startSequence, partMs, relative)
  {
    if ptsMs == (startSequence + relative) * partMs {
      ModUnique(ptsMs, partMs, startSequence + relative, 0);
    }
  }

  predicate Marked(words: seq<nat>, relative: nat)
    requires relative / WORD_BITS < |words|
  {
    Bit(words[relative / WORD_BITS], relative % WORD_BITS)
  }

  /** The words stand for exactly the covered indices of a window of `n` parts. */
  ghost predicate Represents(words: seq<nat>, n: nat, covered: set<nat>) {
    && n <= |words| * WORD_BITS
    && (forall i :: 0 <= i < |words| ==> words[i] < Pow2(64))
    && (forall r :: r in covered ==> r < n)
    && (forall r: nat {:trigger Marked(words, r)} :: r / WORD_BITS < |words| ==> (Marked(words, r) <==> r in covered))
  }

  function Mark(words: seq<nat>, relative: nat): seq<nat>
    requires relative / WORD_BITS < |words|
  {
    var word := relative / WORD_BITS;
    words[word := SetBit(words[word], relative % WORD_BITS)]
  }

  lemma MarkedAfterMark(words: seq<nat>, relative: nat, r: nat)
    requires relative / WORD_BITS < |words| && r / WORD_BITS < |words|
    ensures Marked(Mark(words, relative), r) <==> (r == relative || Marked(words, r))
  {
    BitOfSet(words[relative / WORD_BITS], relative % WORD_BITS, r % WORD_BITS);
  }

  lemma MarkRepresents(words: seq<nat>, n: nat, covered: set<nat>, relative: nat)
    requires Represents(words, n, covered) && relative < n
    ensures Represents(Mark(words, relative), n, covered + {relative})
  {
    SetBitFits(words[relative / WORD_BITS], relative % WORD_BITS, WORD_BITS);
    forall r: nat | r / WORD_BITS < |words|
      ensures Marked(Mark(words, relative), r) <==> r in covered + {relative}
    {
      MarkedAfterMark(words, relative, r);
    }
  }

  lemma BlankRepresents(words: seq<nat>, n: nat)
    requires n <= |words| * WORD_BITS && forall i :: 0 <= i < |words| ==> words[i] == 0
    ensures Represents(words, n, {})
  {
    forall r: nat | r / WORD_BITS < |words| ensures !Marked(words, r) {
      BitOfZero(r % WORD_BITS);
    }
  }

  ghost function Below(n: nat): (s: set<nat>)
    ensures |s| == n && forall r: nat :: r in s <==> r < n
  {
    if n == 0 then {} else Below(n - 1) + {n - 1}
  }

  lemma HoleMeansShort(covered: set<nat>, n: nat, hole: nat)
    requires hole < n && hole !in covered && forall r :: r in covered ==> r < n
    ensures |covered| < n && covered != Below(n)
  {
    assert hole in Below(n);
    SubsetSize(covered, Below(n));
  }

  /** `r` begins a maximal run of consecutive covered indices. */
  ghost predicate IsRunStart(covered: set<nat>, r: nat) { r in covered && (r == 0 || r - 1 !in covered) }

  ghost function RunStarts(covered: set<nat>): set<nat> { set r | r in covered && IsRunStart(covered, r) }

  /** Number of run starts among the first `n` indices. */
  ghost function StartsBefore(covered: set<nat>, n: nat): nat {
    if n == 0 then 0 else StartsBefore(covered, n - 1) + if IsRunStart(covered, n - 1) then 1 else 0
  }

  ghost function RunStartsBelow(covered: set<nat>, n: nat): set<nat> {
    set r | r in covered && r < n && IsRunStart(covered, r)
  }

  lemma {:induction false} StartsAreCounted(covered: set<nat>, n: nat)
    ensures StartsBefore(covered, n) == |RunStartsBelow(covered, n)|
  {
    if n > 0 {
      StartsAreCounted(covered, n - 1);
      var now := if IsRunStart(covered, n - 1) then {n - 1} else {};
      assert RunStartsBelow(covered, n) == RunStartsBelow(covered, n - 1) + now;
    } else {
      assert RunStartsBelow(covered, n) == {};
    }
  }

  lemma AllStartsAreCounted(covered: set<nat>, n: nat)
    requires forall r :: r in covered ==> r < n
    ensures StartsBefore(covered, n) == |RunStarts(covered)|
    ensures covered == {} ==> |RunStarts(covered)| == 0
  {
    StartsAreCounted(covered, n);
    assert RunStartsBelow(covered, n) == RunStarts(covered);
    if covered == {} { assert RunStarts(covered) == {}; }
  }

  /** Where the gap count stands when the first `n` indices have been looked at. */
  ghost predicate Scanned(covered: set<nat>, n: nat, previous: Option<nat>, gaps: nat) {
    match previous
    case None => gaps == StartsBefore(covered, n) == 0 && forall x: nat :: x < n ==> x !in covered
    case Some(last) =>
      && last in covered && last < n
      && (forall x: nat :: last < x < n ==> x !in covered)
      && StartsBefore(covered, n) == gaps + 1
  }

  predicate Jumps(previous: Option<nat>, n: nat) { previous.Some? && n != previous.value + 1 }

  /** The last covered index and the gaps so far, index by index. */
  ghost function Scan(covered: set<nat>, n: nat): (Option<nat>, nat) {
    if n == 0 then (None, 0)
    else
      var (previous, gaps) := Scan(covered, n - 1);
      if n - 1 !in covered then (previous, gaps)
      else (Some(n - 1), if Jumps(previous, n - 1) then gaps + 1 else gaps)
  }

  lemma {:induction false} ScanCounts(covered: set<nat>, n: nat)
    ensures Scanned(covered, n, Scan(covered, n).0, Scan(covered, n).1)
  {
    if n > 0 {
      ScanCounts(covered, n - 1);
      var previous := Scan(covered, n - 1).0;
      assert n - 1 in covered && previous.Some? ==> (IsRunStart(covered, n - 1) <==> Jumps(previous, n - 1));
    }
  }

  lemma ScanAll(covered: set<nat>, n: nat)
    requires forall r :: r in covered ==> r < n
    ensures Scan(covered, n).1 == if covered == {} then 0 else |RunStarts(covered)| - 1
  {
    ScanCounts(covered, n);
    AllStartsAreCounted(covered, n);
  }

  class PartCoverage {
    const startSequence: u64
    const partMs: u64
    const expectedParts: u64
    const words: array<nat>
    var receivedParts: nat
    ghost var covered: set<nat>

    /** The words represent the covered indices and the counter is their number. */
    ghost predicate Valid()
      reads this, words
    {
      && partMs > 0
      && Represents(words[..], expectedParts, covered)
      && receivedParts == |covered|
    }

    /** The fallible reservation of the words has succeeded, so the window is far
        below the sizes at which the rounding up would saturate. */
    constructor (startSequence: u64, expectedParts: u64, partMs: u64)
      requires partMs > 0 && expectedParts + 63 <= U64_MAX
      ensures Valid() && covered == {} && fresh(words)
      ensures this.startSequence == startSequence && this.expectedParts == expectedParts && this.partMs == partMs
    {
      this.startSequence, this.expectedParts, this.partMs := startSequence, expectedParts, partMs;
      words := new nat[SatAdd(expectedParts, 63) / 64](i => 0);
      receivedParts, covered := 0, {};
      new;
      BlankRepresents(words[..], expectedParts);
    }

    /** Accepts a time exactly when it is aligned, inside the window and new. */
    method InsertPts(ptsMs: u64) returns (inserted: bool)
      requires Valid()
      modifies this`receivedParts, this`covered, words
      ensures Valid()
      ensures inserted <==>
        exists r: nat :: r < expectedParts && ptsMs == PartStart(startSequence, partMs, r) && r !in old(covered)
      ensures var relative := RelativeOf(startSequence, partMs, expectedParts, ptsMs);
        && (inserted <==> relative.Some? && relative.value !in old(covered))
        && covered == if inserted then old(covered) + {relative.value} else old(covered)
    {
      forall r: nat
        ensures RelativeOf(startSequence, partMs, expectedParts, ptsMs) == Some(r) <==>
          r < expectedParts && ptsMs == PartStart(startSequence, partMs, r)
      {
        RelativeIff(startSequence, partMs, expectedParts, ptsMs, r);
      }
      ghost var place := RelativeOf(startSequence, partMs, expectedParts, ptsMs);
      if ptsMs % partMs != 0 {
        return false;
      }
      var sequence := ptsMs / partMs;
      if sequence < startSequence {
        return false;
      }
      var relative := sequence - startSequence;
      if relative >= expectedParts {
        return false;
      }
      assert place == Some(relative);
      var word := relative / WORD_BITS;
      assert Marked(words[..], relative) == Bit(words[word], relative % WORD_BITS);
      if Bit(words[word], relative % WORD_BITS) {
        return false;
      }
      MarkRepresents(words[..], expectedParts, covered, relative);
      SubsetSize(covered + {relative}, Below(expectedParts));
      ghost var marked := Mark(words[..], relative);
      words[word] := SetBit(words[word], relative % WORD_BITS);
      assert words[..] == marked;
      receivedParts := SatAdd(receivedParts, 1);
      covered := covered + {relative};
      return true;
    }

    /** Any index may be asked for; outside the window the answer is no. */
    method ContainsRelative(relative: nat) returns (found: bool)
      requires Valid()
      ensures found <==> relative in covered
    {
      var word := relative / WORD_BITS;
      if word >= words.Length {
        return false;
      }
      assert Marked(words[..], relative) == Bit(words[word], relative % WORD_BITS);
      found := Bit(words[word], relative % WORD_BITS);
    }

    /** The least index not covered; none exactly when the window is complete. */
    method FirstMissingRelative() returns (missing: Option<nat>)
      requires Valid()
      ensures missing.None? <==> covered == Below(expectedParts)
      ensures missing.None? <==> receivedParts == expectedParts
      ensures missing.Some? ==>
        && missing.value < expectedParts && missing.value !in covered
        && forall r: nat :: r < missing.value ==> r in covered
    {
      var relative := 0;
      while relative < expectedParts
        invariant relative <= expectedParts && forall r: nat :: r < relative ==> r in covered
      {
        var found := ContainsRelative(relative);
        if !found {
          HoleMeansShort(covered, expectedParts, relative);
          return Some(relative);
        }
        relative := relative + 1;
      }
      assert covered == Below(expectedParts);
      return None;
    }

    function PtsAt(relative: nat): u64 {
      SatMul(SatAdd(startSequence, relative), partMs)
    }

    method FirstPtsMs() returns (pts: Option<u64>)
      requires Valid()
      ensures pts.None? <==> covered == {}
      ensures pts.Some? ==> exists r :: r in covered && pts.value == Min(U64_MAX, Min(U64_MAX, startSequence + r) * partMs)
                                  && forall x :: x in covered ==> r <= x
    {
      var relative := 0;
      while relative < expectedParts
        invariant relative <= expectedParts && forall x :: x in covered ==> relative <= x
      {
        var found := ContainsRelative(relative);
        if found {
          return Some(PtsAt(relative));
        }
        relative := relative + 1;
      }
      return None;
    }

    method LastPtsMs() returns (pts: Option<u64>)
      requires Valid()
      ensures pts.None? <==> covered == {}
      ensures pts.Some? ==> exists r :: r in covered && pts.value == Min(U64_MAX, Min(U64_MAX, startSequence + r) * partMs)
                                  && forall x :: x in covered ==> x <= r
    {
      var relative: nat := expectedParts;
      while relative > 0
        invariant relative <= expectedParts && forall x :: x in covered ==> x < relative
      {
        relative := relative - 1;
        var found := ContainsRelative(relative);
        if found {
          return Some(PtsAt(relative));
        }
      }
      return None;
    }

    /** Gaps between covered parts: the number of maximal runs less one. */
    method NonContiguousPts() returns (gaps: nat)
      requires Valid()
      ensures gaps == if covered == {} then 0 else |RunStarts(covered)| - 1
    {
      var previous: Option<nat> := None;
      gaps := 0;
      var relative := 0;
      ghost var all := covered;
      while relative < expectedParts
        invariant relative <= expectedParts && (previous, gaps) == Scan(all, relative)
      {
        var found := ContainsRelative(relative);
        if found {
          if Jumps(previous, relative) {
            gaps := gaps + 1;
          }
          previous := Some(relative);
        }
        relative := relative + 1;
      }
      ScanAll(all, expectedParts);
    }
  }
}
