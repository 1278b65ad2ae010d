/** The 128-wide replay window kept for one (capability, binding) pair. */
module SequenceWindows {
  import opened Words
  import opened Bits

  const SEQUENCE_WINDOW_BITS: nat := 128

  datatype Window = Window(highest: u64, seen: nat)

  function FirstWindow(sequence: u64): Window { Window(sequence, 1) }

  /** One call of `admit`: the window afterwards and the verdict. */
  function AdmitStep(w: Window, sequence: u64): (r: (Window, bool)) {
    if sequence > w.highest then
      var shift := sequence - w.highest;
      var seen := if shift >= SEQUENCE_WINDOW_BITS then 1
                  else SetBit(ShiftLeft(w.seen, shift, SEQUENCE_WINDOW_BITS), 0);
      (Window(sequence, seen), true)
    else
      var distance := w.highest - sequence;
      if distance >= SEQUENCE_WINDOW_BITS then (w, false)
      else if Bit(w.seen, distance) then (w, false)
      else (w.(seen := SetBit(w.seen, distance)), true)
  }

  /** `w` is the window of exactly the admitted set `s`: `highest` is its maximum
      and bit `d` tells whether `highest - d` is a member. */
  ghost predicate Represents(w: Window, s: set<nat>) {
    && w.seen < Pow2(SEQUENCE_WINDOW_BITS)
    && w.highest in s
    && (forall q :: q in s ==> q <= w.highest)
    && (forall d: nat :: d < SEQUENCE_WINDOW_BITS ==>
          (Bit(w.seen, d) <==> (d <= w.highest && w.highest - d in s)))
  }

  /** The verdict in terms of the admitted set alone. */
  ghost predicate Admissible(s: set<nat>, highest: nat, q: nat) {
    q !in s && (q > highest || highest - q < SEQUENCE_WINDOW_BITS)
  }

  lemma FirstRepresents(sequence: u64)
    ensures Represents(FirstWindow(sequence), {sequence as nat})
  {
    forall d: nat | d < SEQUENCE_WINDOW_BITS ensures Bit(1, d) <==> d == 0 { BitOfOne(d); }
    PowersGrow(1, SEQUENCE_WINDOW_BITS);
  }

  lemma {:induction false} PowersGrow(i: nat, n: nat)
    requires i <= n
    ensures Pow2(i) <= Pow2(n)
  {
    if i < n { PowersGrow(i, n - 1); }
  }

  lemma ForwardRefinesSet(w: Window, s: set<nat>, q: u64)
    requires Represents(w, s) && q > w.highest
    ensures Represents(AdmitStep(w, q).0, s + {q as nat})
  {
    var shift, w' := q - w.highest, AdmitStep(w, q).0;
    PowersGrow(1, SEQUENCE_WINDOW_BITS);
    forall d: nat | d < SEQUENCE_WINDOW_BITS
      ensures Bit(w'.seen, d) <==> (d <= q && q - d in s + {q as nat})
    {
      BitOfOne(d);
      if shift < SEQUENCE_WINDOW_BITS {
        BitOfSet(ShiftLeft(w.seen, shift, SEQUENCE_WINDOW_BITS), 0, d);
        BitOfShift(w.seen, shift, SEQUENCE_WINDOW_BITS, d);
        if d >= shift { assert q - d == w.highest - (d - shift); }
      }
    }
    if shift < SEQUENCE_WINDOW_BITS {
      SetBitFits(ShiftLeft(w.seen, shift, SEQUENCE_WINDOW_BITS), 0, SEQUENCE_WINDOW_BITS);
    }
  }

  lemma BackwardRefinesSet(w: Window, s: set<nat>, q: u64)
    requires Represents(w, s) && q <= w.highest && w.highest - q < SEQUENCE_WINDOW_BITS
    ensures AdmitStep(w, q).1 <==> q !in s
    ensures Represents(AdmitStep(w, q).0, s + {q as nat})
  {
    var distance := w.highest - q;
    assert w.highest - distance == q;
    SetBitFits(w.seen, distance, SEQUENCE_WINDOW_BITS);
    forall d: nat | d < SEQUENCE_WINDOW_BITS
      ensures Bit(SetBit(w.seen, distance), d) <==> (d == distance || Bit(w.seen, d))
    {
      BitOfSet(w.seen, distance, d);
    }
  }

  /** A call admits exactly the sequences that are new and either above the maximum
      or fewer than 128 behind it, and the window goes on representing the set. */
  lemma AdmitRefinesSet(w: Window, s: set<nat>, q: u64)
    requires Represents(w, s)
    ensures AdmitStep(w, q).1 <==> Admissible(s, w.highest, q)
    ensures Represents(AdmitStep(w, q).0, if AdmitStep(w, q).1 then s + {q as nat} else s)
  {
    if q > w.highest {
      ForwardRefinesSet(w, s, q);
    } else if w.highest - q < SEQUENCE_WINDOW_BITS {
      BackwardRefinesSet(w, s, q);
      if q in s { assert s + {q as nat} == s; }
    }
  }

  /** Any number of calls on one window. */
  function Run(w: Window, calls: seq<u64>): (r: (Window, seq<bool>))
    ensures |r.1| == |calls|
  {
    if calls == [] then (w, [])
    else
      var (before, verdicts) := Run(w, calls[..|calls| - 1]);
      var (after, verdict) := AdmitStep(before, calls[|calls| - 1]);
      (after, verdicts + [verdict])
  }

  /** The set the window stands for after a run: the first sequence and every admitted call. */
  ghost function AdmittedSet(first: u64, calls: seq<u64>, verdicts: seq<bool>): set<nat>
    requires |verdicts| == |calls|
  {
    {first as nat} + set i | 0 <= i < |calls| && verdicts[i] :: calls[i] as nat
  }

  lemma ExtendAdmittedSet(first: u64, calls: seq<u64>, verdicts: seq<bool>, q: u64, verdict: bool)
    requires |verdicts| == |calls|
    ensures AdmittedSet(first, calls + [q], verdicts + [verdict])
         == AdmittedSet(first, calls, verdicts) + if verdict then {q as nat} else {}
  {
    var calls', verdicts' := calls + [q], verdicts + [verdict];
    forall x | x in AdmittedSet(first, calls, verdicts) ensures x in AdmittedSet(first, calls', verdicts') {
      if x != first {
        var i :| 0 <= i < |calls| && verdicts[i] && calls[i] == x;
        assert calls'[i] == x && verdicts'[i];
      }
    }
    if verdict { assert calls'[|calls|] == q && verdicts'[|calls|]; }
  }

  /** After any run from a first sequence the window represents the admitted set. */
  lemma {:induction false} RunRefinesSet(first: u64, calls: seq<u64>)
    ensures var (w, verdicts) := Run(FirstWindow(first), calls);
            Represents(w, AdmittedSet(first, calls, verdicts))
  {
    if calls == [] {
      FirstRepresents(first);
      assert AdmittedSet(first, [], []) == {first as nat};
    } else {
      var n := |calls| - 1;
      RunRefinesSet(first, calls[..n]);
      var (before, verdicts) := Run(FirstWindow(first), calls[..n]);
      AdmitRefinesSet(before, AdmittedSet(first, calls[..n], verdicts), calls[n]);
      ExtendAdmittedSet(first, calls[..n], verdicts, calls[n], AdmitStep(before, calls[n]).1);
      assert calls[..n] + [calls[n]] == calls;
    }
  }

  /** No sequence is admitted twice in a run, and the first one is never admitted again. */
  lemma {:induction false} RunAdmitsOnce(first: u64, calls: seq<u64>, i: nat, j: nat)
    requires i < j < |calls|
    ensures var verdicts := Run(FirstWindow(first), calls).1;
            && (verdicts[j] ==> calls[j] != first)
            && (verdicts[i] && verdicts[j] ==> calls[i] != calls[j])
  {
    var n := |calls| - 1;
    var (before, verdicts) := Run(FirstWindow(first), calls[..n]);
    if j < n {
      RunAdmitsOnce(first, calls[..n], i, j);
    } else {
      RunRefinesSet(first, calls[..n]);
      var s := AdmittedSet(first, calls[..n], verdicts);
      AdmitRefinesSet(before, s, calls[n]);
      if verdicts[i] { assert calls[..n][i] as nat in s; }
    }
  }

  /** The mutable window, with the set it stands for kept as a ghost. */
  class SequenceWindow {
    var highest: u64
    var seen: nat
    ghost var admitted: set<nat>

    ghost predicate Valid()
      reads this
    {
      Represents(Window(highest, seen), admitted)
    }

    constructor First(sequence: u64)
      ensures Valid() && admitted == {sequence as nat} && highest == sequence
    {
      highest := sequence;
      seen := 1;
      admitted := {sequence as nat};
      new;
      FirstRepresents(sequence);
    }

    method Admit(sequence: u64) returns (ok: bool)
      requires Valid()
      modifies this
      ensures Valid()
      ensures ok <==> Admissible(old(admitted), old(highest), sequence)
      ensures admitted == if ok then old(admitted) + {sequence as nat} else old(admitted)
      ensures (Window(highest, seen), ok) == AdmitStep(old(Window(highest, seen)), sequence)
    {
      AdmitRefinesSet(Window(highest, seen), admitted, sequence);
      if sequence > highest {
        var shift := sequence - highest;
        if shift >= SEQUENCE_WINDOW_BITS {
          seen := 1;
        } else {
          seen := SetBit(ShiftLeft(seen, shift, SEQUENCE_WINDOW_BITS), 0);
        }
        highest := sequence;
        admitted := admitted + {sequence as nat};
        return true;
      }
      var distance := highest - sequence;
      if distance >= SEQUENCE_WINDOW_BITS {
        return false;
      }
      if Bit(seen, distance) {
        return false;
      }
      seen := SetBit(seen, distance);
      admitted := admitted + {sequence as nat};
      return true;
    }
  }
}
