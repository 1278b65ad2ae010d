/** Failure-compatible result types shared by every component. */
module Wrappers {
  datatype Option<+T> = None | Some(value: T)

  datatype Result<+T, +E> = Ok(value: T) | Err(error: E)
}

/** Fixed-width unsigned words. Values are integers; every place where the width
    shows (saturation, truncation, bounds) is written out. */
module Words {
  const U16_MAX: nat := 0xFFFF
  const U32_MAX: nat := 0xFFFF_FFFF
  const U64_MAX: nat := 0xFFFF_FFFF_FFFF_FFFF
  const U128_MAX: nat := 0xFFFF_FFFF_FFFF_FFFF_FFFF_FFFF_FFFF_FFFF

  type u8 = n: nat | n <= 0xFF
  type u16 = n: nat | n <= U16_MAX
  type u32 = n: nat | n <= U32_MAX
  type u64 = n: nat | n <= U64_MAX

  function Min(a: nat, b: nat): nat { if a <= b then a else b }

  function Max(a: nat, b: nat): nat { if a <= b then b else a }

  /** Saturating arithmetic at an explicit maximum. */
  function SatAddTo(max: nat, a: nat, b: nat): nat { Min(max, a + b) }

  function SatMulTo(max: nat, a: nat, b: nat): nat { Min(max, a * b) }

  function SatAdd(a: nat, b: nat): nat { SatAddTo(U64_MAX, a, b) }

  function SatMul(a: nat, b: nat): nat { SatMulTo(U64_MAX, a, b) }

  function SatSub(a: nat, b: nat): nat { if a >= b then a - b else 0 }

  function AbsDiff(a: nat, b: nat): nat { if a >= b then a - b else b - a }
}

module Sets {
  lemma SubsetSize<T>(small: set<T>, large: set<T>)
    requires small <= large
    ensures |small| <= |large| && (|small| == |large| ==> small == large)
  {
    assert large == small + (large - small);
  }
}

/** Bits of an unsigned word held as an integer. */
module Bits {
  function Pow2(n: nat): (p: nat)
    ensures p > 0
  {
    if n == 0 then 1 else 2 * Pow2(n - 1)
  }

  predicate Bit(x: nat, d: nat) {
    if d == 0 then x % 2 == 1 else Bit(x / 2, d - 1)
  }

  /** `(x << s)` kept to `width` bits. */
  function ShiftLeft(x: nat, s: nat, width: nat): nat {
    (x * Pow2(s)) % Pow2(width)
  }

  /** `x | (1 << d)`. */
  function SetBit(x: nat, d: nat): nat {
    if Bit(x, d) then x else x + Pow2(d)
  }

  lemma {:induction false} BitOfSet(x: nat, i: nat, d: nat)
    ensures Bit(SetBit(x, i), d) <==> (d == i || Bit(x, d))
  {
    if Bit(x, i) {
    } else if i == 0 {
      assert (x + 1) / 2 == x / 2;
    } else {
      assert (x + Pow2(i)) / 2 == x / 2 + Pow2(i - 1);
      assert (x + Pow2(i)) % 2 == x % 2;
      if d > 0 { BitOfSet(x / 2, i - 1, d - 1); }
    }
  }

  lemma {:induction false} SetBitFits(x: nat, i: nat, width: nat)
    requires i < width && x < Pow2(width)
    ensures SetBit(x, i) < Pow2(width)
  {
    if Bit(x, i) {
    } else if i == 0 {
    } else {
      SetBitFits(x / 2, i - 1, width - 1);
      assert SetBit(x / 2, i - 1) == x / 2 + Pow2(i - 1);
    }
  }

  lemma {:induction false} BitOfProduct(x: nat, s: nat, d: nat)
    ensures Bit(x * Pow2(s), d) <==> (d >= s && Bit(x, d - s))
  {
    if s == 0 {
      assert x * Pow2(0) == x;
    } else {
      assert x * Pow2(s) == 2 * (x * Pow2(s - 1));
      if d > 0 { BitOfProduct(x, s - 1, d - 1); }
    }
  }

  lemma HalfOfMod(x: nat, m: nat)
    requires m > 0
    ensures (x % (2 * m)) / 2 == (x / 2) % m
    ensures (x % (2 * m)) % 2 == x % 2
  {
    var q, r := x / (2 * m), x % (2 * m);
    assert x == q * (2 * m) + r;
    assert x == 2 * (q * m) + r;
    assert x / 2 == q * m + r / 2;
    ModUnique(x / 2, m, q, r / 2);
  }

  lemma MulGap(a: nat, b: nat, m: nat)
    requires a < b
    ensures a * m + m <= b * m
  {
    assert b * m == a * m + (b - a) * m;
    assert (b - a) * m == m + (b - a - 1) * m;
  }

  lemma ModUnique(x: nat, m: nat, q: nat, r: nat)
    requires m > 0 && x == q * m + r && r < m
    ensures x % m == r && x / m == q
  {
    var q' := x / m;
    if q' > q { MulGap(q, q', m); }
    if q' < q { MulGap(q', q, m); }
  }

  lemma {:induction false} BitOfTruncated(x: nat, width: nat, d: nat)
    requires d < width
    ensures Bit(x % Pow2(width), d) <==> Bit(x, d)
  {
    HalfOfMod(x, Pow2(width - 1));
    if d > 0 { BitOfTruncated(x / 2, width - 1, d - 1); }
  }

  lemma BitOfShift(x: nat, s: nat, width: nat, d: nat)
    requires d < width
    ensures Bit(ShiftLeft(x, s, width), d) <==> (d >= s && Bit(x, d - s))
  {
    BitOfTruncated(x * Pow2(s), width, d);
    BitOfProduct(x, s, d);
  }

  lemma {:induction false} BitOfOne(d: nat)
    ensures Bit(1, d) <==> d == 0
  {
    if d > 0 { BitOfZero(d - 1); }
  }

  lemma {:induction false} BitOfZero(d: nat)
    ensures !Bit(0, d)
  {
    if d > 0 { BitOfZero(d - 1); }
  }
}
