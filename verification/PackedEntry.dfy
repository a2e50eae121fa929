/** The 64-bit log entry: a buffer or block index, an offset and a length.  Words are
    numbers; `|` and `&` work on their binary digits. */
module PackedEntry {
  type U16 = n: nat | n < 0x1_0000
  type U32 = n: nat | n < 0x1_0000_0000

  const TWO64: nat := 0x1_0000_0000_0000_0000
  const TWO32: nat := 0x1_0000_0000
  const TWO31: nat := 0x8000_0000
  const TWO16: nat := 0x1_0000

  // ---- bits

  /** `a | b` or, if not `either`, `a & b`. */
  function Bitwise(either: bool, a: nat, b: nat): (r: nat) {
    if a == 0 && b == 0 then 0
    else
      2 * Bitwise(either, a / 2, b / 2)
      + if (if either then a % 2 == 1 || b % 2 == 1 else a % 2 == 1 && b % 2 == 1) then 1 else 0
  }

  function Or(a: nat, b: nat): nat { Bitwise(true, a, b) }
  function And(a: nat, b: nat): nat { Bitwise(false, a, b) }

  function Pow2(k: nat): (r: nat)
    ensures r >= 1
  {
    if k == 0 then 1 else 2 * Pow2(k - 1)
  }

  /** All but the last `k` bits. */
  function High(a: nat, k: nat): nat { if k == 0 then a else High(a / 2, k - 1) }

  /** The last `k` bits. */
  function Low(a: nat, k: nat): nat { if k == 0 then 0 else a % 2 + 2 * Low(a / 2, k - 1) }

  lemma Doubled(h: nat, p: nat, l: nat, a: nat)
    requires a / 2 == h * p + l && l < p
    ensures a == h * (2 * p) + (a % 2 + 2 * l) && a % 2 + 2 * l < 2 * p
  {
    assert h * (2 * p) == 2 * (h * p);
  }

  lemma {:induction false} HighLow(a: nat, k: nat)
    ensures a == High(a, k) * Pow2(k) + Low(a, k) && Low(a, k) < Pow2(k)
  {
    if k > 0 {
      HighLow(a / 2, k - 1);
      Doubled(High(a / 2, k - 1), Pow2(k - 1), Low(a / 2, k - 1), a);
    }
  }

  lemma {:induction false} BitwiseHigh(either: bool, a: nat, b: nat, k: nat)
    ensures High(Bitwise(either, a, b), k) == Bitwise(either, High(a, k), High(b, k))
  {
    if k > 0 { BitwiseHigh(either, a / 2, b / 2, k - 1); }
  }

  lemma {:induction false} BitwiseLow(either: bool, a: nat, b: nat, k: nat)
    ensures Low(Bitwise(either, a, b), k) == Bitwise(either, Low(a, k), Low(b, k))
  {
    if k > 0 { BitwiseLow(either, a / 2, b / 2, k - 1); }
  }

  lemma {:induction false} OrZero(a: nat)
    ensures Or(a, 0) == a && Or(0, a) == a && And(0, a) == 0 && And(a, 0) == 0
  {
    if a > 0 { OrZero(a / 2); }
  }

  /** All ones absorb under `|` and keep under `&`. */
  lemma {:induction false} Ones(a: nat, k: nat)
    requires a < Pow2(k)
    ensures Or(a, Pow2(k) - 1) == Pow2(k) - 1 && And(a, Pow2(k) - 1) == a
  {
    if k > 0 {
      assert (Pow2(k) - 1) / 2 == Pow2(k - 1) - 1 && (Pow2(k) - 1) % 2 == 1;
      Ones(a / 2, k - 1);
    }
  }

  lemma Pow2s()
    ensures Pow2(16) == TWO16 && Pow2(32) == TWO32
  {
    assert Pow2(8) == 256;
    assert Pow2(16) == 256 * Pow2(8) by { assert Pow2(16) == 16 * Pow2(12) && Pow2(12) == 16 * Pow2(8); }
    assert Pow2(24) == 256 * Pow2(16) by { assert Pow2(24) == 16 * Pow2(20) && Pow2(20) == 16 * Pow2(16); }
    assert Pow2(32) == 256 * Pow2(24) by { assert Pow2(32) == 16 * Pow2(28) && Pow2(28) == 16 * Pow2(24); }
  }

  /** Where a number is cut, for the two cuts used here. */
  lemma Cut(a: nat, q: nat, r: nat, k: nat)
    requires k == 16 || k == 32
    requires a == q * (if k == 16 then TWO16 else TWO32) + r && r < if k == 16 then TWO16 else TWO32
    ensures High(a, k) == q && Low(a, k) == r
  {
    Pow2s();
    HighLow(a, k);
  }

  // ---- the entry

  /** A 32-bit int widened to 64 bits: the sign bit fills the upper half. */
  function Widen(x: U32): (r: nat)
    ensures r < TWO64
  {
    if x >= TWO31 then x + TWO64 - TWO32 else x
  }

  /** `(uint64_t)idx << 32 | off << 16 | len`: the offset is shifted as an int. */
  function Pack(idx: U32, off: U16, len: U16): (p: nat) {
    Or(Or(idx * TWO32, Widen(off * TWO16)), len)
  }

  function Idx(p: nat): nat { p / TWO32 }
  function Offset(p: nat): nat { And(p, 0xffff_0000) / TWO16 }
  function Len(p: nat): nat { And(p, 0xffff) }

  lemma PackIndex(idx: U32, off: U16, len: U16)
    ensures Idx(Pack(idx, off, len)) == if off < 0x8000 then idx else TWO32 - 1
    ensures Pack(idx, off, len) < TWO64
  {
    hide Bitwise, High, Low;
    var x, w := idx * TWO32, Widen(off * TWO16);
    var p := Pack(idx, off, len);
    Cut(x, idx, 0, 32);
    Cut(len, 0, len, 32);
    if off < 0x8000 { Cut(w, 0, off * TWO16, 32); } else { Cut(w, TWO32 - 1, off * TWO16, 32); }
    BitwiseHigh(true, Or(x, w), len, 32);
    BitwiseHigh(true, x, w, 32);
    OrZero(idx);
    OrZero(TWO32 - 1);
    Pow2s();
    Ones(idx, 32);
    assert High(p, 32) == if off < 0x8000 then idx else TWO32 - 1;
    HighLow(p, 32);
  }

  lemma PackLow(idx: U32, off: U16, len: U16)
    ensures Low(Pack(idx, off, len), 16) == len && Low(High(Pack(idx, off, len), 16), 16) == off
  {
    hide Bitwise, High, Low;
    var x, w := idx * TWO32, Widen(off * TWO16);
    var hi := if off < 0x8000 then 0 else TWO32 - 1;
    Cut(x, idx * TWO16, 0, 16);
    Cut(w, hi * TWO16 + off, 0, 16);
    Cut(len, 0, len, 16);
    BitwiseLow(true, Or(x, w), len, 16);
    BitwiseLow(true, x, w, 16);
    BitwiseHigh(true, Or(x, w), len, 16);
    BitwiseHigh(true, x, w, 16);
    var y, v := idx * TWO16, hi * TWO16 + off;
    OrZero(0);
    OrZero(len);
    OrZero(Or(y, v));
    BitwiseLow(true, y, v, 16);
    Cut(y, idx, 0, 16);
    Cut(v, hi, off, 16);
    OrZero(off);
  }

  /** The masks of the reader pick the last, and the second last, sixteen bits. */
  lemma Masks(p: nat)
    ensures Len(p) == Low(p, 16) && Offset(p) == Low(High(p, 16), 16)
  {
    hide Bitwise, High, Low;
    Pow2s();
    MaskLow(p);
    var m := And(p, 0xffff_0000);
    BitwiseHigh(false, p, 0xffff_0000, 16);
    Cut(0xffff_0000, 0xffff, 0, 16);
    MaskLow(High(p, 16));
    HighLow(m, 16);
    BitwiseLow(false, p, 0xffff_0000, 16);
    OrZero(Low(p, 16));
  }

  lemma MaskLow(a: nat)
    ensures And(a, 0xffff) == Low(a, 16)
  {
    hide Bitwise, High, Low;
    Pow2s();
    HighLow(a, 16);
    var m := And(a, 0xffff);
    BitwiseHigh(false, a, 0xffff, 16);
    BitwiseLow(false, a, 0xffff, 16);
    Cut(0xffff, 0, 0xffff, 16);
    OrZero(High(a, 16));
    Ones(Low(a, 16), 16);
    HighLow(m, 16);
  }

  /** Offset and length always survive; the index does exactly for offsets below 2^15 (or
      when it is the all-ones index). */
  lemma PackUnpack(idx: U32, off: U16, len: U16)
    ensures Offset(Pack(idx, off, len)) == off && Len(Pack(idx, off, len)) == len
    ensures Idx(Pack(idx, off, len)) == idx <==> off < 0x8000 || idx == TWO32 - 1
    ensures Pack(idx, off, len) < TWO64
  {
    hide Pack, Offset, Len, Idx;
    PackIndex(idx, off, len);
    PackLow(idx, off, len);
    Masks(Pack(idx, off, len));
  }

  /** A 2 KB offset of 32768 loses its index. */
  lemma PackLosesIndex()
    ensures Idx(Pack(7, 0x8000, 64)) != 7
  {
    PackUnpack(7, 0x8000, 64);
  }
}
