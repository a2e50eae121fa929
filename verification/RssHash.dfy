/** Receive-side scaling: the Toeplitz hash with its key cache, and the core it selects.
    A word is the sequence of its bits, most significant first. */
module RssHash {
  type Bits = seq<bool>

  const U32 := 0x1_0000_0000
  const KEY_CACHE_LEN := 96

  function Zeros(n: nat): (r: Bits)
    ensures |r| == n
  {
    seq(n, i => false)
  }

  function Xor(a: Bits, b: Bits): (r: Bits)
    requires |a| == |b|
    ensures |r| == |a|
  {
    seq(|a|, i requires 0 <= i < |a| => a[i] != b[i])
  }

  /** The number a word denotes. */
  function Val(a: Bits): (r: nat) {
    if a == [] then 0 else 2 * Val(a[..|a| - 1]) + (if a[|a| - 1] then 1 else 0)
  }

  predicate KeyOk(key: seq<Bits>) {
    |key| == 40 && forall i :: 0 <= i < 40 ==> |key[i]| == 8
  }

  function KeyBit(key: seq<Bits>, i: nat): (r: bool)
    requires KeyOk(key) && i < 320
  {
    key[i / 8][i % 8]
  }

  /** The 32 key bits from bit `i` on. */
  function Window(key: seq<Bits>, i: nat): (r: Bits)
    requires KeyOk(key) && i + 32 <= 320
    ensures |r| == 32
  {
    seq(32, t requires 0 <= t < 32 => KeyBit(key, i + t))
  }

  /** The XOR of the key windows at the set bits among the first `n` of `x`. */
  function Toeplitz(key: seq<Bits>, x: Bits, n: nat): (r: Bits)
    requires KeyOk(key) && n <= |x| && n + 32 <= 320
    ensures |r| == 32
  {
    if n == 0 then Zeros(32)
    else if x[n - 1] then Xor(Toeplitz(key, x, n - 1), Window(key, n - 1))
    else Toeplitz(key, x, n - 1)
  }

  // ---- one bit of the hash at a time

  function HashBit(key: seq<Bits>, x: Bits, n: nat, t: nat): (r: bool)
    requires KeyOk(key) && n <= |x| && n + t <= 320
  {
    n > 0 && (HashBit(key, x, n - 1, t) != (x[n - 1] && KeyBit(key, n - 1 + t)))
  }

  lemma {:induction false} ToeplitzBit(key: seq<Bits>, x: Bits, n: nat, t: nat)
    requires KeyOk(key) && n <= |x| && n + 32 <= 320 && t < 32
    ensures Toeplitz(key, x, n)[t] == HashBit(key, x, n, t)
  {
    if n > 0 { ToeplitzBit(key, x, n - 1, t); }
  }

  lemma {:induction false} HashBitLinear(key: seq<Bits>, x: Bits, y: Bits, n: nat, t: nat)
    requires KeyOk(key) && n <= |x| == |y| && n + t <= 320
    ensures HashBit(key, Xor(x, y), n, t) == (HashBit(key, x, n, t) != HashBit(key, y, n, t))
  {
    if n > 0 { HashBitLinear(key, x, y, n - 1, t); }
  }

  /** The hash is linear over XOR, whatever the key. */
  lemma {:induction false} ToeplitzLinear(key: seq<Bits>, x: Bits, y: Bits, n: nat)
    requires KeyOk(key) && n <= |x| == |y| && n + 32 <= 320
    ensures Toeplitz(key, Xor(x, y), n) == Xor(Toeplitz(key, x, n), Toeplitz(key, y, n))
  {
    var l, r := Toeplitz(key, Xor(x, y), n), Xor(Toeplitz(key, x, n), Toeplitz(key, y, n));
    forall t | 0 <= t < 32 ensures l[t] == r[t] {
      ToeplitzBit(key, Xor(x, y), n, t);
      ToeplitzBit(key, x, n, t);
      ToeplitzBit(key, y, n, t);
      HashBitLinear(key, x, y, n, t);
    }
  }

  // ---- the repeated key

  /** 0x05 in every byte. */
  function TheKey(): (key: seq<Bits>)
    ensures KeyOk(key)
  {
    seq(40, i => [false, false, false, false, false, true, false, true])
  }

  function ByteOf(x: Bits, k: nat): (r: Bits)
    requires 8 * k + 8 <= |x|
  {
    x[8 * k..8 * k + 8]
  }

  /** The XOR of the first `n` bytes. */
  function Folded(x: Bits, n: nat): (r: Bits)
    requires 8 * n <= |x|
    ensures |r| == 8
  {
    if n == 0 then Zeros(8) else Xor(Folded(x, n - 1), ByteOf(x, n - 1))
  }

  lemma KeyRepeats(i: nat)
    requires i < 320
    ensures KeyBit(TheKey(), i) == (i % 8 == 5 || i % 8 == 7)
  {
  }

  /** Bits `8k .. 8k + m` contribute what the same byte would contribute at the front. */
  lemma {:induction false} ByteContributes(x: Bits, k: nat, m: nat, t: nat)
    requires 8 * k + 8 <= |x| && m <= 8 && 8 * k + 8 + t <= 320
    ensures HashBit(TheKey(), x, 8 * k + m, t)
      == (HashBit(TheKey(), x, 8 * k, t) != HashBit(TheKey(), ByteOf(x, k), m, t))
  {
    hide KeyBit;
    if m > 0 {
      ByteContributes(x, k, m - 1, t);
      var i := 8 * k + m - 1;
      KeyRepeats(i + t);
      KeyRepeats(m - 1 + t);
      SameResidue(k, m - 1 + t);
      assert x[i] == ByteOf(x, k)[m - 1];
    }
  }

  lemma SameResidue(k: nat, j: nat)
    ensures (8 * k + j) % 8 == j % 8
  {
  }

  lemma {:induction false} ZeroHash(key: seq<Bits>, x: Bits, n: nat, t: nat)
    requires KeyOk(key) && n <= |x| && n + t <= 320 && forall i :: 0 <= i < n ==> !x[i]
    ensures !HashBit(key, x, n, t)
  {
    if n > 0 { ZeroHash(key, x, n - 1, t); }
  }

  lemma {:induction false} FoldBit(x: Bits, n: nat, t: nat)
    requires 8 * n <= |x| && 8 * n + 8 + t <= 320
    ensures HashBit(TheKey(), x, 8 * n, t) == HashBit(TheKey(), Folded(x, n), 8, t)
  {
    if n == 0 {
      ZeroHash(TheKey(), Zeros(8), 8, t);
    } else {
      hide HashBit, KeyOk, TheKey, ByteOf;
      FoldBit(x, n - 1, t);
      ByteContributes(x, n - 1, 8, t);
      HashBitLinear(TheKey(), Folded(x, n - 1), ByteOf(x, n - 1), 8, t);
    }
  }

  /** With the repeated key the hash depends only on the XOR of the input's bytes. */
  lemma Collapse(x: Bits, n: nat)
    requires 8 * n <= |x| && 8 * n + 40 <= 320
    ensures Toeplitz(TheKey(), x, 8 * n) == Toeplitz(TheKey(), Folded(x, n), 8)
  {
    var l, r := Toeplitz(TheKey(), x, 8 * n), Toeplitz(TheKey(), Folded(x, n), 8);
    forall t | 0 <= t < 32 ensures l[t] == r[t] {
      ToeplitzBit(TheKey(), x, 8 * n, t);
      ToeplitzBit(TheKey(), Folded(x, n), 8, t);
      FoldBit(x, n, t);
    }
  }

  /** The input bit under key bit 5 when the key is read from bit `t` on. */
  function Under(t: nat): (r: nat)
    ensures r < 8
  {
    (13 - t % 8) % 8
  }

  lemma UnderFacts(t: nat, n: nat)
    requires n < 8
    ensures n == Under(t) <==> (n + t) % 8 == 5
    ensures n == (Under(t) + 2) % 8 <==> (n + t) % 8 == 7
    ensures Under(Under(n)) == n
  {
    var q, r := t / 8, t % 8;
    SameResidue(q, n + r);
    assert 8 * q + (n + r) == n + t;
    ResidueCases(r, n);
  }

  lemma ResidueCases(r: nat, n: nat)
    requires n < 8 && r < 8
    ensures n == (13 - r) % 8 <==> (n + r) % 8 == 5
    ensures n == ((13 - r) % 8 + 2) % 8 <==> (n + r) % 8 == 7
    ensures (13 - (13 - n % 8) % 8 % 8) % 8 == n
  {
    Below16(n);
    Below16(n + r);
    Below16(13 - r);
    Below16((13 - r) % 8 + 2);
    Below16(13 - n);
    Below16((13 - n) % 8);
    Below16(13 - (13 - n) % 8);
  }

  lemma Below16(x: nat)
    requires x < 16
    ensures x % 8 == if x < 8 then x else x - 8
  {
  }

  lemma {:induction false} TwoBits(f: Bits, n: nat, t: nat)
    requires |f| == 8 && n <= 8 && t < 32
    ensures HashBit(TheKey(), f, n, t) == ((Under(t) < n && f[Under(t)])
                                           != ((Under(t) + 2) % 8 < n && f[(Under(t) + 2) % 8]))
  {
    hide KeyBit, Under;
    if n > 0 {
      TwoBits(f, n - 1, t);
      KeyRepeats(n - 1 + t);
      UnderFacts(t, n - 1);
    }
  }

  predicate EqualTwoOn(d: Bits, s: nat)
    requires |d| == 8 && s < 8
  {
    d[s] == d[(s + 2) % 8]
  }

  /** 0x00, 0x55, 0xaa or 0xff. */
  predicate TwoPeriodic(d: Bits)
    requires |d| == 8
  {
    forall s :: 0 <= s < 8 ==> EqualTwoOn(d, s)
  }

  lemma BitAgrees(f: Bits, g: Bits, t: nat)
    requires |f| == |g| == 8 && t < 32
    ensures Toeplitz(TheKey(), f, 8)[t] == Toeplitz(TheKey(), g, 8)[t] <==> EqualTwoOn(Xor(f, g), Under(t))
  {
    hide HashBit, Toeplitz, TheKey, KeyOk, Under;
    ToeplitzBit(TheKey(), f, 8, t);
    ToeplitzBit(TheKey(), g, 8, t);
    HashBitLinear(TheKey(), f, g, 8, t);
    TwoBits(Xor(f, g), 8, t);
  }

  /** Two inputs hash alike exactly when the XOR of all their bytes repeats every two bits,
      that is, when it is 0x00, 0x55, 0xaa or 0xff. */
  lemma HashesAgree(x: Bits, y: Bits)
    requires |x| == |y| == KEY_CACHE_LEN
    ensures Toeplitz(TheKey(), x, 96) == Toeplitz(TheKey(), y, 96)
      <==> TwoPeriodic(Xor(Folded(x, 12), Folded(y, 12)))
  {
    hide HashBit, Toeplitz, Folded, TheKey, KeyOk, Under, EqualTwoOn;
    var f, g := Folded(x, 12), Folded(y, 12);
    var d := Xor(f, g);
    Collapse(x, 12);
    Collapse(y, 12);
    var l, r := Toeplitz(TheKey(), f, 8), Toeplitz(TheKey(), g, 8);
    if l == r {
      forall s | 0 <= s < 8 ensures EqualTwoOn(d, s) {
        UnderFacts(0, s);
        BitAgrees(f, g, Under(s));
      }
    }
    if TwoPeriodic(d) {
      forall t | 0 <= t < 32 ensures l[t] == r[t] {
        BitAgrees(f, g, t);
      }
    }
  }

  // ---- the two directions of a connection

  predicate TupleOk(sip: Bits, dip: Bits, sp: Bits, dp: Bits) {
    |sip| == 32 && |dip| == 32 && |sp| == 16 && |dp| == 16
  }

  /** The bit at place `s` of every byte, XORed. */
  lemma FoldTuple(sip: Bits, dip: Bits, sp: Bits, dp: Bits, s: nat)
    requires TupleOk(sip, dip, sp, dp) && s < 8
    ensures Folded(sip + dip + sp + dp, 12)[s]
      == ((((sip[s] != sip[8 + s]) != (sip[16 + s] != sip[24 + s]))
           != ((dip[s] != dip[8 + s]) != (dip[16 + s] != dip[24 + s])))
          != ((sp[s] != sp[8 + s]) != (dp[s] != dp[8 + s])))
  {
    hide Folded;
    var x := sip + dip + sp + dp;
    assert x[s] == sip[s] && x[8 + s] == sip[8 + s] && x[16 + s] == sip[16 + s] && x[24 + s] == sip[24 + s];
    assert x[32 + s] == dip[s] && x[40 + s] == dip[8 + s] && x[48 + s] == dip[16 + s] && x[56 + s] == dip[24 + s];
    assert x[64 + s] == sp[s] && x[72 + s] == sp[8 + s] && x[80 + s] == dp[s] && x[88 + s] == dp[8 + s];
    FoldFour(x, 0, s);
    FoldFour(x, 4, s);
    FoldFour(x, 8, s);
  }

  lemma FoldFour(x: Bits, n: nat, s: nat)
    requires 8 * n + 32 <= |x| && s < 8
    ensures Folded(x, n + 4)[s] == (Folded(x, n)[s]
      != ((x[8 * n + s] != x[8 * n + 8 + s]) != (x[8 * n + 16 + s] != x[8 * n + 24 + s])))
    ensures !Folded(x, 0)[s]
  {
    hide Folded;
    FoldStep(x, n, s);
    FoldStep(x, n + 1, s);
    FoldStep(x, n + 2, s);
    FoldStep(x, n + 3, s);
  }

  lemma FoldStep(x: Bits, n: nat, s: nat)
    requires 8 * n + 8 <= |x| && s < 8
    ensures Folded(x, n + 1)[s] == (Folded(x, n)[s] != x[8 * n + s])
    ensures !Folded(x, 0)[s]
  {
  }

  /** Both directions of a connection hash alike. */
  lemma BothDirections(sip: Bits, dip: Bits, sp: Bits, dp: Bits)
    requires TupleOk(sip, dip, sp, dp)
    ensures Toeplitz(TheKey(), sip + dip + sp + dp, 96) == Toeplitz(TheKey(), dip + sip + dp + sp, 96)
  {
    hide Folded, Toeplitz, TheKey, KeyOk;
    var x, y := sip + dip + sp + dp, dip + sip + dp + sp;
    forall s | 0 <= s < 8 ensures Folded(x, 12)[s] == Folded(y, 12)[s] {
      FoldTuple(sip, dip, sp, dp, s);
      FoldTuple(dip, sip, dp, sp, s);
    }
    assert Folded(x, 12) == Folded(y, 12);
    Collapse(x, 12);
    Collapse(y, 12);
  }

  // ---- the redirection table

  /** XOR with 3: the two low bits flipped. */
  function FlipLow(a: Bits): (r: Bits)
    requires |a| >= 2
    ensures |r| == |a|
  {
    a[..|a| - 2] + [!a[|a| - 2], !a[|a| - 1]]
  }

  lemma LowTwo(a: Bits)
    requires |a| >= 2
    ensures Val(a) == 4 * Val(a[..|a| - 2]) + (if a[|a| - 2] then 2 else 0) + (if a[|a| - 1] then 1 else 0)
  {
    var b := a[..|a| - 1];
    assert b[..|b| - 1] == a[..|a| - 2];
    assert Val(b) == 2 * Val(a[..|a| - 2]) + (if b[|b| - 1] then 1 else 0);
  }

  /** The redirection table's offsets, as 32-bit words. */
  function Off(m: nat): (r: nat)
    requires m < 4
  {
    if m == 0 then 3 else if m == 1 then 1 else if m == 2 then U32 - 1 else U32 - 3
  }

  /** Adding the table's offset, in 32-bit arithmetic, is XOR with 3. */
  lemma TableIsXor(a: Bits)
    requires |a| >= 2 && Val(a) + 3 < U32
    ensures (Val(a) + Off(Val(a) % 4)) % U32 == Val(FlipLow(a))
  {
    hide Val, FlipLow, Off;
    LowTwo(a);
    LowTwo(FlipLow(a));
    FlipParts(a);
    OffAdds(Val(a[..|a| - 2]), a[|a| - 2], a[|a| - 1]);
  }

  lemma FlipParts(a: Bits)
    requires |a| >= 2
    ensures FlipLow(a)[..|a| - 2] == a[..|a| - 2]
    ensures FlipLow(a)[|a| - 2] == !a[|a| - 2] && FlipLow(a)[|a| - 1] == !a[|a| - 1]
  {
  }

  lemma OffAdds(q: nat, b1: bool, b0: bool)
    requires 4 * q + 3 < U32
    ensures var v := 4 * q + (if b1 then 2 else 0) + (if b0 then 1 else 0);
      (v + Off(v % 4)) % U32 == 4 * q + (if b1 then 0 else 2) + (if b0 then 0 else 1)
  {
  }

  lemma {:induction false} ValBound(a: Bits, n: nat)
    requires |a| <= n
    ensures Val(a) < Pow2(n)
  {
    if n > 0 {
      if a != [] { ValBound(a[..|a| - 1], n - 1); }
    }
  }

  function Pow2(n: nat): (r: nat)
    ensures r >= 1
  {
    if n == 0 then 1 else 2 * Pow2(n - 1)
  }

  // ---- the program

  lemma WindowSlides(key: seq<Bits>, i: nat, w: Bits, bit: bool)
    requires KeyOk(key) && i + 33 <= 320 && w == Window(key, i) && bit == KeyBit(key, i + 32)
    ensures w[1..] + [bit] == Window(key, i + 1)
  {
    var v := Window(key, i + 1);
    forall t | 0 <= t < 32 ensures (w[1..] + [bit])[t] == v[t] {
      if t < 31 { assert w[1..][t] == w[t + 1]; }
    }
  }

  /** BuildKeyCache: the window slides over the key one bit at a time. */
  method BuildKeyCache(cache: array<Bits>, key: seq<Bits>)
    requires KeyOk(key) && cache.Length + 32 < 320
    modifies cache
    ensures forall i :: 0 <= i < cache.Length ==> cache[i] == Window(key, i)
  {
    var result := key[0] + key[1] + key[2] + key[3];
    assert result == Window(key, 0);
    var idx := 32;
    for i := 0 to cache.Length
      invariant idx == 32 + i
      invariant result == Window(key, i)
      invariant forall k :: 0 <= k < i ==> cache[k] == Window(key, k)
    {
      cache[i] := result;
      var bit := key[idx / 8][idx % 8];
      ghost var before := result;
      result := result[1..] + [bit];
      WindowSlides(key, i, before, bit);
      idx := idx + 1;
    }
  }

  lemma ToeplitzStep(x: Bits, n: nat)
    requires n < |x| && n + 33 <= 320
    ensures Toeplitz(TheKey(), x, n + 1) ==
      if x[n] then Xor(Toeplitz(TheKey(), x, n), Window(TheKey(), n)) else Toeplitz(TheKey(), x, n)
  {
  }

  lemma Shifted(w: Bits, word: Bits, i: nat)
    requires i < |word| == |w| && w[..|word| - i] == word[i..]
    ensures w[0] == word[i] && (w[1..] + [false])[..|word| - (i + 1)] == word[i + 1..]
  {
    assert w[0] == w[..|word| - i][0];
    var l, r := (w[1..] + [false])[..|word| - (i + 1)], word[i + 1..];
    forall k | 0 <= k < |r| ensures l[k] == r[k] { assert w[..|word| - i][k + 1] == word[i..][k + 1]; }
  }

  /** One of the four loops of GetRSSHash: a word's bits, top first, against the cache from
      place `at` on. `x` is the whole tuple. */
  method Absorb(cache: array<Bits>, word: Bits, at: nat, start: Bits, ghost x: Bits) returns (res: Bits)
    requires cache.Length == KEY_CACHE_LEN
    requires forall i :: 0 <= i < KEY_CACHE_LEN ==> cache[i] == Window(TheKey(), i)
    requires |x| == KEY_CACHE_LEN && |word| > 0 && at + |word| <= KEY_CACHE_LEN && x[at..at + |word|] == word
    requires start == Toeplitz(TheKey(), x, at)
    ensures res == Toeplitz(TheKey(), x, at + |word|)
  {
    hide KeyOk, TheKey, Toeplitz, Window, Xor;
    res := start;
    var w := word;
    for i := 0 to |word|
      invariant |w| == |word|
      invariant w[..|word| - i] == word[i..]
      invariant res == Toeplitz(TheKey(), x, at + i)
    {
      Shifted(w, word, i);
      assert w[0] == x[at..at + |word|][i] == x[at + i];
      ToeplitzStep(x, at + i);
      if w[0] {
        res := Xor(res, cache[at + i]);
      }
      w := w[1..] + [false];
    }
  }

  /** The core an input selects: the low seven hash bits, XOR 3, modulo the queues. */
  function CoreOf(x: Bits, queues: nat): (r: nat)
    requires |x| == KEY_CACHE_LEN && queues > 0
  {
    Val(FlipLow(Toeplitz(TheKey(), x, 96)[25..])) % queues
  }

  /** The hash with its static state: the key cache, filled on first use. */
  class Rss {
    var first: bool
    const cache: array<Bits>

    ghost predicate Valid()
      reads this, cache
    {
      && cache.Length == KEY_CACHE_LEN
      && (!first ==> forall i :: 0 <= i < KEY_CACHE_LEN ==> cache[i] == Window(TheKey(), i))
    }

    constructor ()
      ensures Valid() && fresh(cache)
    {
      first := true;
      cache := new Bits[KEY_CACHE_LEN](i => Zeros(32));
    }

    method GetHash(sip: Bits, dip: Bits, sp: Bits, dp: Bits) returns (res: Bits)
      requires Valid() && TupleOk(sip, dip, sp, dp)
      modifies this, cache
      ensures Valid() && !first
      ensures res == Toeplitz(TheKey(), sip + dip + sp + dp, 96)
    {
      hide KeyOk, TheKey, Window, Toeplitz;
      if first {
        BuildKeyCache(cache, TheKey());
        first := false;
      }
      ghost var x := sip + dip + sp + dp;
      assert x[0..32] == sip && x[32..64] == dip && x[64..80] == sp && x[80..96] == dp;
      ToeplitzStart(x);
      res := Absorb(cache, sip, 0, Zeros(32), x);
      res := Absorb(cache, dip, 32, res, x);
      res := Absorb(cache, sp, 64, res, x);
      res := Absorb(cache, dp, 80, res, x);
    }

    method GetCore(sip: Bits, dip: Bits, sp: Bits, dp: Bits, queues: nat) returns (core: nat)
      requires Valid() && TupleOk(sip, dip, sp, dp) && queues > 0
      modifies this, cache
      ensures Valid()
      ensures core == CoreOf(sip + dip + sp + dp, queues) && core < queues
      ensures core == CoreOf(dip + sip + dp + sp, queues)
    {
      hide KeyOk, TheKey, Window, Toeplitz;
      var hash := GetHash(sip, dip, sp, dp);
      var masked := Val(hash[25..]);
      ValBound(hash[25..], 7);
      assert Pow2(7) == 128;
      TableIsXor(hash[25..]);
      masked := (masked + Off(masked % 4)) % U32;
      BothDirections(sip, dip, sp, dp);
      core := masked % queues;
    }
  }

  lemma ToeplitzStart(x: Bits)
    ensures Toeplitz(TheKey(), x, 0) == Zeros(32)
  {
  }
}
