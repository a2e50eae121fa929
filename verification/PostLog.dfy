/** Storing POST bodies: the zero-copy log, where buffers are swapped off the receive
    ring, and the copying log, whose records the B+ tree indexes. */
module PasteLog {
  import opened PackedEntry

  const ENTRY: nat := 8

  /** A ring or extra slot. */
  datatype Slot = Slot(buf: U32, len: nat, changed: bool)

  function Bufs(s: seq<Slot>): (r: seq<U32>)
    ensures |r| == |s| && forall i :: 0 <= i < |s| ==> r[i] == s[i].buf
  {
    seq(|s|, i requires 0 <= i < |s| => s[i].buf)
  }

  /** What a POST was: the buffer it came in, and where its body lay. */
  datatype Logged = Logged(buf: U32, off: U16, len: U16)

  /** The POST whose buffer extra slot `i` holds, or a negative number. */
  ghost function Owner(posts: nat, cur: nat, extras: nat, i: nat): int {
    if i < cur then posts - cur + i else posts - cur - extras + i
  }

  /** Extra slot `i` holds the buffer of its POST, and log entry `i` names it. */
  ghost predicate Kept(done: seq<Logged>, cur: nat, extra: seq<Slot>, words: seq<nat>, i: nat)
    requires i < |extra| <= |words| && cur <= |extra|
  {
    var t := Owner(|done|, cur, |extra|, i);
    0 <= t ==> t < |done| && extra[i].buf == done[t].buf && words[i] == Pack(done[t].buf, done[t].off, done[t].len)
  }

  lemma KeptAfter(done: seq<Logged>, cur: nat, extra: seq<Slot>, words: seq<nat>, xi: nat, slot: Slot, p: Logged, i: nat)
    requires i < |extra| <= |words| && cur <= |extra| && Kept(done, cur, extra, words, i)
    requires |done| < |extra| ==> cur == |done|
    requires xi == (if cur == |extra| then 0 else cur) && slot.buf == p.buf
    ensures Kept(done + [p], xi + 1, extra[xi := slot], words[xi := Pack(p.buf, p.off, p.len)], i)
  {
    hide Pack;
  }

  class Log {
    var slots: seq<Slot>       // receive ring
    var extra: seq<Slot>       // private buffers
    var extraCur: nat
    var cur: nat               // position in the log, in bytes
    var words: seq<nat>        // the log, as 64-bit words
    ghost var done: seq<Logged>

    ghost predicate Valid()
      reads this
    {
      && 0 < |extra| <= |words|
      && extraCur <= |extra| && extraCur <= |done| && (|done| < |extra| ==> extraCur == |done|)
      && cur == ENTRY * extraCur
      && forall i :: 0 <= i < |extra| ==> Kept(done, extraCur, extra, words, i)
    }

    /** The extra slot whose turn it is. */
    ghost function Turn(): nat
      reads this
    {
      if extraCur == |extra| then 0 else extraCur
    }

    /** All buffers of the ring and of the extra array, with multiplicity. */
    ghost function Buffers(): multiset<U32>
      reads this
    {
      multiset(Bufs(slots)) + multiset(Bufs(extra))
    }

    constructor (ring: seq<Slot>, spare: seq<Slot>, size: nat)
      requires 0 < |spare| && ENTRY * |spare| <= size
      ensures Valid() && slots == ring && extra == spare && done == []
      ensures |words| == size / ENTRY && extraCur == 0 && cur == 0
    {
      slots, extra, extraCur, cur, done := ring, spare, 0, 0, [];
      words := seq(size / ENTRY, _ => 0);
    }

    /** netmap_extra_next with wrap. */
    method ExtraNext() returns (xi: nat)
      requires Valid()
      modifies this`extraCur, this`cur
      ensures xi < |extra| && extraCur == xi + 1 && cur == ENTRY * xi
      ensures xi == if old(extraCur) == |extra| then 0 else old(extraCur)
    {
      xi := extraCur;
      if xi == |extra| {
        xi, extraCur, cur := 0, 0, 0;
      }
      extraCur := extraCur + 1;
    }

    /** nmidx_wal: appends an entry, starting over when no room is left. */
    method AppendEntry(buf: U32, off: U16, len: U16)
      requires cur % ENTRY == 0 && cur <= ENTRY * |words| && 0 < |words|
      modifies this`words, this`cur
      ensures var at := if old(cur) == ENTRY * |old(words)| then 0 else old(cur) / ENTRY;
        && words == old(words)[at := Pack(buf, off, len)]
        && cur == ENTRY * (at + 1)
    {
      if ENTRY > ENTRY * |words| - cur { cur := 0; }
      words := words[cur / ENTRY := Pack(buf, off, len)];
      cur := cur + ENTRY;
    }

    /** A POST whose body stays where it was received: log it, and swap its buffer with
        the next extra one. */
    method Post(s: nat, off: U16, len: U16)
      requires Valid() && s < |slots|
      modifies this
      ensures Valid() && |extra| == |old(extra)| && |slots| == |old(slots)|
      ensures done == old(done) + [Logged(old(slots)[s].buf, off, len)]
      ensures Buffers() == old(Buffers())
      ensures forall i :: 0 <= i < |slots| && i != s ==> slots[i] == old(slots)[i]
      ensures slots[s].len == old(slots)[s].len && slots[s].changed && slots[s].buf == old(extra)[old(Turn())].buf
      ensures extra[old(Turn())] == old(slots)[s].(changed := false)
      ensures forall i :: 0 <= i < |extra| && i != old(Turn()) ==> extra[i] == old(extra)[i]
      ensures |words| == |old(words)| && forall i :: 0 <= i < |words| && i != old(Turn()) ==> words[i] == old(words)[i]
    {
      hide Pack, Kept, Bufs;
      ghost var slots0, extra0, words0, done0, cur0 := slots, extra, words, done, extraCur;
      var xi := ExtraNext();
      AppendEntry(slots[s].buf, off, len);
      ghost var p := Logged(slots[s].buf, off, len);
      done := done + [p];
      var tmp := slots[s];
      slots := slots[s := slots[s].(buf := extra[xi].buf, changed := true)];
      extra := extra[xi := tmp.(changed := false)];
      Swapped(slots0, extra0, s, xi, slots, extra);
      forall i | 0 <= i < |extra| ensures Kept(done, extraCur, extra, words, i) {
        KeptAfter(done0, cur0, extra0, words0, xi, extra[xi], p, i);
      }
    }

    /** Extra slot and log entry `i` are those of POST `t`; the entry gives back its offset
        and length always, and its buffer exactly for offsets below 2^15. */
    ghost predicate Names(i: nat, t: nat)
      reads this
      requires i < |extra| <= |words| && t < |done|
    {
      && Owner(|done|, extraCur, |extra|, i) == t && extra[i].buf == done[t].buf
      && Len(words[i]) == done[t].len && Offset(words[i]) == done[t].off
      && (Idx(words[i]) == done[t].buf <==> done[t].off < 0x8000 || done[t].buf == TWO32 - 1)
    }

    /** While no buffer occurs twice, a logged buffer stays off the ring, named by its log
        entry, until as many further POSTs came as there are extra buffers. */
    lemma StaysOffRing(t: nat)
      requires Valid() && forall b :: b in Buffers() ==> Buffers()[b] == 1
      requires t < |done| <= t + |extra|
      ensures done[t].buf !in Bufs(slots)
      ensures exists i :: 0 <= i < |extra| && Names(i, t)
    {
      var k := |done| - t;
      var i := if k <= extraCur then extraCur - k else extraCur + |extra| - k;
      assert Owner(|done|, extraCur, |extra|, i) == t && Kept(done, extraCur, extra, words, i);
      PackUnpack(done[t].buf, done[t].off, done[t].len);
      var b := done[t].buf;
      assert Bufs(extra)[i] == b;
      assert b in multiset(Bufs(extra));
      assert Buffers()[b] == multiset(Bufs(slots))[b] + multiset(Bufs(extra))[b];
      assert Names(i, t);
    }
  }

  lemma Swapped(a: seq<Slot>, b: seq<Slot>, i: nat, j: nat, a': seq<Slot>, b': seq<Slot>)
    requires i < |a| && j < |b|
    requires a' == a[i := a[i].(buf := b[j].buf, changed := true)] && b' == b[j := a[i].(changed := false)]
    ensures multiset(Bufs(a')) + multiset(Bufs(b')) == multiset(Bufs(a)) + multiset(Bufs(b))
  {
    assert Bufs(a') == Bufs(a)[i := Bufs(b)[j]] && Bufs(b') == Bufs(b)[j := Bufs(a)[i]];
  }
}
