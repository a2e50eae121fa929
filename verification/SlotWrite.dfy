/** Writing a message into consecutive netmap slots behind an application header. */
module SlotWrite {
  newtype byte = x: int | 0 <= x < 256

  const MTU := 1520
  const OFF := 66
  const U32 := 0x1_0000_0000
  const I32_MAX := 0x7fff_ffff

  /** A slot and the buffer it owns. */
  datatype Slot = Slot(body: seq<byte>, len: nat, doff: nat, fd: int)

  /** A 32-bit word read as a signed integer. */
  function Signed(x: nat): (r: int) {
    if x % U32 <= I32_MAX then x % U32 else x % U32 - U32
  }

  /** Bytes the next slot takes of `left`. */
  function Chunk(left: nat, off0: nat): (r: int) {
    if left > Signed((MTU - off0) % U32) then Signed((MTU - off0) % U32) else left
  }

  /** A slot's share is a proper length exactly when the header fits in a slot. */
  lemma ChunkProper(left: nat, off0: nat)
    requires 0 < left <= I32_MAX && off0 < U32
    ensures 0 <= Chunk(left, off0) && off0 + Chunk(left, off0) <= MTU <==> off0 <= MTU
  {
  }

  /** A header of 1521 bytes, one more than a slot holds: the first slot's share of a message
      of 100 bytes is -1, although with two free slots the space test admits it. */
  lemma ChunkNegative()
    ensures SpaceTest(2, 1521, 100) && Chunk(100, 1521) == -1
  {
  }

  /** space_bytes, in 32-bit arithmetic. */
  function SpaceBytes(space: nat, off0: nat): (r: nat) {
    ((MTU - OFF) * space - off0) % U32
  }

  predicate SpaceTest(space: nat, off0: nat, len: nat) {
    space > 0 && SpaceBytes(space, off0) >= len
  }

  /** What `space` slots hold behind a header of `off0` bytes. */
  function Room(space: nat, off0: nat): (r: int) {
    MTU * space - off0
  }

  lemma {:induction false} ModSmaller(t: nat)
    ensures t % U32 <= t
  {
  }

  /** The space test guarantees room for every message it admits exactly when it does not
      wrap around, that is, when the header fits in what the test counts. */
  lemma SpaceTestExact(space: nat, off0: nat)
    requires space > 0 && off0 <= MTU
    ensures (forall len: nat :: SpaceTest(space, off0, len) ==> len <= Room(space, off0))
      <==> off0 <= (MTU - OFF) * space
  {
    if off0 <= (MTU - OFF) * space {
      ModSmaller((MTU - OFF) * space - off0);
    } else {
      assert space == 1;
      assert SpaceTest(space, off0, 100);
    }
  }

  /** Where it does not wrap around, it admits exactly the messages that fit, with the header,
      in the MTU - OFF bytes it counts for each slot: the last such byte too. */
  lemma SpaceTestAdmits(space: nat, off0: nat, len: nat)
    requires off0 <= (MTU - OFF) * space < U32
    ensures SpaceTest(space, off0, len) <==> space > 0 && off0 + len <= (MTU - OFF) * space
  {
    ModSame((MTU - OFF) * space - off0);
  }

  lemma ModSame(t: nat)
    requires t < U32
    ensures t % U32 == t
  {
  }

  /** A header of 1455 bytes in a ring with one free slot: 1000 bytes are admitted, 65 fit. */
  lemma SpaceTestWraps()
    ensures SpaceTest(1, 1455, 1000) && Room(1, 1455) == 65
  {
  }

  /** The index of the `k`-th slot from `c` on. */
  function At(c: nat, k: nat, n: nat): (r: nat)
    requires c < n && k <= n
    ensures r < n
  {
    if c + k < n then c + k else c + k - n
  }

  lemma AtDistinct(c: nat, j: nat, k: nat, n: nat)
    requires c < n && j < n && k < n && j != k
    ensures At(c, j, n) != At(c, k, n)
  {
  }

  function Skip(k: nat, off0: nat): (r: nat) {
    OFF + if k == 0 then off0 else 0
  }

  predicate SlotOk(s: Slot, k: nat, off0: nat, fd: int) {
    && Skip(k, off0) <= s.len <= OFF + MTU
    && s.len <= |s.body|
    && s.doff == OFF
    && s.fd == fd
  }

  /** The payloads of the first `k` slots from `c` on, in order. */
  function Carried(ss: seq<Slot>, c: nat, k: nat, off0: nat): (r: seq<byte>)
    requires c < |ss| && k <= |ss|
  {
    if k == 0 then []
    else
      var s := ss[At(c, k - 1, |ss|)];
      Carried(ss, c, k - 1, off0)
      + if Skip(k - 1, off0) <= s.len <= |s.body| then s.body[Skip(k - 1, off0)..s.len] else []
  }

  lemma {:induction false} CarriedFrame(ss: seq<Slot>, tt: seq<Slot>, c: nat, k: nat, off0: nat)
    requires |ss| == |tt| && c < |ss| && k <= |ss|
    requires forall j :: 0 <= j < k ==> ss[At(c, j, |ss|)] == tt[At(c, j, |ss|)]
    ensures Carried(ss, c, k, off0) == Carried(tt, c, k, off0)
  {
    if k > 0 {
      assert ss[At(c, k - 1, |ss|)] == tt[At(c, k - 1, |ss|)];
      CarriedFrame(ss, tt, c, k - 1, off0);
    }
  }

  ghost predicate BodiesOk(ss: seq<Slot>) {
    forall i :: 0 <= i < |ss| ==> |ss[i].body| >= OFF + MTU
  }

  /** The state after `k` slots were written with the first `copied` bytes. */
  ghost predicate Written(was: seq<Slot>, ss: seq<Slot>, c: nat, k: nat, off0: nat, fd: int,
                          data: seq<byte>, hasData: bool, copied: nat)
  {
    && c < |ss| && k < |ss| && |ss| == |was|
    && BodiesOk(ss)
    && |Carried(ss, c, k, off0)| == copied
    && (hasData ==> copied <= |data| && Carried(ss, c, k, off0) == data[..copied])
    && (forall j :: 0 <= j < k ==> SlotOk(ss[At(c, j, |ss|)], j, off0, fd))
    && (forall j :: k <= j < |ss| ==> ss[At(c, j, |ss|)] == was[At(c, j, |ss|)])
    && (forall j :: 0 <= j < k ==> HeadKept(was[At(c, j, |ss|)], ss[At(c, j, |ss|)], Skip(j, off0)))
  }

  /** The bytes before the payload are the ones that were there. */
  ghost predicate HeadKept(was: Slot, s: Slot, n: nat) {
    |s.body| == |was.body| && n <= |s.body| && s.body[..n] == was.body[..n]
  }

  /** The slot after `l` bytes went in behind `n`. */
  function Put(s: Slot, n: nat, chunk: seq<byte>, hasData: bool, l: nat, fd: int): (r: Slot)
    requires n + l <= |s.body| && |chunk| == l
  {
    Slot(if hasData then s.body[..n] + chunk + s.body[n + l..] else s.body, n + l, OFF, fd)
  }

  lemma PutFacts(s: Slot, n: nat, chunk: seq<byte>, hasData: bool, l: nat, fd: int)
    requires n + l <= |s.body| && |chunk| == l
    ensures var t := Put(s, n, chunk, hasData, l, fd);
      && HeadKept(s, t, n) && t.len == n + l && t.doff == OFF && t.fd == fd
      && (hasData ==> t.body[n..t.len] == chunk)
  {
  }

  lemma WrittenStep(was: seq<Slot>, ss: seq<Slot>, c: nat, k: nat, off0: nat, fd: int,
                    data: seq<byte>, hasData: bool, copied: nat, l: nat, tt: seq<Slot>, chunk: seq<byte>)
    requires Written(was, ss, c, k, off0, fd, data, hasData, copied) && k + 1 < |ss|
    requires off0 <= MTU && Skip(k, off0) + l <= OFF + MTU
    requires |chunk| == l && (hasData ==> copied + l <= |data| && chunk == data[copied..copied + l])
    requires BodiesOk(ss)
    requires tt == ss[At(c, k, |ss|) := Put(ss[At(c, k, |ss|)], Skip(k, off0), chunk, hasData, l, fd)]
    ensures Written(was, tt, c, k + 1, off0, fd, data, hasData, copied + l)
  {
    hide Put, At;
    var n := |ss|;
    var i := At(c, k, n);
    PutFacts(ss[i], Skip(k, off0), chunk, hasData, l, fd);
    forall j | 0 <= j < n && j != k ensures tt[At(c, j, n)] == ss[At(c, j, n)] { AtDistinct(c, j, k, n); }
    CarriedFrame(ss, tt, c, k, off0);
    assert Carried(tt, c, k + 1, off0) == Carried(ss, c, k, off0) + tt[i].body[Skip(k, off0)..tt[i].len];
    if hasData {
      assert data[..copied + l] == data[..copied] + chunk;
    }
  }

  class Ring {
    const slots: array<Slot>
    var cur: nat
    var head: nat
    var tail: nat

    ghost predicate Valid()
      reads this, slots
    {
      cur < slots.Length && tail < slots.Length && BodiesOk(slots[..])
    }

    function Space(): (r: nat)
      reads this
      requires cur < slots.Length && tail < slots.Length
    {
      if tail < cur then tail - cur + slots.Length else tail - cur
    }

    constructor (buffers: seq<seq<byte>>)
      requires |buffers| > 0 && forall i :: 0 <= i < |buffers| ==> |buffers[i]| >= OFF + MTU
      ensures Valid() && fresh(slots) && slots.Length == |buffers| && Space() == |buffers| - 1
    {
      slots := new Slot[|buffers|](i requires 0 <= i < |buffers| => Slot(buffers[i], 0, 0, -1));
      cur, head, tail := 0, 0, |buffers| - 1;
    }

    /** The loop body of nm_write: `l` bytes into slot `c`, the `k`-th from `c0` on. */
    method FillSlot(c: nat, skip: nat, data: seq<byte>, hasData: bool, done: nat, l: nat, fd: int,
                    ghost was: seq<Slot>, ghost c0: nat, ghost k: nat, ghost off0: nat)
      requires Written(was, slots[..], c0, k, off0, fd, data, hasData, done) && k + 1 < slots.Length
      requires c0 < slots.Length && c == At(c0, k, slots.Length) && OFF + skip == Skip(k, off0)
      requires off0 <= MTU && skip + l <= MTU && (hasData ==> done + l <= |data|)
      modifies slots
      ensures Written(was, slots[..], c0, k + 1, off0, fd, data, hasData, done + l)
    {
      hide Written, BodiesOk, Put, At;
      ghost var ss := slots[..];
      WrittenFacts(was, ss, c0, k, off0, fd, data, hasData, done, c);
      var chunk := if hasData then data[done..done + l] else seq(l, i => 0);
      slots[c] := Put(slots[c], OFF + skip, chunk, hasData, l, fd);
      assert slots[..] == ss[c := Put(ss[c], Skip(k, off0), chunk, hasData, l, fd)];
      WrittenStep(was, ss, c0, k, off0, fd, data, hasData, done, l, slots[..], chunk);
    }

    /** nm_write. `used` slots carry `copied` bytes; a null `data` leaves the buffers alone.
        `wild` says that a slot was given an improper share (see ChunkProper), which happens
        exactly when a message comes with a header longer than a slot. */
    method Write(data: seq<byte>, hasData: bool, len: nat, off0: nat, fd: int)
      returns (r: int, wild: bool, ghost used: nat, ghost copied: nat)
      requires Valid() && off0 < U32 && len <= I32_MAX && (hasData ==> |data| == len)
      modifies this`cur, this`head, slots
      ensures Valid()
      ensures r == if SpaceTest(old(Space()), off0, len) then len else -1
      ensures r < 0 ==> slots[..] == old(slots[..]) && cur == old(cur) && head == old(head)
      ensures wild <==> r > 0 && off0 > MTU
      ensures r >= 0 && !wild ==>
        && used <= old(Space())
        && cur == head == At(old(cur), used, slots.Length)
        && Written(old(slots[..]), slots[..], old(cur), used, off0, fd, data, hasData, copied)
        && (off0 <= MTU ==> copied == if len <= Room(old(Space()), off0) then len else Room(old(Space()), off0))
      ensures r >= 0 && !wild && off0 <= (MTU - OFF) * old(Space()) ==> copied == len
    {
      hide Written, SpaceTest, BodiesOk, Chunk, Put;
      used, copied, wild := 0, 0, false;
      var space := Space();
      if !SpaceTest(space, off0, len) {
        return -1, false, 0, 0;
      }
      if len > 0 && off0 > MTU {
        return len, true, 0, 0;
      }
      SpaceTestFacts(space, off0, len);
      var c, done, skip := cur, 0, off0;
      ghost var c0, was, n := cur, slots[..], slots.Length;
      WrittenNone(was, c0, off0, fd, data, hasData);
      while c != tail && done < len
        invariant used <= space && c == At(c0, used, n)
        invariant copied == done <= len
        invariant skip == if used == 0 then off0 else 0
        invariant used == 0 ==> done == 0
        invariant used > 0 ==> off0 <= MTU && done == if len <= Room(used, off0) then len else Room(used, off0)
        invariant Written(was, slots[..], c0, used, off0, fd, data, hasData, done)
        decreases space - used
      {
        ChunkIs(len - done, skip);
        var l := Chunk(len - done, skip);
        FillSlot(c, skip, data, hasData, done, l, fd, was, c0, used, off0);
        done := done + l;
        skip := 0;
        c := if c + 1 == slots.Length then 0 else c + 1;
        used := used + 1;
        copied := done;
      }
      cur, head := c, c;
      WrittenBodies(was, slots[..], c0, used, off0, fd, data, hasData, done);
      return len, false, used, copied;
    }
  }

  lemma SpaceTestFacts(space: nat, off0: nat, len: nat)
    requires SpaceTest(space, off0, len)
    ensures space > 0
    ensures off0 <= (MTU - OFF) * space ==> len <= Room(space, off0)
  {
    if off0 <= (MTU - OFF) * space { ModSmaller((MTU - OFF) * space - off0); }
  }

  lemma ChunkIs(left: nat, off0: nat)
    requires 0 < left <= I32_MAX && off0 <= MTU
    ensures Chunk(left, off0) == if left > MTU - off0 then MTU - off0 else left
  {
  }

  lemma WrittenNone(was: seq<Slot>, c: nat, off0: nat, fd: int, data: seq<byte>, hasData: bool)
    requires c < |was| && BodiesOk(was)
    ensures Written(was, was, c, 0, off0, fd, data, hasData, 0)
  {
  }

  lemma WrittenFacts(was: seq<Slot>, ss: seq<Slot>, c: nat, k: nat, off0: nat, fd: int,
                     data: seq<byte>, hasData: bool, copied: nat, i: nat)
    requires Written(was, ss, c, k, off0, fd, data, hasData, copied) && i < |ss|
    ensures |ss[i].body| >= OFF + MTU && BodiesOk(ss) && k < |ss|
  {
  }

  lemma WrittenBodies(was: seq<Slot>, ss: seq<Slot>, c: nat, k: nat, off0: nat, fd: int,
                      data: seq<byte>, hasData: bool, copied: nat)
    requires Written(was, ss, c, k, off0, fd, data, hasData, copied)
    ensures BodiesOk(ss)
  {
  }
}
