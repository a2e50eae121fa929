/** Linear buffers with a moving data pointer, and framing of one buffer's bytes into another. */
module RepFraming {
  newtype byte = x: int | 0 <= x < 256

  const MAX_REP_LEN := 10 * 1024

  /** The bytes of a header of type 0x01, command 0x00 and the given length. */
  type Header = nat -> seq<byte>

  ghost predicate HeaderSize(hdr: Header, h: nat) {
    forall n :: |hdr(n)| == h
  }

  function Concat(ps: seq<seq<byte>>): (r: seq<byte>) {
    if ps == [] then [] else Concat(ps[..|ps| - 1]) + ps[|ps| - 1]
  }

  /** Header, payload, header, payload, ... */
  function Framed(hdr: Header, ps: seq<seq<byte>>): (r: seq<byte>) {
    if ps == [] then []
    else Framed(hdr, ps[..|ps| - 1]) + hdr(|ps[|ps| - 1]|) + ps[|ps| - 1]
  }

  ghost predicate PayloadsOk(ps: seq<seq<byte>>) {
    forall i :: 0 <= i < |ps| ==> 1 <= |ps[i]| <= MAX_REP_LEN
  }

  lemma Appended(hdr: Header, ps: seq<seq<byte>>, p: seq<byte>)
    ensures Concat(ps + [p]) == Concat(ps) + p
    ensures Framed(hdr, ps + [p]) == Framed(hdr, ps) + hdr(|p|) + p
  {
    assert (ps + [p])[..|ps|] == ps;
  }

  lemma Regroup(u: seq<byte>, v: seq<byte>, x: seq<byte>, y: seq<byte>, z: seq<byte>)
    ensures u + v + x + y + z == u + v + (x + y + z)
  {
  }

  lemma {:induction false} FramedFirst(hdr: Header, ps: seq<seq<byte>>)
    requires ps != []
    ensures Framed(hdr, ps) == hdr(|ps[0]|) + ps[0] + Framed(hdr, ps[1..])
  {
    var n := |ps| - 1;
    if n == 0 {
      assert ps[..0] == [] && ps[1..] == [];
      assert Framed(hdr, ps[..0]) == [] && Framed(hdr, ps[1..]) == [];
    } else {
      var a, l := ps[..n], ps[n];
      FramedFirst(hdr, a);
      assert a[1..] == ps[1..][..n - 1] && a[0] == ps[0] && ps[1..][n - 1] == l;
      Regroup(hdr(|ps[0]|), ps[0], Framed(hdr, a[1..]), hdr(|l|), l);
    }
  }

  lemma {:induction false} ConcatFirst(ps: seq<seq<byte>>)
    requires ps != []
    ensures Concat(ps) == ps[0] + Concat(ps[1..])
  {
    var n := |ps| - 1;
    if n == 0 {
      assert ps[..0] == [] && ps[1..] == [];
    } else {
      var a, l := ps[..n], ps[n];
      ConcatFirst(a);
      assert a[1..] == ps[1..][..n - 1] && a[0] == ps[0] && ps[1..][n - 1] == l;
      assert ps[0] + Concat(a[1..]) + l == ps[0] + (Concat(a[1..]) + l);
    }
  }

  /** What a reader of the frames gets, given how it reads a length from a header. */
  function Unframed(dec: seq<byte> -> nat, h: nat, s: seq<byte>): (r: seq<byte>)
    decreases |s|
  {
    if |s| <= h then []
    else var n := dec(s[..h]);
      if n == 0 || h + n > |s| then [] else s[h..h + n] + Unframed(dec, h, s[h + n..])
  }

  /** Frames read back as the bytes they were cut from. */
  lemma {:induction false} FramesReadBack(hdr: Header, dec: seq<byte> -> nat, h: nat, ps: seq<seq<byte>>)
    requires HeaderSize(hdr, h) && PayloadsOk(ps)
    requires forall n :: 1 <= n <= MAX_REP_LEN ==> dec(hdr(n)) == n
    ensures Unframed(dec, h, Framed(hdr, ps)) == Concat(ps)
  {
    if ps != [] {
      FramedFirst(hdr, ps);
      ConcatFirst(ps);
      var s, p, t := Framed(hdr, ps), ps[0], Framed(hdr, ps[1..]);
      assert s[..h] == hdr(|p|) && s[h..h + |p|] == p && s[h + |p|..] == t;
      FramesReadBack(hdr, dec, h, ps[1..]);
    }
  }

  /** `sum` bytes of `all` went into the frames `ps` behind `mine`: what both buffers hold. */
  ghost predicate Moved(hdr: Header, mine: seq<byte>, all: seq<byte>, ps: seq<seq<byte>>, sum: nat,
                        dest: seq<byte>, src: seq<byte>)
  {
    && PayloadsOk(ps)
    && sum <= |all|
    && dest == mine + Framed(hdr, ps)
    && Concat(ps) == all[..sum]
    && src == all[sum..]
  }

  lemma MovedNone(hdr: Header, mine: seq<byte>, all: seq<byte>)
    ensures Moved(hdr, mine, all, [], 0, mine, all)
    ensures Framed(hdr, []) == []
  {
  }

  lemma MovedFacts(hdr: Header, mine: seq<byte>, all: seq<byte>, ps: seq<seq<byte>>, sum: nat,
                   dest: seq<byte>, src: seq<byte>)
    requires Moved(hdr, mine, all, ps, sum, dest, src)
    ensures PayloadsOk(ps) && sum <= |all| && |src| == |all| - sum
    ensures dest == mine + Framed(hdr, ps) && Concat(ps) == all[..sum] && src == all[sum..]
  {
  }

  lemma HeaderIs(hdr: Header, h: nat, n: nat)
    requires HeaderSize(hdr, h)
    ensures |hdr(n)| == h
  {
  }

  lemma MovedStep(hdr: Header, mine: seq<byte>, all: seq<byte>, ps: seq<seq<byte>>, sum: nat,
                  dest: seq<byte>, src: seq<byte>, n: nat)
    requires Moved(hdr, mine, all, ps, sum, dest, src)
    requires 1 <= n <= MAX_REP_LEN && sum + n <= |all|
    ensures src[..n] == all[sum..sum + n]
    ensures Moved(hdr, mine, all, ps + [all[sum..sum + n]], sum + n, dest + hdr(n) + src[..n], src[n..])
    ensures |Framed(hdr, ps + [all[sum..sum + n]])| == |Framed(hdr, ps)| + |hdr(n)| + n
  {
    hide Framed, Concat;
    var p := all[sum..sum + n];
    assert src[..n] == p && src[n..] == all[sum + n..] && all[..sum + n] == all[..sum] + p;
    Appended(hdr, ps, p);
    Regroup(mine, [], Framed(hdr, ps), hdr(n), p);
  }

  lemma Behind(s: seq<byte>, a: nat, b: nat, n: nat)
    requires a + n <= b <= |s|
    ensures s[a..b][n..] == s[a + n..b]
    ensures a + n == b ==> s[a..b][n..] == []
  {
  }

  class RingBuffer {
    const buf: array<byte>
    var offset: nat
    var dataSize: nat
    var cumSize: nat

    ghost predicate Valid()
      reads this
    {
      && buf.Length > 0
      && offset + dataSize <= buf.Length
      && (dataSize == 0 ==> offset == 0)
    }

    ghost function Contents(): (s: seq<byte>)
      reads this, buf
      requires Valid()
    {
      buf[offset..offset + dataSize]
    }

    lemma Length()
      requires Valid()
      ensures |Contents()| == dataSize
    {
    }

    /** Space behind the data. */
    ghost function Space(): (n: int)
      reads this
    {
      buf.Length - offset - dataSize
    }

    constructor (size: nat)
      requires size > 0
      ensures Valid() && fresh(buf) && buf.Length == size
      ensures Contents() == [] && cumSize == 0
    {
      buf := new byte[size];
      offset, dataSize, cumSize := 0, 0, 0;
    }

    /** The space behind the data, after moving the data to the front if it starts in the
        second half. */
    method GetRemain() returns (n: nat)
      requires Valid()
      modifies this`offset, buf
      ensures Valid() && Contents() == old(Contents())
      ensures n == Space()
      ensures n >= old(Space())
      ensures offset == if old(offset) > buf.Length / 2 then 0 else old(offset)
    {
      if offset > buf.Length / 2 {
        forall i | 0 <= i < dataSize {
          buf[i] := buf[offset + i];
        }
        offset := 0;
        return buf.Length - dataSize;
      }
      return buf.Length - dataSize - offset;
    }

    method RemoveData(n: int) returns (r: int)
      requires Valid()
      modifies this`offset, this`dataSize
      ensures Valid()
      ensures r == if 0 <= n <= |old(Contents())| then n else -1
      ensures Contents() == if r >= 0 then old(Contents())[n..] else old(Contents())
    {
      if n < 0 { return -1; }
      if n > dataSize { return -1; }
      Behind(buf[..], offset, offset + dataSize, n);
      dataSize := dataSize - n;
      if dataSize == 0 {
        offset := 0;
      } else {
        offset := offset + n;
      }
      return n;
    }

    /** The first bytes of the data. */
    method Front(n: nat) returns (s: seq<byte>)
      requires Valid() && n <= dataSize
      ensures n <= |Contents()| && s == Contents()[..n]
    {
      s := buf[offset..offset + n];
    }

    /** Bytes copied behind the data, then counted by AddDataLen. */
    method Append(s: seq<byte>) returns (r: nat)
      requires Valid() && |s| <= Space()
      modifies this`dataSize, this`cumSize, buf
      ensures Valid() && Contents() == old(Contents()) + s
      ensures Space() == old(Space()) - |s| && cumSize == old(cumSize) + |s|
      ensures r == |Contents()|
    {
      var at := offset + dataSize;
      forall i | 0 <= i < |s| {
        buf[at + i] := s[i];
      }
      dataSize := dataSize + |s|;
      cumSize := cumSize + |s|;
      return dataSize;
    }

    method CopyData(src: RingBuffer, len: nat) returns (n: nat)
      requires Valid() && src.Valid() && src != this && src.buf != buf
      modifies this, buf
      ensures Valid() && src.Valid()
      ensures src.Contents() == old(src.Contents()) && n <= len && n <= |src.Contents()|
      ensures Contents() == old(Contents()) + src.Contents()[..n]
      ensures n == len || n == |src.Contents()| || Space() == 0
    {
      hide Contents;
      src.Length();
      ghost var theirs, mine := src.Contents(), Contents();
      assert mine + theirs[..0] == mine;
      var room := GetRemain();
      if room <= 0 { return 0; }
      n := if room < len then room else len;
      n := if src.dataSize < n then src.dataSize else n;
      var front := src.Front(n);
      var x := Append(front);
    }

    /** One frame: header, then `n` bytes taken from the front of `src`. */
    method MoveFrame(src: RingBuffer, n: nat, hdr: Header)
      requires Valid() && src.Valid() && src != this && src.buf != buf
      requires n <= |src.Contents()| && |hdr(n)| + n <= Space()
      modifies this`dataSize, this`cumSize, buf, src`offset, src`dataSize
      ensures Valid() && src.Valid()
      ensures Contents() == old(Contents()) + hdr(n) + old(src.Contents())[..n]
      ensures src.Contents() == old(src.Contents())[n..]
      ensures Space() == old(Space()) - |hdr(n)| - n && cumSize == old(cumSize) + |hdr(n)| + n
    {
      hide Contents;
      src.Length();
      var payload := src.Front(n);
      var a := Append(hdr(n));
      var b := Append(payload);
      var r := src.RemoveData(n);
      assert r == n;
    }

    /** MoveToREPData: as many bytes as asked for and as fit go from `src` into frames. */
    method MoveToRep(src: RingBuffer, len: int, hdr: Header, h: nat) returns (sum: nat, ghost ps: seq<seq<byte>>)
      requires Valid() && src.Valid() && src != this && src.buf != buf
      requires HeaderSize(hdr, h)
      modifies this, buf, src
      ensures Valid() && src.Valid()
      ensures PayloadsOk(ps)
      ensures Contents() == old(Contents()) + Framed(hdr, ps)
      ensures sum <= |old(src.Contents())| && (len > 0 ==> sum <= len)
      ensures Concat(ps) == old(src.Contents())[..sum] && src.Contents() == old(src.Contents())[sum..]
      ensures cumSize == old(cumSize) + |Framed(hdr, ps)|
      ensures sum == |old(src.Contents())| || sum == len || Space() <= h
    {
      hide Framed, Concat, PayloadsOk, Moved, HeaderSize, Contents;
      src.Length();
      sum := 0;
      ps := [];
      var dataSz: nat := src.dataSize;
      ghost var all := src.Contents();
      var remain: nat := GetRemain();
      if len > 0 && len < dataSz { dataSz := len; }
      ghost var want := dataSz;
      ghost var mine := old(Contents());
      MovedNone(hdr, mine, all);
      while dataSz > 0 && remain > h
        invariant Valid() && src.Valid()
        invariant sum + dataSz == want <= |all|
        invariant remain == Space()
        invariant Moved(hdr, mine, all, ps, sum, Contents(), src.Contents())
        invariant cumSize == old(cumSize) + |Framed(hdr, ps)|
      {
        var toMove := if dataSz < remain - h then dataSz else remain - h;
        toMove := if toMove < MAX_REP_LEN then toMove else MAX_REP_LEN;
        remain := remain - h;
        remain := remain - toMove;
        dataSz := dataSz - toMove;
        HeaderIs(hdr, h, toMove);
        MovedFacts(hdr, mine, all, ps, sum, Contents(), src.Contents());
        MovedStep(hdr, mine, all, ps, sum, Contents(), src.Contents(), toMove);
        MoveFrame(src, toMove, hdr);
        ps := ps + [all[sum..sum + toMove]];
        sum := sum + toMove;
      }
      MovedFacts(hdr, mine, all, ps, sum, Contents(), src.Contents());
    }
  }
}
