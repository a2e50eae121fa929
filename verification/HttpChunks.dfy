/** Chunked bodies: exact sizes, all data delivered, one completion at the last byte. */
module HttpChunks {
  import opened HttpMachine
  import opened HttpRuns
  import opened HttpDigits
  import opened HttpFastPath
  import opened HttpEnds
  import opened HttpExecute
  import opened HttpFraming
  import opened HttpHeads

  /** The parser in the middle of a chunked body, before a chunk size. */
  ghost predicate ExpectsChunk(p: Parser) {
    p.core.state.ChunkSizeStart? && p.core.errno.OK? && p.core.flags.chunked && !p.core.flags.trailing && p.nread == 0
  }

  lemma SizeDigit(q: Parser, x: Byte)
    requires q.core.errno.OK? && Unhex(x) >= 0 && (q.core.state.ChunkSizeStart? || q.core.state.ChunkSize?)
    ensures var n := if q.core.state.ChunkSize? then q.core.contentLength else 0;
      && (n <= (ULLONG_MAX - 16) / 16 ==>
           && Step(q, x) == Moved(q, q.core.(state := ChunkSize, reset := false, contentLength := n * 16 + Unhex(x)), 1)
           && n * 16 + Unhex(x) < ULLONG_MAX)
      && (n > (ULLONG_MAX - 16) / 16 ==> Step(q, x).core.errno.InvalidContentLength?)
  {
    hide Step;
    NonBulkStep(q, x);
  }

  /** A chunk size is exactly the value of its digits; longer numbers are refused. */
  lemma {:induction false} SizeExact(p: Parser, d: seq<Byte>)
    requires ExpectsChunk(p) && d != [] && AllHex(d)
    ensures FitsHex(d) ==>
      && Run(p, d) == Moved(p, p.core.(state := ChunkSize, reset := false, contentLength := HexVal(d)), |d|)
      && HexVal(d) < ULLONG_MAX
    ensures !FitsHex(d) ==> Run(p, d).core.errno.InvalidContentLength?
    decreases |d|
  {
    hide Step, Run, Unhex, HexVal, FitsHex;
    var a, x := d[..|d| - 1], d[|d| - 1];
    assert d == a + [x];
    RunLast(p, d);
    HexAppend(a, x);
    if |d| == 1 {
      RunNil(p);
      assert a == [] && d == [x];
      HexFits(d, x);
      SizeDigit(p, x);
    } else {
      SizeExact(p, a);
      var q := Run(p, a);
      HexFits(a, x);
      if FitsHex(a) {
        SizeDigit(q, x);
      } else {
        StoppedStep(q, x);
      }
    }
  }

  /** One more digit fits exactly when the value so far is below the limit. */
  lemma HexFits(n: seq<Byte>, x: Byte)
    requires n != []
    ensures FitsHex(n + [x]) <==> HexVal(n) <= (ULLONG_MAX - 16) / 16
    ensures !FitsHex(n) ==> !FitsHex(n + [x])
    ensures FitsHex([x])
  {
    hide HexVal;
    assert (n + [x])[..|n|] == n;
    var k := |n| - 1;
    assert n == n[..k] + [n[k]];
    HexAppend(n[..k], n[k]);
  }

  /** A chunk extension: anything but a carriage return, after a semicolon or a space. */
  predicate ExtOk(e: seq<Byte>) {
    e == [] || ((e[0] == ';' as int || e[0] == SP) && forall i :: 0 <= i < |e| ==> e[i] != CR)
  }

  function AfterExt(p: Parser, e: seq<Byte>): Parser {
    if e == [] then p else Moved(p, p.core.(state := ChunkParameters, reset := false), |e|)
  }

  /** An extension is skipped. */
  lemma {:induction false} ExtSkipped(p: Parser, e: seq<Byte>)
    requires p.core.state.ChunkSize? && p.core.errno.OK? && ExtOk(e)
    ensures Run(p, e) == AfterExt(p, e)
    decreases |e|
  {
    hide Step, Run;
    if e == [] {
      RunNil(p);
    } else {
      var a, x := e[..|e| - 1], e[|e| - 1];
      RunLast(p, e);
      if a == [] { RunNil(p); } else { ExtSkipped(p, a); }
      var q := Run(p, a);
      CoreStep(q, x, q.core.(state := ChunkParameters, reset := false));
    }
  }

  /** The line end after a chunk size. */
  lemma SizeLineEnds(p: Parser)
    requires (p.core.state.ChunkSize? || p.core.state.ChunkParameters?) && p.core.errno.OK?
    ensures Run(p, CRLF) ==
            p.(core := if p.core.contentLength == 0
                       then p.core.(state := FieldStart, reset := true, flags := p.core.flags.(trailing := true))
                       else p.core.(state := ChunkData, reset := true),
               nread := 0)
  {
    hide Step, Run;
    var q := Moved(p, p.core.(state := ChunkSizeAlmostDone, reset := false), 1);
    assert Step(p, CR) == q by { CoreStep(p, CR, q.core); }
    NonBulkStep(q, LF);
    RunSingle(p, CR);
    RunSingle(q, LF);
    RunTwo(p, [CR], [LF], q, Step(q, LF));
    assert CRLF == [CR] + [LF];
  }

  /** The line end after the data of a chunk. */
  lemma DataEnds(p: Parser)
    requires p.core.state.ChunkDataAlmostDone? && p.core.errno.OK?
    ensures Run(p, CRLF) == p.(core := p.core.(state := ChunkSizeStart, reset := true), nread := 0)
  {
    hide Step, Run;
    NonBulkStep(p, CR);
    var q := Step(p, CR);
    NonBulkStep(q, LF);
    RunSingle(p, CR);
    RunSingle(q, LF);
    RunTwo(p, [CR], [LF], q, Step(q, LF));
    assert CRLF == [CR] + [LF];
  }

  /** A chunk: any spelling of its size, an extension, and its data. */
  datatype Chunk = Chunk(size: seq<Byte>, ext: seq<Byte>, data: seq<Byte>)

  ghost predicate SizeOk(d: seq<Byte>, e: seq<Byte>, n: nat) {
    d != [] && AllHex(d) && FitsHex(d) && HexVal(d) == n && ExtOk(e)
  }

  ghost predicate ChunkOk(c: Chunk) { SizeOk(c.size, c.ext, |c.data|) && c.data != [] }

  function Encode(c: Chunk): seq<Byte> { c.size + c.ext + CRLF + c.data + CRLF }

  /** A chunk's first line: the size is read, the extension skipped. */
  lemma SizeLine(p: Parser, d: seq<Byte>, e: seq<Byte>, n: nat)
    requires ExpectsChunk(p) && SizeOk(d, e, n)
    ensures Run(p, d + e + CRLF) ==
            p.(core := if n == 0
                       then p.core.(contentLength := 0, state := FieldStart, reset := true,
                                    flags := p.core.flags.(trailing := true))
                       else p.core.(contentLength := n, state := ChunkData, reset := true),
               nread := 0)
  {
    hide Step, Run, HexVal, AllHex, ExtOk, FitsHex;
    SizeExact(p, d);
    var q := Run(p, d);
    ExtSkipped(q, e);
    var r := Run(q, e);
    SizeLineEnds(r);
    RunTwo(p, d, e, q, r);
    RunTwo(p, d + e, CRLF, r, Run(r, CRLF));
  }

  /** One chunk delivers its data and leaves the parser before the next chunk. */
  lemma ChunkParsed(p: Parser, c: Chunk)
    requires ExpectsChunk(p) && ChunkOk(c)
    ensures Run(p, Encode(c)) ==
            p.(core := p.core.(contentLength := 0, reset := true), body := p.body + c.data)
  {
    hide Step, Run, SizeOk;
    var n, l := |c.data|, c.size + c.ext + CRLF;
    SizeLine(p, c.size, c.ext, n);
    var q2 := Run(p, l);
    BodyRun(q2, c.data);
    var q3 := Run(q2, c.data);
    var q4 := q3.(core := q3.core.(state := ChunkSizeStart, reset := true), nread := 0);
    assert Run(q3, CRLF) == q4 by { DataEnds(q3); }
    RunTwo(p, l, c.data, q2, q3);
    RunTwo(p, l + c.data, CRLF, q3, q4);
  }

  // ---- trailer lines

  /** A trailer line: a name of token characters, and a value on one line. */
  datatype Line = Line(name: seq<Byte>, value: seq<Byte>)

  predicate LineOk(l: Line) {
    && l.name != [] && (forall i :: 0 <= i < |l.name| ==> Tok(l.name[i]) != 0)
    && forall i :: 0 <= i < |l.value| ==> l.value[i] != CR && l.value[i] != LF
  }

  function Spell(l: Line): seq<Byte> { l.name + [COLON] + l.value + CRLF }

  function SpellAll(ls: seq<Line>): (r: seq<Byte>) {
    if ls == [] then [] else Spell(ls[0]) + SpellAll(ls[1..])
  }

  /** The parser inside the trailer: nothing delivered or completed since `p`. */
  ghost predicate Trailing(p: Parser, q: Parser) {
    q.core.flags.trailing && q.body == p.body && q.core.completed == p.core.completed
  }

  lemma NameBegins(p: Parser, q: Parser, ch: Byte)
    requires q.core.errno.OK? && Trailing(p, q) && LineBegins(q.core.state) && Tok(ch) != 0
    ensures Step(q, ch).core.errno.OK? && Step(q, ch).core.state.Field? && Trailing(p, Step(q, ch))
  {
    hide Step, OnHeadersAlmostDone, OnValueStart, FinishHeader;
    NonBulkStep(q, ch);
    FinishKeeps(q.core.(reset := false));
  }

  lemma NameGoesOn(p: Parser, q: Parser, ch: Byte)
    requires q.core.errno.OK? && Trailing(p, q) && q.core.state.Field? && (Tok(ch) != 0 || ch == COLON)
    ensures var r := Step(q, ch);
      r.core.errno.OK? && Trailing(p, r) && (if ch == COLON then r.core.state.DiscardWs? else r.core.state.Field?)
  {
    hide Step, FieldState;
    FieldStep(q, ch);
  }

  lemma ValueGoesOn(p: Parser, q: Parser, ch: Byte)
    requires q.core.errno.OK? && Trailing(p, q) && InValue(q.core.state) && ch != CR && ch != LF
    ensures var r := Step(q, ch); r.core.errno.OK? ==> Trailing(p, r) && InValue(r.core.state)
  {
    hide Step, ValueByte;
    if q.core.state.Value? {
      ValueStep(q, ch);
      ValueTrails(q, ch);
    } else {
      BlanksGoOn(q, ch);
    }
  }

  lemma ValueTrails(q: Parser, ch: Byte)
    requires q.core.state.Value? && ch != CR && ch != LF
    ensures var r := ValueByte(q, ch);
      && r.body == q.body && r.core.state.Value? && r.core.completed == q.core.completed
      && r.core.flags.trailing == q.core.flags.trailing
  {
    hide Lower, ValueState, ValueIndex, TokenFlags, IsHeaderChar;
    TokenKeeps(q.core.hstate, q.core.flags, ch);
  }

  lemma TokenKeeps(h: HeaderState, f: Flags, ch: Byte)
    ensures TokenFlags(h, f, ch).trailing == f.trailing
  {
  }

  lemma BlanksGoOn(q: Parser, ch: Byte)
    requires q.core.errno.OK? && q.core.state.DiscardWs? && ch != CR && ch != LF
    ensures var r := Step(q, ch);
      && r.body == q.body && InValue(r.core.state) && r.core.completed == q.core.completed
      && r.core.flags.trailing == q.core.flags.trailing
  {
    hide Step, Lower, OnValueStart;
    NonBulkStep(q, ch);
    var c := q.core.(reset := false);
    ValueStartKeeps(c, ch);
    ValueStartTrails(c, ch);
  }

  lemma ValueStartTrails(c: Core, ch: Byte)
    ensures OnValueStart(c, ch).flags.trailing == c.flags.trailing
  {
    hide Lower;
    match c.hstate
    case Upgrade =>
    case ContentLength =>
    case _ =>
      assert OnValueStart(c, ch).flags == c.flags;
  }

  lemma ValueLineEnds(p: Parser, q: Parser)
    requires q.core.errno.OK? && Trailing(p, q) && InValue(q.core.state)
    ensures var r := Run(q, CRLF); r.core.errno.OK? && Trailing(p, r) && LineBegins(r.core.state)
  {
    hide Step, Run;
    LineEnd(q);
  }

  lemma {:induction false} TrailerName(p: Parser, q: Parser, n: seq<Byte>)
    requires q.core.errno.OK? && Trailing(p, q) && LineBegins(q.core.state)
    requires n != [] && forall i :: 0 <= i < |n| ==> Tok(n[i]) != 0
    ensures var r := Run(q, n); r.core.errno.OK? && Trailing(p, r) && r.core.state.Field?
    decreases |n|
  {
    hide Step, Run, Tok;
    RunLast(q, n);
    var a := n[..|n| - 1];
    if a == [] {
      RunNil(q);
      NameBegins(p, q, n[0]);
    } else {
      TrailerName(p, q, a);
      NotBlank(n[|n| - 1]);
      NameGoesOn(p, Run(q, a), n[|n| - 1]);
    }
  }

  lemma {:induction false} ValueRun(p: Parser, q: Parser, v: seq<Byte>)
    requires q.core.errno.OK? && Trailing(p, q) && q.core.state.DiscardWs?
    requires forall i :: 0 <= i < |v| ==> v[i] != CR && v[i] != LF
    ensures var r := Run(q, v); r.core.errno.OK? ==> Trailing(p, r) && InValue(r.core.state)
    decreases |v|
  {
    hide Step, Run;
    if v == [] {
      RunNil(q);
    } else {
      var a := v[..|v| - 1];
      RunLast(q, v);
      ValueRun(p, q, a);
      if Run(q, a).core.errno.OK? {
        ValueGoesOn(p, Run(q, a), v[|v| - 1]);
      } else {
        StoppedStep(Run(q, a), v[|v| - 1]);
      }
    }
  }

  /** A trailer line delivers nothing and completes nothing. */
  lemma LineRun(p: Parser, q: Parser, l: Line)
    requires q.core.errno.OK? && Trailing(p, q) && LineBegins(q.core.state) && LineOk(l)
    ensures var r := Run(q, Spell(l)); r.core.errno.OK? ==> Trailing(p, r) && LineBegins(r.core.state)
  {
    hide Step, Run, Tok, Trailing;
    TrailerName(p, q, l.name);
    var q1 := Run(q, l.name);
    NameGoesOn(p, q1, COLON);
    RunSingle(q1, COLON);
    var q2 := Run(q1, [COLON]);
    ValueRun(p, q2, l.value);
    var q3 := Run(q2, l.value);
    if q3.core.errno.OK? { ValueLineEnds(p, q3); } else { Stopped(q3, CRLF); }
    RunTwo(q, l.name, [COLON], q1, q2);
    RunTwo(q, l.name + [COLON], l.value, q2, q3);
    RunTwo(q, l.name + [COLON] + l.value, CRLF, q3, Run(q3, CRLF));
  }

  lemma {:induction false} LinesRun(p: Parser, q: Parser, ls: seq<Line>)
    requires q.core.errno.OK? && Trailing(p, q) && LineBegins(q.core.state)
    requires forall i :: 0 <= i < |ls| ==> LineOk(ls[i])
    ensures var r := Run(q, SpellAll(ls)); r.core.errno.OK? ==> Trailing(p, r) && LineBegins(r.core.state)
    ensures ls == [] ==> Run(q, SpellAll(ls)) == q
    decreases |ls|
  {
    hide Step, Run, Trailing, Spell, LineOk;
    if ls == [] {
      RunNil(q);
    } else {
      LineRun(p, q, ls[0]);
      var r := Run(q, Spell(ls[0]));
      RunTwo(q, Spell(ls[0]), SpellAll(ls[1..]), r, Run(r, SpellAll(ls[1..])));
      if r.core.errno.OK? { LinesRun(p, r, ls[1..]); } else { Stopped(r, SpellAll(ls[1..])); }
    }
  }

  /** The blank line that ends the trailer: one completion, at its last byte. */
  lemma BlankLineEnds(p: Parser, q: Parser)
    requires q.core.errno.OK? && Trailing(p, q) && LineBegins(q.core.state)
    ensures var r := Run(q, [CR]); r.core.errno.OK? && Trailing(p, r)
    ensures var r := Run(q, CRLF); r.core.errno.OK? && r.body == p.body && r.core.completed == p.core.completed + 1
  {
    hide Step, Run, MessageDone, FinishHeader;
    BlankCr(q);
    FinishKeeps(q.core);
    var r := Step(q, CR);
    BlankLf(r);
    RunSingle(q, CR);
    RunSingle(r, LF);
    RunTwo(q, [CR], [LF], r, Step(r, LF));
    assert CRLF == [CR] + [LF];
  }

  lemma BlankLf(r: Parser)
    requires r.core.errno.OK? && r.core.state.HeadersAlmostDone? && r.core.flags.trailing
    ensures var t := Step(r, LF);
      t.core.errno.OK? && t.body == r.body && t.core.completed == r.core.completed + 1
  {
    hide Step, NoBody, LineFinished;
    StepCompletes(r, LF);
    NonBulkStep(r, LF);
  }

  function EncodeAll(cs: seq<Chunk>): (r: seq<Byte>) {
    if cs == [] then [] else Encode(cs[0]) + EncodeAll(cs[1..])
  }

  function Data(cs: seq<Chunk>): (r: seq<Byte>) {
    if cs == [] then [] else cs[0].data + Data(cs[1..])
  }

  lemma {:induction false} ChunksParsed(p: Parser, cs: seq<Chunk>)
    requires ExpectsChunk(p) && forall i :: 0 <= i < |cs| ==> ChunkOk(cs[i])
    ensures var q := Run(p, EncodeAll(cs));
      && ExpectsChunk(q) && q.body == p.body + Data(cs) && q.core.completed == p.core.completed
      && q.core == p.core.(contentLength := q.core.contentLength, reset := q.core.reset)
    decreases cs
  {
    hide Step, Run, ChunkOk, Encode;
    if cs == [] {
      RunNil(p);
    } else {
      assert ChunkOk(cs[0]);
      ChunkParsed(p, cs[0]);
      var q := Run(p, Encode(cs[0]));
      ChunksParsed(q, cs[1..]);
      RunTwo(p, Encode(cs[0]), EncodeAll(cs[1..]), q, Run(q, EncodeAll(cs[1..])));
      assert p.body + cs[0].data + Data(cs[1..]) == p.body + Data(cs);
    }
  }

  /** The end of a chunked body: the last chunk's line, and the trailer lines. */
  function Closing(d: seq<Byte>, e: seq<Byte>, ls: seq<Line>): seq<Byte> { d + e + CRLF + SpellAll(ls) }

  lemma ClosingRun(p: Parser, d: seq<Byte>, e: seq<Byte>, ls: seq<Line>)
    requires ExpectsChunk(p) && SizeOk(d, e, 0) && forall i :: 0 <= i < |ls| ==> LineOk(ls[i])
    ensures var q := Run(p, Closing(d, e, ls));
      && (q.core.errno.OK? ==> Trailing(p, q) && LineBegins(q.core.state))
      && (ls == [] ==> q.core.errno.OK?)
  {
    hide Step, Run, SizeOk, LineOk, SpellAll;
    SizeLine(p, d, e, 0);
    var q := Run(p, d + e + CRLF);
    LinesRun(p, q, ls);
    RunTwo(p, d + e + CRLF, SpellAll(ls), q, Run(q, SpellAll(ls)));
  }

  /** A chunked body, with extensions and trailer lines, delivers the data of all its chunks;
      the message completes at its last byte and not before.  (A trailer line can be refused
      for what it says about lengths; without trailer lines nothing is refused.) */
  lemma ChunkedBody(p: Parser, cs: seq<Chunk>, d: seq<Byte>, e: seq<Byte>, ls: seq<Line>, k: nat)
    requires ExpectsChunk(p) && forall i :: 0 <= i < |cs| ==> ChunkOk(cs[i])
    requires SizeOk(d, e, 0) && forall i :: 0 <= i < |ls| ==> LineOk(ls[i])
    ensures var s := EncodeAll(cs) + (Closing(d, e, ls) + CRLF);
      && (ls == [] ==> Run(p, s).core.errno.OK?)
      && (Run(p, s).core.errno.OK? ==>
            && Run(p, s).body == p.body + Data(cs)
            && Run(p, s).core.completed == p.core.completed + 1
            && (k < |s| ==> Run(p, s[..k]).core.completed == p.core.completed))
  {
    hide Step, Run, ChunkOk, SizeOk, LineOk, EncodeAll, Closing, Trailing;
    ChunksParsed(p, cs);
    var a, z := EncodeAll(cs), Closing(d, e, ls);
    var q := Run(p, a);
    ClosingRun(q, d, e, ls);
    var r := Run(q, z);
    var s := a + (z + CRLF);
    RunTwo(q, z, CRLF, r, Run(r, CRLF));
    RunTwo(p, a, z + CRLF, q, Run(q, z + CRLF));
    if r.core.errno.OK? {
      BlankLineEnds(q, r);
      RunTwo(q, z, [CR], r, Run(r, [CR]));
      RunTwo(p, a, z + [CR], q, Run(q, z + [CR]));
      if k < |s| {
        var b := a + (z + [CR]);
        assert b == s[..k] + b[k..];
        RunConcat(p, s[..k], b[k..]);
        RunCompletes(p, s[..k]);
        RunCompletes(Run(p, s[..k]), b[k..]);
        assert Run(p, b).core.completed == p.core.completed by { TrailingKeeps(q, Run(r, [CR])); }
      }
    } else {
      Stopped(r, CRLF);
    }
  }

  lemma TrailingKeeps(p: Parser, q: Parser)
    requires Trailing(p, q)
    ensures q.core.completed == p.core.completed
  {
  }
}
