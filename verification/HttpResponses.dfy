/** Whole responses, from their bytes: what the status line, the header lines and the version
    decide about the body, the end of the message and the connection. */
module HttpResponses {
  import opened HttpMachine
  import opened HttpRuns
  import opened HttpDigits
  import opened HttpWords
  import opened HttpEnds
  import opened HttpFastPath
  import opened HttpExecute
  import opened HttpHeads
  import opened HttpChunks

  // ---- the status line

  /** A status line: any one-digit version numbers, any status digits, any reason. */
  datatype Start = Start(major: Byte, minor: Byte, spaces: seq<Byte>, code: seq<Byte>, reason: seq<Byte>)

  predicate ReasonOk(s: seq<Byte>) { (s != [] ==> s[0] == SP) && forall i :: 0 <= i < |s| ==> s[i] != CR && s[i] != LF }

  predicate StartOk(t: Start) {
    && IsNum(t.major) && IsNum(t.minor) && Spaces(t.spaces) && t.code != [] && AllNum(t.code) && DecVal(t.code) <= 999
    && ReasonOk(t.reason)
  }

  function Version(t: Start): seq<Byte> { HTTP + ['/' as int, t.major] + ['.' as int, t.minor] + [SP] }

  function StartText(t: Start): seq<Byte> { Version(t) + t.spaces + t.code + t.reason + CRLF }

  lemma LineByteRun(p: Parser, ch: Byte, c: Core)
    requires LineState(p.core.state) && p.core.errno.OK? && c == LineByte(p.core.(reset := false), ch)
    requires c.errno.OK? && !c.reset && !BulkState(c.state)
    ensures Became(p, Run(p, [ch]), c)
  {
    hide Step, Run, LineByte;
    LineStep(p, ch, c);
    RunSingle(p, ch);
  }

  lemma LineBytesRun(p: Parser, x: Byte, y: Byte, b: Core, c: Core)
    requires LineState(p.core.state) && p.core.errno.OK? && b == LineByte(p.core.(reset := false), x)
    requires b.errno.OK? && !b.reset && LineState(b.state) && c == LineByte(b, y)
    requires c.errno.OK? && !c.reset && !BulkState(c.state)
    ensures Became(p, Run(p, [x, y]), c)
  {
    hide Step, Run, LineByte;
    LineByteRun(p, x, b);
    var q := Run(p, [x]);
    LineByteRun(q, y, c);
    RunTwo(p, [x], [y], q, Run(q, [y]));
    assert [x] + [y] == [x, y];
  }

  function VersionCore(c: Core, t: Start): Core
    requires IsNum(t.major) && IsNum(t.minor)
  {
    c.(state := FirstStatus, flags := NO_FLAGS, contentLength := ULLONG_MAX, major := t.major - 48, minor := t.minor - 48)
  }

  lemma MajorRun(p: Parser, x: Byte)
    requires p.core.errno.OK? && p.core.state.ResHTTP? && IsNum(x)
    ensures Became(p, Run(p, ['/' as int, x]), p.core.(state := Dot, major := x - 48))
  {
    hide Step, Run;
    var c := p.core.(reset := false);
    LineBytesRun(p, '/' as int, x, c.(state := Major), c.(state := Dot, major := x - 48));
  }

  lemma MinorRun(p: Parser, x: Byte)
    requires p.core.errno.OK? && p.core.state.Dot? && IsNum(x)
    ensures Became(p, Run(p, ['.' as int, x]), p.core.(state := VersionEnd, minor := x - 48))
  {
    hide Step, Run;
    var c := p.core.(reset := false);
    LineBytesRun(p, '.' as int, x, c.(state := Minor), c.(state := VersionEnd, minor := x - 48));
  }

  lemma VersionEndRun(p: Parser)
    requires p.core.errno.OK? && p.core.state.VersionEnd?
    ensures Became(p, Run(p, [SP]), p.core.(state := FirstStatus))
  {
    hide Step, Run;
    LineByteRun(p, SP, p.core.(state := FirstStatus, reset := false));
  }

  lemma VersionRun(p: Parser, t: Start)
    requires AtStart(p) && IsNum(t.major) && IsNum(t.minor)
    ensures Became(p, Run(p, Version(t)), VersionCore(p.core, t))
  {
    hide Step, Run;
    var a, b := ['/' as int, t.major], ['.' as int, t.minor];
    HttpWord(p);
    var q1 := Run(p, HTTP);
    MajorRun(q1, t.major);
    var q2 := Run(q1, a);
    MinorRun(q2, t.minor);
    var q3 := Run(q2, b);
    VersionEndRun(q3);
    RunTwo(p, HTTP, a, q1, q2);
    RunTwo(p, HTTP + a, b, q2, q3);
    RunTwo(p, HTTP + a + b, [SP], q3, Run(q3, [SP]));
  }

  lemma {:induction false} MoreSpaces(p: Parser, s: seq<Byte>)
    requires p.core.errno.OK? && p.core.state.FirstStatus? && !p.core.reset && Spaces(s)
    ensures Became(p, Run(p, s), p.core)
    decreases |s|
  {
    hide Step, Run;
    if s == [] {
      RunNil(p);
    } else {
      var a := s[..|s| - 1];
      MoreSpaces(p, a);
      var q := Run(p, a);
      LineByteRun(q, SP, q.core);
      RunTwo(p, a, [SP], q, Run(q, [SP]));
      assert a + [SP] == s;
    }
  }

  lemma StatusDigit(q: Parser, x: Byte)
    requires q.core.errno.OK? && IsNum(x) && (q.core.state.FirstStatus? || q.core.state.StatusCode?)
    ensures var s := (if q.core.state.StatusCode? then q.core.status * 10 else 0) + (x - 48);
      if s <= 999 then Became(q, Step(q, x), q.core.(state := StatusCode, status := s))
      else Step(q, x).core.errno.InvalidStatus?
  {
    hide Step;
    NonBulkStep(q, x);
  }

  /** The status is exactly the decimal value of its digits; values above 999 are refused. */
  lemma {:induction false} StatusExact(p: Parser, d: seq<Byte>)
    requires p.core.errno.OK? && p.core.state.FirstStatus? && d != [] && AllNum(d)
    ensures DecVal(d) <= 999 ==> Became(p, Run(p, d), p.core.(state := StatusCode, status := DecVal(d)))
    ensures DecVal(d) > 999 ==> Run(p, d).core.errno.InvalidStatus?
    decreases |d|
  {
    hide Step, Run, DecVal;
    var a, x := d[..|d| - 1], d[|d| - 1];
    assert d == a + [x];
    RunLast(p, d);
    DecAppend(a, x);
    if a == [] {
      RunNil(p);
      assert d == [x];
      StatusDigit(p, x);
    } else {
      StatusExact(p, a);
      var q := Run(p, a);
      if DecVal(a) <= 999 { StatusDigit(q, x); } else { StoppedStep(q, x); }
    }
  }

  lemma {:induction false} ReasonRun(p: Parser, s: seq<Byte>)
    requires p.core.errno.OK? && p.core.state.StatusCode? && !p.core.reset && ReasonOk(s)
    ensures var k := if s == [] then StatusCode else if |s| == 1 then StatusStart else Status;
      Became(p, Run(p, s), p.core.(state := k))
    decreases |s|
  {
    hide Step, Run;
    if s == [] {
      RunNil(p);
    } else {
      var a, x := s[..|s| - 1], s[|s| - 1];
      ReasonRun(p, a);
      var q := Run(p, a);
      LineByteRun(q, x, q.core.(state := if a == [] then StatusStart else Status));
      RunTwo(p, a, [x], q, Run(q, [x]));
      assert a + [x] == s;
    }
  }

  function StartCore(c: Core, t: Start): Core
    requires StartOk(t)
  {
    VersionCore(c, t).(state := FieldStart, status := DecVal(t.code))
  }

  lemma StartRun(p: Parser, t: Start)
    requires AtStart(p) && StartOk(t)
    ensures Became(p, Run(p, StartText(t)), StartCore(p.core, t))
  {
    hide Step, Run, DecVal, Spaces, AllNum, ReasonOk, Version;
    VersionRun(p, t);
    var q1 := Run(p, Version(t));
    MoreSpaces(q1, t.spaces);
    var q2 := Run(q1, t.spaces);
    StatusExact(q2, t.code);
    var q3 := Run(q2, t.code);
    ReasonRun(q3, t.reason);
    var q4 := Run(q3, t.reason);
    LineBytesRun(q4, CR, LF, q4.core.(state := LineAlmostDone), q4.core.(state := FieldStart));
    assert CRLF == [CR, LF];
    RunTwo(p, Version(t), t.spaces, q1, q2);
    RunTwo(p, Version(t) + t.spaces, t.code, q2, q3);
    RunTwo(p, Version(t) + t.spaces + t.code, t.reason, q3, q4);
    RunTwo(p, Version(t) + t.spaces + t.code + t.reason, CRLF, q4, Run(q4, CRLF));
  }

  // ---- between responses, and bytes that are refused

  predicate LineEnds(s: seq<Byte>) { forall i :: 0 <= i < |s| ==> s[i] == CR || s[i] == LF }

  /** Line ends before a status line are skipped; any other byte but an H is refused. */
  lemma {:induction false} Between(p: Parser, s: seq<Byte>, ch: Byte)
    requires AtStart(p) && LineEnds(s)
    ensures var q := Run(p, s); AtStart(q) && q.body == p.body && q.core.completed == p.core.completed
    ensures ch != 'H' as int && ch != CR && ch != LF ==> Run(p, s + [ch]).core.errno.InvalidConstant?
    decreases |s|
  {
    hide Step, Run;
    var q := Run(p, s);
    if s == [] {
      RunNil(p);
    } else {
      var a := s[..|s| - 1];
      Between(p, a, ch);
      RunLast(p, s);
      NonBulkStep(Run(p, a), s[|s| - 1]);
    }
    NonBulkStep(q, ch);
    RunSingle(q, ch);
    RunTwo(p, s, [ch], q, Step(q, ch));
  }

  /** After a message that does not keep the connection nothing is read any more: line ends
      are skipped, and a stream with any other byte in it is refused. */
  lemma {:induction false} ClosedForGood(p: Parser, s: seq<Byte>)
    requires p.core.errno.OK? && p.core.state.Dead?
    ensures var q := Run(p, s);
      && q.body == p.body && q.core.completed == p.core.completed && q.core.state.Dead?
      && q.core.errno == (if LineEnds(s) then OK else ClosedConnection)
    decreases |s|
  {
    hide Step, Run;
    if s == [] {
      RunNil(p);
    } else {
      var a := s[..|s| - 1];
      ClosedForGood(p, a);
      var q := Run(p, a);
      RunLast(p, s);
      assert s == a + [s[|s| - 1]];
      if LineEnds(a) { NonBulkStep(q, s[|s| - 1]); } else { StoppedStep(q, s[|s| - 1]); }
    }
  }

  /** The status ends with a space or a line end, and with nothing else. */
  lemma StatusEnds(p: Parser, ch: Byte)
    requires p.core.errno.OK? && p.core.state.StatusCode? && !IsNum(ch)
    ensures if ch == SP || ch == CR || ch == LF
            then Step(p, ch).core.errno.OK? && Step(p, ch).core.status == p.core.status
            else Step(p, ch).core.errno.InvalidStatus?
  {
    hide Step;
    NonBulkStep(p, ch);
  }

  // ---- what the header block decides

  const FRESH := Said(NO_FLAGS, ULLONG_MAX)

  function Top(t: Start, hs: seq<Heading>): seq<Byte> { StartText(t) + Block(hs) + [CR] }

  /** The connection is kept after a message: as the version and the Connection lines say. */
  predicate Keeps(t: Start, hs: seq<Heading>) {
    if t.major > 48 && t.minor > 48 then !AnyMention(hs, CLOSE) else AnyMention(hs, KEEP_ALIVE)
  }

  /** The parser before the last byte of the header block. */
  ghost predicate BlockRead(p: Parser, q: Parser, t: Start, m: Said)
    requires StartOk(t)
  {
    && q.core.errno.OK? && q.core.state.HeadersAlmostDone? && q.body == p.body && q.core.completed == p.core.completed
    && q.core.flags == m.flags && q.core.contentLength == m.length
    && q.core.major == t.major - 48 && q.core.minor == t.minor - 48 && q.core.status == DecVal(t.code)
  }

  lemma TopRun(p: Parser, t: Start, hs: seq<Heading>)
    requires AtStart(p) && StartOk(t) && BlockOk(hs, FRESH)
    ensures BlockRead(p, Run(p, Top(t, hs)), t, AfterAll(FRESH, hs))
  {
    hide Step, Run, DecVal, StartOk, BlockOk, AfterAll, FinishFlags, StartText, Block;
    StartRun(p, t);
    var q := Run(p, StartText(t));
    assert Stands(q, q, FRESH);
    BlockRun(q, q, FRESH, hs);
    var r := Run(q, Block(hs));
    BlankCr(r);
    RunSingle(r, CR);
    RunTwo(p, StartText(t), Block(hs), q, r);
    RunTwo(p, StartText(t) + Block(hs), [CR], r, Run(r, [CR]));
  }

  /** The state after a message, by the version and the flags. */
  function Kept(c: Core): State {
    if (if c.major > 0 && c.minor > 0 then !c.flags.close else c.flags.keepAlive) then StartRes else Dead
  }

  /** The message ends with the byte: it is counted, nothing else is. */
  ghost predicate Finished(q: Parser, r: Parser) {
    && r.core.errno.OK? && r.body == q.body && r.core.completed == q.core.completed + 1 && r.core.state == Kept(q.core)
  }

  /** A body begins with the next byte. */
  ghost predicate Opened(q: Parser, r: Parser, s: State) {
    && r.core == q.core.(state := s, reset := true, upgrade := r.core.upgrade) && r.body == q.body && r.nread == 0
  }

  /** The last byte of a header block. */
  lemma LfDecides(q: Parser)
    requires q.core.errno.OK? && q.core.state.HeadersAlmostDone? && !q.core.flags.trailing
    ensures var c, r := q.core, Step(q, LF);
      if c.flags.chunked then
        if c.flags.contentLength then r.core.errno.UnexpectedContentLength? else Opened(q, r, ChunkSizeStart)
      else if c.contentLength == 0 || (c.contentLength == ULLONG_MAX && Bodiless(c.status)) then Finished(q, r)
      else if c.contentLength == ULLONG_MAX then Opened(q, r, BodyIdentityEof)
      else Opened(q, r, BodyIdentity)
  {
    hide Step;
    NonBulkStep(q, LF);
  }

  /** The last byte of a trailer. */
  lemma TrailerLf(q: Parser)
    requires q.core.errno.OK? && q.core.state.HeadersAlmostDone? && q.core.flags.trailing && q.core.flags.chunked
    ensures Finished(q, Step(q, LF))
  {
    hide Step;
    NonBulkStep(q, LF);
  }

  /** A length line of the block declares `n`. */
  ghost predicate Declares(hs: seq<Heading>, n: nat) {
    exists k :: 0 <= k < |hs| && SaysLength(hs[k]) && DecVal(Nums(hs[k].value)) == n
  }

  /** A header block, up to its last byte, and what it says. */
  lemma TopSays(p: Parser, t: Start, hs: seq<Heading>)
    requires AtStart(p) && StartOk(t) && BlockOk(hs, FRESH)
    ensures var q := Run(p, Top(t, hs)); var m := AfterAll(FRESH, hs);
      && BlockRead(p, q, t, m) && !m.flags.trailing
      && (m.flags.chunked <==> AnyChunked(hs)) && (m.flags.contentLength <==> AnyLength(hs))
      && (!AnyLength(hs) ==> m.length == ULLONG_MAX)
      && Kept(q.core) == (if Keeps(t, hs) then StartRes else Dead)
  {
    hide Run, StartOk, BlockOk, AfterAll, AnyChunked, AnyLength, AnyUpgrade, AnyMention, Top, DecVal;
    TopRun(p, t, hs);
    BlockSays(FRESH, hs);
  }

  lemma TopDeclares(hs: seq<Heading>, n: nat)
    requires BlockOk(hs, FRESH) && Declares(hs, n)
    ensures AfterAll(FRESH, hs).length == n < ULLONG_MAX && AnyLength(hs)
  {
    hide BlockOk, Kind, DecVal, Nums, AfterAll;
    var k :| 0 <= k < |hs| && SaysLength(hs[k]) && DecVal(Nums(hs[k].value)) == n;
    BlockLength(FRESH, hs, k);
  }

  /** A chunked block without a length: chunks follow. */
  lemma ChunkedHead(p: Parser, t: Start, hs: seq<Heading>)
    requires AtStart(p) && StartOk(t) && BlockOk(hs, FRESH) && AnyChunked(hs) && !AnyLength(hs)
    ensures var q, r := Run(p, Top(t, hs)), Run(p, Top(t, hs) + [LF]);
      && ExpectsChunk(r) && Opened(q, r, ChunkSizeStart) && BlockRead(p, q, t, AfterAll(FRESH, hs))
      && Kept(q.core) == (if Keeps(t, hs) then StartRes else Dead)
  {
    hide Step, Run, StartOk, BlockOk, AfterAll, AnyChunked, AnyLength, AnyMention, Top, DecVal, Kept;
    TopSays(p, t, hs);
    var q := Run(p, Top(t, hs));
    LfDecides(q);
    RunSingle(q, LF);
    RunTwo(p, Top(t, hs), [LF], q, Step(q, LF));
  }

  /** Both a chunked line and a length: refused at the end of the block. */
  lemma BothRefused(p: Parser, t: Start, hs: seq<Heading>)
    requires AtStart(p) && StartOk(t) && BlockOk(hs, FRESH) && AnyChunked(hs) && AnyLength(hs)
    ensures Run(p, Top(t, hs)).core.errno.OK? && Run(p, Top(t, hs) + [LF]).core.errno.UnexpectedContentLength?
  {
    hide Step, Run, StartOk, BlockOk, AfterAll, AnyChunked, AnyLength, AnyMention, Top, DecVal, Kept;
    TopSays(p, t, hs);
    var q := Run(p, Top(t, hs));
    LfDecides(q);
    RunSingle(q, LF);
    RunTwo(p, Top(t, hs), [LF], q, Step(q, LF));
  }

  // ---- whole responses

  /** Completions never go back: none at the end, none before. */
  lemma NoneEarlier(p: Parser, s: seq<Byte>, k: nat)
    requires k < |s| && Run(p, s[..|s| - 1]).core.completed == p.core.completed
    ensures Run(p, s[..k]).core.completed == p.core.completed
  {
    hide Run, EndsIn;
    var b := s[..|s| - 1];
    assert b == s[..k] + b[k..] && b[..k] == s[..k];
    RunConcat(p, s[..k], b[k..]);
    RunCompletes(p, s[..k]);
    RunCompletes(Run(p, s[..k]), b[k..]);
  }

  /** The body delivered, one message counted, and the connection kept or not. */
  ghost predicate EndsWell(p: Parser, r: Parser, body: seq<Byte>, kept: bool) {
    && r.core.errno.OK? && r.body == p.body + body && r.core.completed == p.core.completed + 1
    && r.core.state == (if kept then StartRes else Dead)
  }

  /** A response is read: its body delivered, one message counted, at the last byte and not
      before, and the connection kept exactly if the version and the Connection lines say so. */
  ghost predicate ReadWhole(p: Parser, s: seq<Byte>, body: seq<Byte>, kept: bool) {
    && EndsWell(p, Run(p, s), body, kept)
    && forall k :: 0 <= k < |s| ==> Run(p, s[..k]).core.completed == p.core.completed
  }

  /** The last byte ends the message. */
  lemma WholeByLast(p: Parser, a: seq<Byte>, x: Byte, body: seq<Byte>, kept: bool)
    requires Run(p, a).core.completed == p.core.completed && EndsWell(p, Step(Run(p, a), x), body, kept)
    ensures ReadWhole(p, a + [x], body, kept)
  {
    hide Step, Run;
    var s, q := a + [x], Run(p, a);
    RunSingle(q, x);
    RunTwo(p, a, [x], q, Step(q, x));
    assert s[..|s| - 1] == a;
    forall k | 0 <= k < |s| ensures Run(p, s[..k]).core.completed == p.core.completed { NoneEarlier(p, s, k); }
  }

  /** No chunked line, and no body by its length or its status: the blank line ends it. */
  lemma BodilessResponse(p: Parser, t: Start, hs: seq<Heading>)
    requires AtStart(p) && StartOk(t) && BlockOk(hs, FRESH) && !AnyChunked(hs)
    requires Declares(hs, 0) || (!AnyLength(hs) && Bodiless(DecVal(t.code)))
    ensures ReadWhole(p, Top(t, hs) + [LF], [], Keeps(t, hs))
  {
    hide Step, Run, StartOk, BlockOk, AfterAll, AnyChunked, AnyLength, AnyMention, Top, DecVal, Kept, Declares;
    TopSays(p, t, hs);
    if Declares(hs, 0) { TopDeclares(hs, 0); }
    LfDecides(Run(p, Top(t, hs)));
    WholeByLast(p, Top(t, hs), LF, [], Keeps(t, hs));
  }

  lemma LastOfBody(q: Parser, x: Byte)
    requires q.core.errno.OK? && q.core.state.BodyIdentity? && q.core.contentLength == 1
    ensures Finished(q.(body := q.body + [x]), Step(q, x))
  {
    hide Step;
    BodyStep(q, x);
  }

  /** All but the last byte of a declared body. */
  lemma BodyButLast(q: Parser, s: seq<Byte>)
    requires q.core.errno.OK? && q.core.state.BodyIdentity? && |s| + 1 == q.core.contentLength
    ensures var r := Run(q, s);
      && r.core == q.core.(contentLength := 1, reset := r.core.reset) && r.body == q.body + s
  {
    hide Step, Run;
    if s == [] { RunNil(q); } else { BodyRun(q, s); }
  }

  /** A length line, no chunked line: the body is that many bytes. */
  lemma DeclaredResponse(p: Parser, t: Start, hs: seq<Heading>, body: seq<Byte>)
    requires AtStart(p) && StartOk(t) && BlockOk(hs, FRESH) && !AnyChunked(hs) && Declares(hs, |body|)
    ensures ReadWhole(p, Top(t, hs) + [LF] + body, body, Keeps(t, hs))
  {
    hide Step, Run, StartOk, BlockOk, AfterAll, AnyChunked, AnyLength, AnyMention, Top, DecVal, Declares;
    var a := Top(t, hs);
    if body == [] {
      BodilessResponse(p, t, hs);
      assert a + [LF] + body == a + [LF];
    } else {
      TopSays(p, t, hs);
      TopDeclares(hs, |body|);
      var q := Run(p, a);
      LfDecides(q);
      RunSingle(q, LF);
      var r := Step(q, LF);
      RunTwo(p, a, [LF], q, r);
      var n := |body| - 1;
      BodyButLast(r, body[..n]);
      var u := Run(r, body[..n]);
      RunTwo(p, a + [LF], body[..n], r, u);
      LastOfBody(u, body[n]);
      assert p.body + body[..n] + [body[n]] == p.body + body;
      WholeByLast(p, a + [LF] + body[..n], body[n], body, Keeps(t, hs));
      assert a + [LF] + body == a + [LF] + body[..n] + [body[n]];
    }
  }

  /** Neither line, and a status with a body: everything that comes is the body; the end of the
      stream, and only that, ends the message. */
  lemma EofResponse(p: Parser, t: Start, hs: seq<Heading>, body: seq<Byte>)
    requires AtStart(p) && StartOk(t) && BlockOk(hs, FRESH) && !AnyChunked(hs) && !AnyLength(hs) && !Bodiless(DecVal(t.code))
    ensures var q := Run(p, Top(t, hs) + [LF] + body);
      && q.core.errno.OK? && q.body == p.body + body && q.core.completed == p.core.completed
      && AtEof(q.core).errno.OK? && AtEof(q.core).completed == p.core.completed + 1
  {
    hide Step, Run, StartOk, BlockOk, AfterAll, AnyChunked, AnyLength, AnyMention, Top, DecVal, Kept;
    var a := Top(t, hs);
    TopSays(p, t, hs);
    var q := Run(p, a);
    LfDecides(q);
    RunSingle(q, LF);
    var r := Step(q, LF);
    RunTwo(p, a, [LF], q, r);
    if body == [] {
      assert a + [LF] + body == a + [LF];
    } else {
      EofRun(r, body);
      RunTwo(p, a + [LF], body, r, Run(r, body));
    }
  }

  /** The end of a chunked body, up to its last byte. */
  function Tail(d: seq<Byte>, e: seq<Byte>, ts: seq<Heading>): seq<Byte> { d + e + CRLF + Block(ts) + [CR] }

  lemma TailRun(u: Parser, d: seq<Byte>, e: seq<Byte>, ts: seq<Heading>, m: Said)
    requires ExpectsChunk(u) && SizeOk(d, e, 0) && m == Said(u.core.flags.(trailing := true), 0) && BlockOk(ts, m)
    ensures var x := Run(u, Tail(d, e, ts));
      && x.core.errno.OK? && x.core.state.HeadersAlmostDone? && x.body == u.body && x.core.completed == u.core.completed
      && x.core.flags == AfterAll(m, ts).flags && x.core.major == u.core.major && x.core.minor == u.core.minor
  {
    hide Step, Run, SizeOk, BlockOk, AfterAll, FinishFlags, Block;
    SizeLine(u, d, e, 0);
    var a := d + e + CRLF;
    var v := Run(u, a);
    assert Stands(v, v, m);
    BlockRun(v, v, m, ts);
    var w := Run(v, Block(ts));
    BlankCr(w);
    RunSingle(w, CR);
    RunTwo(u, a, Block(ts), v, w);
    RunTwo(u, a + Block(ts), [CR], w, Run(w, [CR]));
  }

  lemma MentionIn(hs: seq<Heading>, ts: seq<Heading>, w: string)
    ensures AnyMention(hs + ts, w) <==> AnyMention(hs, w) || AnyMention(ts, w)
  {
    hide Mentions;
    var a := hs + ts;
    if k :| 0 <= k < |hs| && Mentions(hs[k], w) { assert a[k] == hs[k]; }
    if k :| 0 <= k < |ts| && Mentions(ts[k], w) { assert a[|hs| + k] == ts[k]; }
    if k :| 0 <= k < |a| && Mentions(a[k], w) {
      if k < |hs| { assert hs[k] == a[k]; } else { assert ts[k - |hs|] == a[k]; }
    }
  }

  /** The connection, by the lines of the header block and of the trailer. */
  lemma KeptByBoth(c: Core, t: Start, hs: seq<Heading>, ts: seq<Heading>, m: Said)
    requires IsNum(t.major) && IsNum(t.minor) && c.major == t.major - 48 && c.minor == t.minor - 48
    requires m == Said(AfterAll(FRESH, hs).flags.(trailing := true), 0) && c.flags == AfterAll(m, ts).flags
    ensures Kept(c) == (if Keeps(t, hs + ts) then StartRes else Dead)
    ensures c.flags.trailing && (AnyChunked(hs) ==> c.flags.chunked)
  {
    hide AfterAll, AnyMention, AnyChunked, AnyLength, AnyUpgrade;
    BlockSays(FRESH, hs);
    BlockSays(m, ts);
    MentionIn(hs, ts, CLOSE);
    MentionIn(hs, ts, KEEP_ALIVE);
  }

  /** A chunked line, no length: chunks with extensions, and a trailer of any lines. */
  lemma ChunkedResponse(p: Parser, t: Start, hs: seq<Heading>, cs: seq<Chunk>, d: seq<Byte>, e: seq<Byte>, ts: seq<Heading>)
    requires AtStart(p) && StartOk(t) && BlockOk(hs, FRESH) && AnyChunked(hs) && !AnyLength(hs)
    requires SizeOk(d, e, 0) && forall i :: 0 <= i < |cs| ==> ChunkOk(cs[i])
    requires BlockOk(ts, Said(AfterAll(FRESH, hs).flags.(trailing := true), 0))
    ensures ReadWhole(p, Top(t, hs) + [LF] + EncodeAll(cs) + Tail(d, e, ts) + [LF], Data(cs), Keeps(t, hs + ts))
  {
    hide Step, Run, BlockOk, AfterAll, AnyChunked, AnyLength, AnyMention, Top, DecVal, Kept, Declares, SizeOk, ChunkOk,
         EncodeAll, Tail, Data, Keeps, ReadWhole;
    var m := Said(AfterAll(FRESH, hs).flags.(trailing := true), 0);
    ChunkedHead(p, t, hs);
    var a := Top(t, hs) + [LF];
    var r := Run(p, a);
    ChunksParsed(r, cs);
    var u := Run(r, EncodeAll(cs));
    TailRun(u, d, e, ts, m);
    var x := Run(u, Tail(d, e, ts));
    KeptByBoth(x.core, t, hs, ts, m);
    TrailerLf(x);
    RunTwo(p, a, EncodeAll(cs), r, u);
    RunTwo(p, a + EncodeAll(cs), Tail(d, e, ts), u, x);
    WholeByLast(p, a + EncodeAll(cs) + Tail(d, e, ts), LF, Data(cs), Keeps(t, hs + ts));
  }
}
