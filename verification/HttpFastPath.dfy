/** The fixed 81-byte header the fast path skips, walked byte by byte. */
module HttpFastPath {
  import opened HttpMachine
  import opened HttpRuns

  const HTTP: seq<Byte> := [72, 84, 84, 80]                                   // HTTP
  const VERSION: seq<Byte> := [47, 49, 46, 49]                                // /1.1
  const CODE: seq<Byte> := [32, 50, 48, 48]                                   // _200
  const REASON: seq<Byte> := [32, 79, 75, 13]                                 // _OK\r
  const CONN: seq<Byte> := [67, 111, 110, 110]                                // Conn
  const ECTION: seq<Byte> := [101, 99, 116, 105, 111, 110]                    // ection
  const COLON_SP: seq<Byte> := [58, 32]
  const EEP_ALIVE: seq<Byte> := [101, 101, 112, 45, 97, 108, 105, 118, 101]   // eep-alive
  const CRLF: seq<Byte> := [13, 10]
  const ERVER: seq<Byte> := [101, 114, 118, 101, 114]                         // erver
  const PACHE: seq<Byte> := [112, 97, 99, 104, 101, 47, 50, 46, 50, 46, 56, 48, 48]   // pache/2.2.800
  const CONT: seq<Byte> := [67, 111, 110, 116]                                // Cont
  const ENT_LENGTH: seq<Byte> := [101, 110, 116, 45, 76, 101, 110, 103, 116, 104]     // ent-Length

  function StatusLine(): seq<Byte> { HTTP + VERSION + CODE + REASON + [LF] }
  function ConnectionLine(): seq<Byte> { CONN + ECTION + COLON_SP + [107] + EEP_ALIVE + CRLF }
  function ServerLine(): seq<Byte> { [83] + ERVER + COLON_SP + [65] + PACHE + CRLF }
  function LengthName(): seq<Byte> { CONT + ENT_LENGTH + COLON_SP }

  /** HTTP/1.1 200 OK, Connection: keep-alive, Server: Apache/2.2.800, Content-Length: */
  function Header(): (r: seq<Byte>)
    ensures |r| == 81 && r[0] == 'H' as int
  {
    StatusLine() + ConnectionLine() + ServerLine() + LengthName()
  }

  /** The bytes of a text. */
  ghost predicate Spells(b: seq<Byte>, text: string) {
    |b| == |text| && forall i :: 0 <= i < |b| ==> b[i] == text[i] as int
  }

  /** The pieces of the header are those of the program's header text. */
  lemma HeaderText()
    ensures Spells(HTTP + VERSION, "HTTP/1.1") && Spells(CODE + REASON + [LF], " 200 OK\r\n")
    ensures Spells(CONN + ECTION + COLON_SP, "Connection: ") && Spells([107] + EEP_ALIVE + CRLF, "keep-alive\r\n")
  {
  }

  lemma HeaderTextTail()
    ensures Spells([83] + ERVER + COLON_SP, "Server: ") && Spells([65] + PACHE + CRLF, "Apache/2.2.800\r\n")
    ensures Spells(CONT + ENT_LENGTH + COLON_SP, "Content-Length: ")
  {
  }

  /** The run over four bytes, given its four steps. */
  lemma RunFour(p: Parser, s: seq<Byte>, q1: Parser, q2: Parser, q3: Parser, q4: Parser)
    requires |s| == 4
    requires Step(p, s[0]) == q1 && Step(q1, s[1]) == q2 && Step(q2, s[2]) == q3 && Step(q3, s[3]) == q4
    ensures Run(p, s) == q4
  {
    hide Step;
    RunOne(p, s);
    RunOne(q1, s[1..]);
    RunOne(q2, s[1..][1..]);
    RunOne(q3, s[1..][1..][1..]);
    RunNil(q4);
  }

  lemma HttpWord(p: Parser)
    requires p.core.state.StartRes? && p.core.errno.OK?
    ensures Run(p, HTTP) ==
            Moved(p, p.core.(state := ResHTTP, flags := NO_FLAGS, contentLength := ULLONG_MAX, reset := false), 4)
  {
    hide Step, Run;
    var c := p.core.(reset := false, flags := NO_FLAGS, contentLength := ULLONG_MAX);
    var q1, q2 := Moved(p, c.(state := ResH), 1), Moved(p, c.(state := ResHT), 2);
    var q3, q4 := Moved(p, c.(state := ResHTT), 3), Moved(p, c.(state := ResHTTP), 4);
    assert Step(p, 72) == q1 by { LineStep(p, 72, q1.core); }
    assert Step(q1, 84) == q2 by { LineStep(q1, 84, q2.core); }
    assert Step(q2, 84) == q3 by { LineStep(q2, 84, q3.core); }
    assert Step(q3, 80) == q4 by { LineStep(q3, 80, q4.core); }
    RunFour(p, HTTP, q1, q2, q3, q4);
  }

  lemma VersionWord(p: Parser)
    requires p.core.state.ResHTTP? && p.core.errno.OK?
    ensures Run(p, VERSION) == Moved(p, p.core.(state := VersionEnd, major := 1, minor := 1, reset := false), 4)
  {
    hide Step, Run;
    var c := p.core.(reset := false);
    var q1, q2 := Moved(p, c.(state := Major), 1), Moved(p, c.(state := Dot, major := 1), 2);
    var q3 := Moved(p, c.(state := Minor, major := 1), 3);
    var q4 := Moved(p, c.(state := VersionEnd, major := 1, minor := 1), 4);
    assert Step(p, 47) == q1 by { LineStep(p, 47, q1.core); }
    assert Step(q1, 49) == q2 by { LineStep(q1, 49, q2.core); }
    assert Step(q2, 46) == q3 by { LineStep(q2, 46, q3.core); }
    assert Step(q3, 49) == q4 by { LineStep(q3, 49, q4.core); }
    RunFour(p, VERSION, q1, q2, q3, q4);
  }

  lemma CodeWord(p: Parser)
    requires p.core.state.VersionEnd? && p.core.errno.OK?
    ensures Run(p, CODE) == Moved(p, p.core.(state := StatusCode, status := 200, reset := false), 4)
  {
    hide Step, Run;
    var c := p.core.(reset := false);
    var q1, q2 := Moved(p, c.(state := FirstStatus), 1), Moved(p, c.(state := StatusCode, status := 2), 2);
    var q3, q4 := Moved(p, c.(state := StatusCode, status := 20), 3), Moved(p, c.(state := StatusCode, status := 200), 4);
    assert Step(p, 32) == q1 by { LineStep(p, 32, q1.core); }
    assert Step(q1, 50) == q2 by { LineStep(q1, 50, q2.core); }
    assert Step(q2, 48) == q3 by { LineStep(q2, 48, q3.core); }
    assert Step(q3, 48) == q4 by { LineStep(q3, 48, q4.core); }
    RunFour(p, CODE, q1, q2, q3, q4);
  }

  lemma ReasonWord(p: Parser)
    requires p.core.state.StatusCode? && p.core.errno.OK?
    ensures Run(p, REASON) == Moved(p, p.core.(state := LineAlmostDone, reset := false), 4)
  {
    hide Step, Run;
    var c := p.core.(reset := false);
    var q1, q2 := Moved(p, c.(state := StatusStart), 1), Moved(p, c.(state := Status), 2);
    var q3, q4 := Moved(p, c.(state := Status), 3), Moved(p, c.(state := LineAlmostDone), 4);
    assert Step(p, 32) == q1 by { LineStep(p, 32, q1.core); }
    assert Step(q1, 79) == q2 by { LineStep(q1, 79, q2.core); }
    assert Step(q2, 75) == q3 by { LineStep(q2, 75, q3.core); }
    assert Step(q3, 13) == q4 by { LineStep(q3, 13, q4.core); }
    RunFour(p, REASON, q1, q2, q3, q4);
  }

  function StatusLineCore(c: Core): Core {
    c.(state := FieldStart, flags := NO_FLAGS, contentLength := ULLONG_MAX, major := 1, minor := 1, status := 200,
       reset := false)
  }

  lemma StatusLineRun(p: Parser)
    requires p.core.state.StartRes? && p.core.errno.OK?
    ensures Run(p, StatusLine()) == Moved(p, StatusLineCore(p.core), 17)
  {
    hide Step, Run;
    var c := StatusLineCore(p.core);
    var q1 := Moved(p, c.(state := ResHTTP, major := p.core.major, minor := p.core.minor, status := p.core.status), 4);
    var q2 := Moved(p, c.(state := VersionEnd, status := p.core.status), 8);
    var q3, q4, q5 := Moved(p, c.(state := StatusCode), 12), Moved(p, c.(state := LineAlmostDone), 16), Moved(p, c, 17);
    assert Run(p, HTTP) == q1 by { HttpWord(p); }
    assert Run(q1, VERSION) == q2 by { VersionWord(q1); }
    assert Run(q2, CODE) == q3 by { CodeWord(q2); }
    assert Run(q3, REASON) == q4 by { ReasonWord(q3); }
    assert Run(q4, [LF]) == q5 by { LineStep(q4, LF, c); RunSingle(q4, LF); }
    RunTwo(p, HTTP, VERSION, q1, q2);
    RunTwo(p, HTTP + VERSION, CODE, q2, q3);
    RunTwo(p, HTTP + VERSION + CODE, REASON, q3, q4);
    RunTwo(p, HTTP + VERSION + CODE + REASON, [LF], q4, q5);
  }

  // ---- header lines

  /** A header line starts after the status line or right after another header line. */
  predicate LineStart(p: Parser) {
    (p.core.state.FieldStart? || p.core.state.ValueLws?) && p.core.errno.OK?
  }

  /** The core with what the previous header line contributed. */
  function Between(c: Core): Core {
    (if c.state.ValueLws? then FinishHeader(c) else c).(reset := false)
  }

  lemma NameStart(p: Parser, ch: Byte, h: HeaderState)
    requires LineStart(p) && Tok(ch) != 0
    requires h == OnFieldStart(p.core, ch).hstate
    ensures Step(p, ch) == Moved(p, Between(p.core).(state := Field, hstate := h), 1).(index := 0)
  {
    hide FieldByte, ValueByte, BodyByte, LineByte, ChunkByte;
  }

  /** The four letters that tell Connection from Content-Length. */
  lemma FourLetters(p: Parser, last: Byte)
    requires LineStart(p) && (last == 110 || last == 116)
    ensures Run(p, [67, 111, 110, last]) ==
            Moved(p, Between(p.core).(state := Field,
                       hstate := if last == 110 then MatchConnection else MatchContentLength), 4).(index := 3)
  {
    hide Step, Run, Between;
    var c := Between(p.core);
    var q1 := Moved(p, c.(state := Field, hstate := C), 1).(index := 0);
    var q2 := Moved(p, c.(state := Field, hstate := CO), 2).(index := 1);
    var q3 := Moved(p, c.(state := Field, hstate := CON), 3).(index := 2);
    var q4 := Moved(p, c.(state := Field, hstate := if last == 110 then MatchConnection else MatchContentLength), 4)
              .(index := 3);
    assert Step(p, 67) == q1 by { NameStart(p, 67, C); }
    assert Step(q1, 111) == q2 by { FieldLetter(p, q1, 111, CO, 1); }
    assert Step(q2, 110) == q3 by { FieldLetter(p, q2, 110, CON, 2); }
    assert Step(q3, last) == q4 by { FieldLetter(p, q3, last, q4.core.hstate, 3); }
    RunFour(p, [67, 111, 110, last], q1, q2, q3, q4);
  }

  lemma FieldLetter(p: Parser, q: Parser, ch: Byte, h: HeaderState, n: nat)
    requires LineStart(p) && q.index == n - 1 && Tok(ch) != 0
    requires q == Moved(p, Between(p.core).(state := Field, hstate := q.core.hstate), n).(index := q.index)
    requires FieldCounts(q.core.hstate) && h == FieldState(q.core.hstate, n, Tok(ch))
    ensures Step(q, ch) == Moved(p, Between(p.core).(state := Field, hstate := h), n + 1).(index := n)
  {
    hide Step, Tok, FieldState;
    FieldStep(q, ch);
  }

  lemma ColonSpace(p: Parser)
    requires p.core.state.Field? && p.core.errno.OK?
    ensures Run(p, COLON_SP) == Moved(p, p.core.(state := DiscardWs, reset := false), 2)
  {
    hide Step, Run;
    var q := Moved(p, p.core.(state := DiscardWs, reset := false), 1);
    assert Step(p, 58) == q by { FieldStep(p, 58); }
    assert Step(q, 32) == Moved(q, q.core, 1) by { CoreStep(q, 32, q.core); }
    RunSingle(p, 58);
    RunSingle(q, 32);
    RunTwo(p, [58], [32], q, Moved(q, q.core, 1));
    assert COLON_SP == [58] + [32];
  }

  lemma ValueBegins(p: Parser, ch: Byte, c: Core)
    requires p.core.state.DiscardWs? && p.core.errno.OK?
    requires ch != SP && ch != HT && ch != CR && ch != LF
    requires c == OnValueStart(p.core.(reset := false), ch)
    ensures Run(p, [ch]) == Moved(p, c, 1).(index := 0)
  {
    hide Run, FieldByte, ValueByte, BodyByte, LineByte, ChunkByte, OnValueStart;
    assert c.state.Value? && !c.reset by { StartsValue(p.core.(reset := false), ch); }
    RunSingle(p, ch);
  }

  lemma StartsValue(c: Core, ch: Byte)
    ensures OnValueStart(c, ch).state.Value? && OnValueStart(c, ch).reset == c.reset
  {
  }

  lemma LineEnds(p: Parser)
    requires p.core.state.Value? && p.core.errno.OK?
    ensures Run(p, CRLF) == Moved(p, p.core.(state := ValueLws, reset := false), 2)
  {
    hide Step, Run;
    var q := Moved(p, p.core.(state := HeaderAlmostDone, reset := false), 1);
    assert Step(p, CR) == q by { ValueStep(p, CR); }
    assert Step(q, LF) == Moved(q, q.core.(state := ValueLws), 1) by { CoreStep(q, LF, q.core.(state := ValueLws)); }
    RunSingle(p, CR);
    RunSingle(q, LF);
    RunTwo(p, [CR], [LF], q, Moved(q, q.core.(state := ValueLws), 1));
    assert CRLF == [CR] + [LF];
  }

  lemma ConnectionLineRun(p: Parser)
    requires LineStart(p)
    ensures Run(p, ConnectionLine()) ==
            Moved(p, Between(p.core).(state := ValueLws, hstate := KeepAlive), 24).(index := 9)
  {
    hide Step, Run, Between;
    var c := Between(p.core).(state := Field);
    var q1 := Moved(p, c.(hstate := MatchConnection), 4).(index := 3);
    var q2 := Moved(p, c.(hstate := Connection), 10).(index := 9);
    var q3 := Moved(p, c.(state := DiscardWs, hstate := Connection), 12).(index := 9);
    var q4 := Moved(p, c.(state := Value, hstate := MatchKeepAlive), 13).(index := 0);
    var q5 := Moved(p, c.(state := Value, hstate := KeepAlive), 22).(index := 9);
    var q6 := Moved(p, c.(state := ValueLws, hstate := KeepAlive), 24).(index := 9);
    BetweenOk(p);
    assert Run(p, CONN) == q1 by { FourLetters(p, 110); }
    assert Run(q1, ECTION) == q2 by { NameRecognised(q1, ECTION); }
    assert Run(q2, COLON_SP) == q3 by { ColonSpace(q2); }
    assert Run(q3, [107]) == q4 by { ValueBegins(q3, 107, q4.core); }
    assert Run(q4, EEP_ALIVE) == q5 by { ValueRecognised(q4, EEP_ALIVE); }
    assert Run(q5, CRLF) == q6 by { LineEnds(q5); }
    RunTwo(p, CONN, ECTION, q1, q2);
    RunTwo(p, CONN + ECTION, COLON_SP, q2, q3);
    RunTwo(p, CONN + ECTION + COLON_SP, [107], q3, q4);
    RunTwo(p, CONN + ECTION + COLON_SP + [107], EEP_ALIVE, q4, q5);
    RunTwo(p, CONN + ECTION + COLON_SP + [107] + EEP_ALIVE, CRLF, q5, q6);
  }

  lemma BetweenOk(p: Parser)
    requires LineStart(p)
    ensures Between(p.core).errno.OK? && !Between(p.core).reset
  {
  }

  lemma ServerLineRun(p: Parser)
    requires LineStart(p)
    ensures Run(p, ServerLine()) ==
            Moved(p, Between(p.core).(state := ValueLws, hstate := General), 24).(index := 0)
  {
    hide Step, Run, Between;
    var c := Between(p.core).(state := Field, hstate := General);
    var q1, q2 := Moved(p, c, 1).(index := 0), Moved(p, c, 6).(index := 0);
    var q3, q4 := Moved(p, c.(state := DiscardWs), 8).(index := 0), Moved(p, c.(state := Value), 9).(index := 0);
    var q5, q6 := Moved(p, c.(state := Value), 22).(index := 0), Moved(p, c.(state := ValueLws), 24).(index := 0);
    BetweenOk(p);
    assert Run(p, [83]) == q1 by { NameStart(p, 83, General); RunSingle(p, 83); }
    assert Run(q1, ERVER) == q2 by { GeneralField(q1, ERVER); }
    assert Run(q2, COLON_SP) == q3 by { ColonSpace(q2); }
    assert Run(q3, [65]) == q4 by { ValueBegins(q3, 65, q4.core); }
    assert Run(q4, PACHE) == q5 by { GeneralValue(q4, PACHE); }
    assert Run(q5, CRLF) == q6 by { LineEnds(q5); }
    RunTwo(p, [83], ERVER, q1, q2);
    RunTwo(p, [83] + ERVER, COLON_SP, q2, q3);
    RunTwo(p, [83] + ERVER + COLON_SP, [65], q3, q4);
    RunTwo(p, [83] + ERVER + COLON_SP + [65], PACHE, q4, q5);
    RunTwo(p, [83] + ERVER + COLON_SP + [65] + PACHE, CRLF, q5, q6);
  }

  lemma LengthNameRun(p: Parser)
    requires LineStart(p)
    ensures Run(p, LengthName()) ==
            Moved(p, Between(p.core).(state := DiscardWs, hstate := ContentLength), 16).(index := 13)
  {
    hide Step, Run, Between;
    var c := Between(p.core).(state := Field);
    var q1 := Moved(p, c.(hstate := MatchContentLength), 4).(index := 3);
    var q2 := Moved(p, c.(hstate := ContentLength), 14).(index := 13);
    var q3 := Moved(p, c.(state := DiscardWs, hstate := ContentLength), 16).(index := 13);
    BetweenOk(p);
    assert Run(p, CONT) == q1 by { FourLetters(p, 116); }
    assert Run(q1, ENT_LENGTH) == q2 by { NameRecognised(q1, ENT_LENGTH); }
    assert Run(q2, COLON_SP) == q3 by { ColonSpace(q2); }
    RunTwo(p, CONT, ENT_LENGTH, q1, q2);
    RunTwo(p, CONT + ENT_LENGTH, COLON_SP, q2, q3);
  }

  /** What the fast path writes instead of walking the header. */
  function FastCore(c: Core): Core {
    c.(state := DiscardWs, hstate := ContentLength, flags := NO_FLAGS.(keepAlive := true),
       contentLength := ULLONG_MAX, major := 1, minor := 1, status := 200, reset := false)
  }

  /** The shortcut reaches the state of the slow machine; only the two counters differ. */
  lemma FastPathIsExact(p: Parser)
    requires p.core.state.StartRes? && p.core.errno.OK?
    ensures Run(p, Header()) == Moved(p, FastCore(p.core), 81).(index := 13)
  {
    hide Step, Run;
    var c := StatusLineCore(p.core);
    var k := c.(flags := c.flags.(keepAlive := true));
    var q1 := Moved(p, c, 17);
    var q2 := Moved(p, c.(state := ValueLws, hstate := KeepAlive), 41).(index := 9);
    var q3 := Moved(p, k.(state := ValueLws, hstate := General), 65).(index := 0);
    var q4 := Moved(p, FastCore(p.core), 81).(index := 13);
    assert Run(p, StatusLine()) == q1 by { StatusLineRun(p); }
    assert Run(q1, ConnectionLine()) == q2 by { ConnectionLineRun(q1); }
    assert Run(q2, ServerLine()) == q3 by { ServerLineRun(q2); }
    assert Run(q3, LengthName()) == q4 by { LengthNameRun(q3); }
    RunTwo(p, StatusLine(), ConnectionLine(), q1, q2);
    RunTwo(p, StatusLine() + ConnectionLine(), ServerLine(), q2, q3);
    RunTwo(p, StatusLine() + ConnectionLine() + ServerLine(), LengthName(), q3, q4);
  }
}
