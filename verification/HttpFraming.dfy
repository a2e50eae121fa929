/** Body framing: declared lengths are exact, and a message ends at its last byte. */
module HttpFraming {
  import opened HttpMachine
  import opened HttpRuns
  import opened HttpDigits
  import opened HttpFastPath
  import opened HttpEnds
  import opened HttpExecute

  // ---- decimal lengths

  ghost predicate ExpectsLength(c: Core) {
    c.state.DiscardWs? && c.hstate.ContentLength? && c.errno.OK? && !c.flags.contentLength
  }

  /** The parser after the digits of a content length, and spaces among and after them. */
  function LengthRead(p: Parser, d: seq<Byte>): Parser {
    Moved(p, p.core.(state := Value, reset := false, flags := p.core.flags.(contentLength := true),
                     contentLength := DecVal(Nums(d))), |d|).(index := 0)
  }

  /** content_length is exactly the value of the digits, spaces skipped; it never wraps and
      never is the value that stands for `absent`; longer numbers are refused. */
  lemma {:induction false} LengthExact(p: Parser, d: seq<Byte>)
    requires ExpectsLength(p.core) && d != [] && IsNum(d[0]) && NumsAndSpaces(d)
    ensures FitsDec(Nums(d)) ==> Run(p, d) == LengthRead(p, d) && DecVal(Nums(d)) < ULLONG_MAX
    ensures !FitsDec(Nums(d)) ==> Run(p, d).core.errno.InvalidContentLength?
    decreases |d|
  {
    hide Step, Run, DecVal, Nums, FitsDec;
    var a, x := d[..|d| - 1], d[|d| - 1];
    var n := Nums(a);
    assert d == a + [x];
    NumsStep(a, x);
    RunLast(p, d);
    if |d| == 1 {
      RunNil(p);
      assert a == [] && Nums(d) == [x];
      DecAppend([], x);
      FitsStep([x], x);
      ValueBegins(p, x, LengthRead(p, d).core);
    } else {
      LengthExact(p, a);
      NumsAreNum(a);
      LengthGoesOn(p, a, x);
    }
  }

  /** `1 2` is read as twelve. */
  lemma OneSpaceTwo(p: Parser)
    requires ExpectsLength(p.core)
    ensures Run(p, [49, SP, 50]).core.errno.OK? && Run(p, [49, SP, 50]).core.contentLength == 12
  {
    hide Step, Run, Nums, DecVal, FitsDec;
    Twelve();
    LengthExact(p, [49, SP, 50]);
  }

  lemma LengthGoesOn(p: Parser, a: seq<Byte>, x: Byte)
    requires Nums(a) != [] && (IsNum(x) || x == SP) && ExpectsLength(p.core)
    requires FitsDec(Nums(a)) ==> Run(p, a) == LengthRead(p, a) && DecVal(Nums(a)) < ULLONG_MAX
    requires !FitsDec(Nums(a)) ==> Run(p, a).core.errno.InvalidContentLength?
    ensures FitsDec(Nums(a + [x])) ==>
      Step(Run(p, a), x) == LengthRead(p, a + [x]) && DecVal(Nums(a + [x])) < ULLONG_MAX
    ensures !FitsDec(Nums(a + [x])) ==> Step(Run(p, a), x).core.errno.InvalidContentLength?
  {
    hide Step, Run, DecVal, Nums, FitsDec;
    var n, q := Nums(a), Run(p, a);
    NumsStep(a, x);
    if !FitsDec(n) { StoppedStep(q, x); }
    if x == SP {
      assert n + [] == n;
      if FitsDec(n) { SkipSpace(q); }
    } else {
      FitsStep(n, x);
      DecAppend(n, x);
      if FitsDec(n) { NextDigit(q, x); }
    }
  }

  lemma SkipSpace(q: Parser)
    requires q.core.state.Value? && q.core.hstate.ContentLength? && q.core.errno.OK?
    ensures Step(q, SP) == Moved(q, q.core.(reset := false), 1)
  {
    hide Step;
    ValueStep(q, SP);
  }

  lemma NextDigit(q: Parser, x: Byte)
    requires q.core.state.Value? && q.core.hstate.ContentLength? && q.core.errno.OK? && IsNum(x)
    ensures q.core.contentLength <= (ULLONG_MAX - 10) / 10 ==>
      && Step(q, x) == Moved(q, q.core.(reset := false, contentLength := q.core.contentLength * 10 + (x - 48)), 1)
      && q.core.contentLength * 10 + (x - 48) < ULLONG_MAX
    ensures q.core.contentLength > (ULLONG_MAX - 10) / 10 ==> Step(q, x).core.errno.InvalidContentLength?
  {
    hide Step;
    ValueStep(q, x);
  }

  /** What sprintf prints for a size. */
  function Digits(n: nat): (d: seq<Byte>)
    ensures d != [] && AllNum(d)
  {
    if n < 10 then [48 + n] else Digits(n / 10) + [48 + n % 10]
  }

  lemma {:induction false} DigitsDenote(n: nat)
    ensures DecVal(Digits(n)) == n
    ensures n / 10 <= (ULLONG_MAX - 10) / 10 ==> FitsDec(Digits(n))
  {
    var d := Digits(n);
    if n >= 10 {
      DigitsDenote(n / 10);
      assert d[..|d| - 1] == Digits(n / 10);
    } else {
      assert d[..|d| - 1] == [];
    }
  }

  lemma {:induction false} DigitsShort(n: nat, k: nat)
    requires n < Ten(k) && k > 0
    ensures |Digits(n)| <= k
    decreases k
  {
    if n >= 10 {
      assert Ten(k) == 10 * Ten(k - 1);
      DigitsShort(n / 10, k - 1);
    }
  }

  function Ten(k: nat): nat { if k == 0 then 1 else 10 * Ten(k - 1) }

  // ---- one response of the server

  /** The header block the server prints before a body of `n` bytes. */
  function Head(n: nat): seq<Byte> { Header() + Digits(n) + [CR, LF, CR, LF] }

  function Response(body: seq<Byte>): seq<Byte> { Head(|body|) + body }

  const RESPONSE_FLAGS := NO_FLAGS.(keepAlive := true, contentLength := true)

  /** The last byte of the header block. */
  lemma LastLf(p: Parser)
    requires p.core.state.HeadersAlmostDone? && p.core.errno.OK? && p.core.flags == RESPONSE_FLAGS
    ensures Run(p, [LF]) == p.(core := HeadersDone(p.core.(upgrade := false)), nread := 0)
  {
    hide Step, Run, MessageDone;
    NonBulkStep(p, LF);
    RunSingle(p, LF);
    DoneResets(p.core.(upgrade := false));
  }

  lemma DoneResets(c: Core)
    ensures HeadersDone(c).reset && !HeadersDone(c).state.Field? && !HeadersDone(c).state.Value?
    ensures HeadersDone(c) == HeadersDone(c.(reset := false))
    requires !c.state.Field? && !c.state.Value?
  {
    hide ShouldKeepAlive, NeedsEof;
  }

  /** The parser after a header block that announces `n` bytes. */
  function HeadCore(c: Core, n: nat): Core {
    HeadersDone(FastCore(c).(state := HeadersAlmostDone, upgrade := false, flags := RESPONSE_FLAGS, contentLength := n))
  }

  ghost predicate Fits(n: nat) { n / 10 <= (ULLONG_MAX - 10) / 10 }

  /** The header block up to its last byte. */
  function HeadButLast(n: nat): seq<Byte> { Header() + Digits(n) + CRLF + [CR] }

  /** The digits the server prints are read as the number they denote. */
  lemma DigitsRead(q: Parser, n: nat)
    requires ExpectsLength(q.core) && Fits(n)
    ensures n < ULLONG_MAX
    ensures Run(q, Digits(n)) ==
            Moved(q, q.core.(state := Value, reset := false, flags := q.core.flags.(contentLength := true),
                             contentLength := n), |Digits(n)|).(index := 0)
  {
    hide Step, Run, DecVal, Nums, FitsDec;
    DigitsDenote(n);
    NumsAreNum(Digits(n));
    LengthExact(q, Digits(n));
  }

  lemma HeadAlmost(p: Parser, n: nat)
    requires p.core.state.StartRes? && p.core.errno.OK? && Fits(n)
    ensures Run(p, HeadButLast(n)) ==
            Moved(p, FastCore(p.core).(state := HeadersAlmostDone, flags := RESPONSE_FLAGS, contentLength := n),
                  |HeadButLast(n)|).(index := 0)
    ensures n < ULLONG_MAX
  {
    hide Step, Run, Header, Digits, Nums, DecVal, FitsDec;
    var d := Digits(n);
    var q1 := Moved(p, FastCore(p.core), 81).(index := 13);
    assert Run(p, Header()) == q1 by { FastPathIsExact(p); }
    var q2 := Moved(q1, q1.core.(state := Value, flags := RESPONSE_FLAGS, contentLength := n), |d|).(index := 0);
    DigitsRead(q1, n);
    var q3 := Moved(q2, q2.core.(state := ValueLws), 2);
    assert Run(q2, CRLF) == q3 by { LineEnds(q2); }
    var q4 := Moved(q3, q3.core.(state := HeadersAlmostDone), 1);
    assert Run(q3, [CR]) == q4 by { CoreStep(q3, CR, q4.core); RunSingle(q3, CR); }
    RunTwo(p, Header(), d, q1, q2);
    RunTwo(p, Header() + d, CRLF, q2, q3);
    RunTwo(p, Header() + d + CRLF, [CR], q3, q4);
  }

  lemma HeadRun(p: Parser, n: nat)
    requires p.core.state.StartRes? && p.core.errno.OK? && Fits(n)
    ensures Run(p, Head(n)) == p.(core := HeadCore(p.core, n), index := 0, nread := 0)
    ensures n < ULLONG_MAX
  {
    hide Step, Run, HeadersDone, Header;
    HeadAlmost(p, n);
    var q := Run(p, HeadButLast(n));
    LastLf(q);
    RunTwo(p, HeadButLast(n), [LF], q, Run(q, [LF]));
    assert HeadButLast(n) + [LF] == Head(n);
  }

  /** The parser after a whole response. */
  function Answered(p: Parser, body: seq<Byte>): Parser {
    p.(core := FastCore(p.core).(state := StartRes, upgrade := false, flags := RESPONSE_FLAGS, contentLength := 0,
                                 completed := p.core.completed + 1, reset := body == []),
       index := 0, nread := 0, body := p.body + body)
  }

  lemma HeadCoreIs(c: Core, n: nat)
    requires n < ULLONG_MAX
    ensures var k := FastCore(c).(upgrade := false, flags := RESPONSE_FLAGS, contentLength := n, reset := true);
      HeadCore(c, n) ==
      if n == 0 then k.(state := StartRes, completed := c.completed + 1) else k.(state := BodyIdentity)
  {
  }

  /** Every response of the server is parsed: its body is delivered byte for byte and
      exactly one message completes. */
  lemma ResponseParsed(p: Parser, body: seq<Byte>)
    requires p.core.state.StartRes? && p.core.errno.OK? && Fits(|body|)
    ensures Run(p, Response(body)) == Answered(p, body)
  {
    hide Step, Run, HeadersDone, Header, FastCore, HeadCore;
    var n := |body|;
    var q := p.(core := HeadCore(p.core, n), index := 0, nread := 0);
    assert Run(p, Head(n)) == q && n < ULLONG_MAX by { HeadRun(p, n); }
    HeadCoreIs(p.core, n);
    FastCoreOk(p.core);
    if n == 0 {
      RunNil(q);
    } else {
      BodyRun(q, body);
      LastByte(q.core);
    }
    RunTwo(p, Head(n), body, q, Run(q, body));
    assert n == 0 ==> body == [] && p.body + body == p.body;
  }

  lemma FastCoreOk(c: Core)
    ensures FastCore(c).errno == c.errno && FastCore(c).completed == c.completed
    ensures FastCore(c).major == 1 && FastCore(c).minor == 1 && FastCore(c).status == 200
  {
  }

  lemma LastByte(c: Core)
    requires c.state.BodyIdentity? && c.contentLength > 0 && c.major == 1 && c.minor == 1 && !c.flags.close
    ensures AfterBody(c, c.contentLength) ==
            c.(state := StartRes, contentLength := 0, reset := false, completed := c.completed + 1)
  {
  }

  // ---- when the completion comes

  lemma BeforeLastByte(p: Parser, body: seq<Byte>)
    requires p.core.state.StartRes? && p.core.errno.OK? && Fits(|body|)
    ensures var s := Response(body); s != [] && Run(p, s[..|s| - 1]).core.completed == p.core.completed
  {
    hide Step, Run, Header, HeadCore, FastCore, HeadersDone;
    var n, s := |body|, Response(body);
    FastCoreOk(p.core);
    if n == 0 {
      HeadAlmost(p, 0);
      assert s[..|s| - 1] == HeadButLast(0);
    } else {
      var q := p.(core := HeadCore(p.core, n), index := 0, nread := 0);
      assert Run(p, Head(n)) == q && n < ULLONG_MAX by { HeadRun(p, n); }
      HeadCoreIs(p.core, n);
      var b := body[..n - 1];
      assert s[..|s| - 1] == Head(n) + b;
      if n == 1 { RunNil(q); } else { BodyRun(q, b); }
      RunTwo(p, Head(n), b, q, Run(q, b));
    }
  }

  /** on_message_complete fires at the last byte of a response and not before. */
  lemma CompletesAtLastByte(p: Parser, body: seq<Byte>, k: nat)
    requires p.core.state.StartRes? && p.core.errno.OK? && Fits(|body|) && k < |Response(body)|
    ensures Run(p, Response(body)[..k]).core.completed == p.core.completed
    ensures Run(p, Response(body)).core.completed == p.core.completed + 1
  {
    hide Step, Run, Header, HeadCore, FastCore;
    ResponseParsed(p, body);
    var s := Response(body);
    var a := s[..|s| - 1];
    BeforeLastByte(p, body);
    assert a == s[..k] + a[k..];
    RunConcat(p, s[..k], a[k..]);
    RunCompletes(p, s[..k]);
    RunCompletes(Run(p, s[..k]), a[k..]);
  }

  // ---- the server's stream, in any pieces

  lemma {:induction false} PlainConcat(p: Parser, a: seq<Byte>, b: seq<Byte>)
    requires Plain(p, a) && Plain(Run(p, a), b)
    ensures Plain(p, a + b)
    decreases a
  {
    hide Step, Run;
    if a == [] {
      RunNil(p);
      assert a + b == b;
    } else {
      RunOne(p, a);
      assert (a + b)[1..] == a[1..] + b;
      if p.core.errno.OK? { PlainConcat(Step(p, a[0]), a[1..], b); }
    }
  }

  predicate AllHeaderChars(s: seq<Byte>) { forall k :: 0 <= k < |s| ==> IsHeaderChar(s[k]) }

  /** A short stretch of header bytes in which no message ends. */
  lemma {:induction false} ShortStretch(p: Parser, s: seq<Byte>)
    requires AllHeaderChars(s) && 2 * (p.nread + |s|) <= MAX_HEADER_SIZE
    requires Run(p, s).core.completed == p.core.completed
    ensures Plain(p, s)
    decreases s
  {
    hide Step, Run, IsHeaderChar;
    if s != [] {
      RunOne(p, s);
      var q := Step(p, s[0]);
      StepCompletes(p, s[0]);
      RunCompletes(q, s[1..]);
      ShortStretch(q, s[1..]);
    }
  }

  lemma {:induction false} BodyStretch(p: Parser, s: seq<Byte>)
    requires p.core.errno.OK? && p.core.state.BodyIdentity? && |s| <= p.core.contentLength
    requires !p.core.upgrade && 2 * p.nread <= MAX_HEADER_SIZE
    ensures Plain(p, s)
    decreases s
  {
    hide Step, Run, IsHeaderChar;
    if s != [] {
      BodyStep(p, s[0]);
      var q := Step(p, s[0]);
      if |s| == 1 { assert s[1..] == []; } else { BodyStretch(q, s[1..]); }
    }
  }

  lemma HeaderChars(n: nat)
    ensures AllHeaderChars(HeadButLast(n)) && |HeadButLast(n)| == 84 + |Digits(n)|
  {
    assert AllHeaderChars(StatusLine());
    assert AllHeaderChars(ConnectionLine());
    assert AllHeaderChars(ServerLine());
    assert AllHeaderChars(LengthName());
  }

  lemma DigitsFew(n: nat)
    requires Fits(n)
    ensures |Digits(n)| <= 20
  {
    assert Ten(5) == 100_000;
    assert Ten(10) == 100_000 * Ten(5);
    assert Ten(15) == 100_000 * Ten(10);
    assert Ten(20) == 100_000 * Ten(15);
    DigitsShort(n, 20);
  }

  lemma ResponsePlain(p: Parser, body: seq<Byte>)
    requires p.core.state.StartRes? && p.core.errno.OK? && Fits(|body|) && p.nread == 0
    ensures Plain(p, Response(body))
  {
    hide Step, Run, Plain, Header, HeadersDone, FastCore, AllHeaderChars;
    var n := |body|;
    var a := HeadButLast(n);
    HeaderChars(n);
    DigitsFew(n);
    HeadAlmost(p, n);
    FastCoreOk(p.core);
    ShortStretch(p, a);
    var q := Run(p, a);
    LastLf(q);
    var r := Run(q, [LF]);
    LfPlain(q);
    PlainConcat(p, a, [LF]);
    RunTwo(p, a, [LF], q, r);
    assert a + [LF] == Head(n);
    HeadCoreAgain(q.core.(upgrade := false));
    if n > 0 {
      BodyStretch(r, body);
    } else {
      PlainNil(r);
    }
    PlainConcat(p, Head(n), body);
  }

  lemma PlainNil(r: Parser)
    ensures Plain(r, [])
  {
  }

  lemma HeadCoreAgain(c: Core)
    requires c.flags == RESPONSE_FLAGS && !c.upgrade && c.contentLength < ULLONG_MAX
    ensures !HeadersDone(c).upgrade
    ensures HeadersDone(c).contentLength == c.contentLength && HeadersDone(c).errno == c.errno
    ensures c.contentLength > 0 ==> HeadersDone(c).state.BodyIdentity?
  {
    hide ShouldKeepAlive;
  }

  lemma LfPlain(q: Parser)
    requires q.core.state.HeadersAlmostDone? && q.core.errno.OK? && q.core.flags == RESPONSE_FLAGS
    requires q.core.contentLength < ULLONG_MAX && 2 * (q.nread + 1) <= MAX_HEADER_SIZE
    ensures Plain(q, [LF])
  {
    hide Step, Run, HeadersDone;
    LastLf(q);
    RunSingle(q, LF);
    HeadCoreAgain(q.core.(upgrade := false));
    assert [LF][1..] == [];
  }

  function Stream(bodies: seq<seq<Byte>>): (r: seq<Byte>) {
    if bodies == [] then [] else Response(bodies[0]) + Stream(bodies[1..])
  }

  function Concat(bodies: seq<seq<Byte>>): (r: seq<Byte>) {
    if bodies == [] then [] else bodies[0] + Concat(bodies[1..])
  }

  /** Any number of responses back to back. */
  lemma {:induction false} StreamParsed(p: Parser, bodies: seq<seq<Byte>>)
    requires p.core.state.StartRes? && p.core.errno.OK? && p.nread == 0
    requires forall i :: 0 <= i < |bodies| ==> Fits(|bodies[i]|)
    ensures Plain(p, Stream(bodies))
    ensures var q := Run(p, Stream(bodies));
      && q.core.errno.OK? && q.core.state.StartRes?
      && q.core.completed == p.core.completed + |bodies|
      && q.body == p.body + Concat(bodies)
    decreases bodies
  {
    hide Step, Run, Plain, Response, Fits;
    if bodies == [] {
      RunNil(p);
      PlainNil(p);
    } else {
      assert Fits(|bodies[0]|);
      ResponseParsed(p, bodies[0]);
      ResponsePlain(p, bodies[0]);
      FastCoreOk(p.core);
      var q := Answered(p, bodies[0]);
      StreamParsed(q, bodies[1..]);
      PlainConcat(p, Response(bodies[0]), Stream(bodies[1..]));
      RunTwo(p, Response(bodies[0]), Stream(bodies[1..]), q, Run(q, Stream(bodies[1..])));
      assert p.body + bodies[0] + Concat(bodies[1..]) == p.body + Concat(bodies);
    }
  }

  /** The client counts every response of the server once and receives every body, however
      the network cuts the stream, unless a piece cuts a header badly. */
  method ClientReads(pieces: seq<seq<Byte>>, rests: seq<seq<Byte>>, ghost bodies: seq<seq<Byte>>)
    returns (p: HttpParser, overran: bool)
    requires |rests| == |pieces| && forall i :: 0 <= i < |pieces| ==> pieces[i] != []
    requires forall i :: 0 <= i < |bodies| ==> Fits(|bodies[i]|)
    requires Join(pieces) == Stream(bodies)
    ensures overran <==> CutBadly(pieces, rests, |pieces|)
    ensures !overran ==> p.st.core.errno.OK? && p.st.core.completed == |bodies| && p.st.body == Concat(bodies)
  {
    hide Step, Run, Plain, Response, Fits, Header;
    StreamParsed(INITIAL, bodies);
    p, overran := Feed(pieces, rests);
  }
}
