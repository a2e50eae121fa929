/** What whole runs of bytes do to the byte machine. */
module HttpRuns {
  import opened HttpMachine

  lemma RunOne(p: Parser, s: seq<Byte>)
    requires s != []
    ensures Run(p, s) == Run(Step(p, s[0]), s[1..])
  {
    hide Step;
  }

  lemma RunNil(p: Parser)
    ensures Run(p, []) == p
  {
    hide Step;
  }

  lemma RunSingle(p: Parser, ch: Byte)
    ensures Run(p, [ch]) == Step(p, ch)
  {
    hide Step;
    RunOne(p, [ch]);
    RunNil(Step(p, ch));
  }

  lemma RunTwo(p: Parser, a: seq<Byte>, b: seq<Byte>, q: Parser, r: Parser)
    requires Run(p, a) == q && Run(q, b) == r
    ensures Run(p, a + b) == r
  {
    hide Step;
    RunConcat(p, a, b);
  }

  /** The parser after `n` counted bytes that changed its core. */
  function Moved(p: Parser, c: Core, n: nat): Parser { p.(core := c, nread := p.nread + n) }

  // ---- single steps, by kind of state

  lemma CoreStep(p: Parser, ch: Byte, c: Core)
    requires !BulkState(p.core.state) && ParsingHeader(p.core.state) && p.core.errno.OK?
    requires c == OneByte(p.core, ch) && !c.reset && !c.state.Field? && !c.state.Value?
    ensures Step(p, ch) == Moved(p, c, 1)
  {
    hide OneByte, FieldByte, ValueByte, BodyByte;
  }

  lemma LineStep(p: Parser, ch: Byte, c: Core)
    requires LineState(p.core.state) && p.core.errno.OK?
    requires c == LineByte(p.core.(reset := false), ch) && !c.reset && !BulkState(c.state)
    ensures Step(p, ch) == Moved(p, c, 1)
  {
    hide LineByte, ChunkByte, HeaderByte, Step;
    CoreStep(p, ch, c);
  }

  lemma FieldStep(p: Parser, ch: Byte)
    requires p.core.state.Field? && p.core.errno.OK?
    ensures Step(p, ch) == FieldByte(p, ch).(nread := p.nread + 1)
  {
    hide OneByte, ValueByte, BodyByte;
  }

  lemma ValueStep(p: Parser, ch: Byte)
    requires p.core.state.Value? && p.core.errno.OK?
    ensures Step(p, ch) == ValueByte(p, ch).(nread := p.nread + 1)
  {
    hide OneByte, FieldByte, BodyByte;
  }

  // ---- header names and values that mean nothing to the parser

  lemma {:induction false} GeneralField(p: Parser, w: seq<Byte>)
    requires p.core.state.Field? && p.core.hstate.General? && p.core.errno.OK? && w != []
    requires forall k :: 0 <= k < |w| ==> Tok(w[k]) != 0
    ensures Run(p, w) == Moved(p, p.core.(reset := false), |w|)
    decreases w
  {
    hide Step;
    RunOne(p, w);
    FieldStep(p, w[0]);
    var q := Moved(p, p.core.(reset := false), 1);
    if |w| == 1 { RunNil(q); } else { GeneralField(q, w[1..]); }
  }

  predicate Plainchar(ch: Byte) { IsHeaderChar(ch) && ch != CR && ch != LF }

  lemma {:induction false} GeneralValue(p: Parser, w: seq<Byte>)
    requires p.core.state.Value? && p.core.hstate.General? && p.core.errno.OK? && w != []
    requires forall k :: 0 <= k < |w| ==> Plainchar(w[k])
    ensures Run(p, w) == Moved(p, p.core.(reset := false), |w|)
    decreases w
  {
    hide Step;
    RunOne(p, w);
    ValueStep(p, w[0]);
    var q := Moved(p, p.core.(reset := false), 1);
    if |w| == 1 { RunNil(q); } else { GeneralValue(q, w[1..]); }
  }

  // ---- the header names and values the parser looks for

  /** The name a matching state spells. */
  function FieldWord(h: HeaderState): string {
    match h
    case MatchConnection => CONNECTION
    case MatchProxyConnection => PROXY_CONNECTION
    case MatchContentLength => CONTENT_LENGTH
    case MatchTransferEncoding => TRANSFER_ENCODING
    case MatchUpgrade => UPGRADE
    case _ => ""
  }

  function FieldDone(h: HeaderState): HeaderState {
    match h
    case MatchConnection => Connection
    case MatchProxyConnection => Connection
    case MatchContentLength => ContentLength
    case MatchTransferEncoding => TransferEncoding
    case MatchUpgrade => Upgrade
    case _ => General
  }

  lemma NameLetter(p: Parser, ch: Byte)
    requires p.core.state.Field? && p.index + 1 < |FieldWord(p.core.hstate)|
    requires Tok(ch) != 0 && Tok(ch) == FieldWord(p.core.hstate)[p.index + 1] as int
    ensures FieldByte(p, ch) == p.(index := p.index + 1, core := p.core.(reset := false,
      hstate := if p.index + 2 == |FieldWord(p.core.hstate)| then FieldDone(p.core.hstate) else p.core.hstate))
  {
    hide Tok;
  }

  /** The rest of a header name, in any letter case, is recognised exactly at its end. */
  lemma {:induction false} NameRecognised(p: Parser, w: seq<Byte>)
    requires p.core.state.Field? && p.core.errno.OK? && w != []
    requires var word := FieldWord(p.core.hstate);
      p.index + |w| + 1 == |word| &&
      forall k :: 0 <= k < |w| ==> Tok(w[k]) != 0 && Tok(w[k]) == word[p.index + 1 + k] as int
    ensures Run(p, w) ==
            Moved(p, p.core.(hstate := FieldDone(p.core.hstate), reset := false), |w|).(index := p.index + |w|)
    decreases w
  {
    hide Step, FieldByte, Tok, FieldWord;
    RunOne(p, w);
    FieldStep(p, w[0]);
    assert Tok(w[0]) == FieldWord(p.core.hstate)[p.index + 1 + 0] as int;
    NameLetter(p, w[0]);
    var q := FieldByte(p, w[0]).(nread := p.nread + 1);
    if |w| == 1 {
      RunNil(q);
    } else {
      assert forall k :: 0 <= k < |w| - 1 ==> w[1..][k] == w[k + 1];
      NameRecognised(q, w[1..]);
    }
  }

  function ValueWord(h: HeaderState): string {
    match h
    case MatchChunked => CHUNKED
    case MatchKeepAlive => KEEP_ALIVE
    case MatchClose => CLOSE
    case MatchConnUpgrade => UPGRADE
    case _ => ""
  }

  function ValueDone(h: HeaderState): HeaderState {
    match h
    case MatchChunked => Chunked
    case MatchKeepAlive => KeepAlive
    case MatchClose => Close
    case MatchConnUpgrade => ConnUpgrade
    case _ => General
  }

  lemma ValueLetter(p: Parser, ch: Byte)
    requires p.core.state.Value? && p.index + 1 < |ValueWord(p.core.hstate)|
    requires Plainchar(ch) && Lower(ch) == ValueWord(p.core.hstate)[p.index + 1] as int
    ensures ValueByte(p, ch) == p.(index := p.index + 1, core := p.core.(reset := false,
      hstate := if p.index + 2 == |ValueWord(p.core.hstate)| then ValueDone(p.core.hstate) else p.core.hstate))
  {
    hide Lower, Tok;
  }

  /** The rest of a header value, in any letter case, is recognised exactly at its end. */
  lemma {:induction false} ValueRecognised(p: Parser, w: seq<Byte>)
    requires p.core.state.Value? && p.core.errno.OK? && w != []
    requires var word := ValueWord(p.core.hstate);
      p.index + |w| + 1 == |word| &&
      forall k :: 0 <= k < |w| ==> Plainchar(w[k]) && Lower(w[k]) == word[p.index + 1 + k] as int
    ensures Run(p, w) ==
            Moved(p, p.core.(hstate := ValueDone(p.core.hstate), reset := false), |w|).(index := p.index + |w|)
    decreases w
  {
    hide Step, ValueByte, Lower, ValueWord, Plainchar;
    RunOne(p, w);
    ValueStep(p, w[0]);
    assert Lower(w[0]) == ValueWord(p.core.hstate)[p.index + 1 + 0] as int;
    ValueLetter(p, w[0]);
    var q := ValueByte(p, w[0]).(nread := p.nread + 1);
    if |w| == 1 {
      RunNil(q);
    } else {
      assert forall k :: 0 <= k < |w| - 1 ==> w[1..][k] == w[k + 1];
      ValueRecognised(q, w[1..]);
    }
  }

  /** An error stops the machine. */
  lemma {:induction false} Stopped(r: Parser, s: seq<Byte>)
    requires !r.core.errno.OK?
    ensures Run(r, s) == r
    decreases s
  {
    if s != [] { Stopped(r, s[1..]); }
  }

  /** The step of the byte machine in a state that takes single bytes. */
  lemma NonBulkStep(r: Parser, ch: Byte)
    requires r.core.errno.OK? && !BulkState(r.core.state)
    ensures var c := OneByte(r.core, ch); var q := Step(r, ch);
      && q.core == c && q.body == r.body
      && q.index == (if c.state.Field? || c.state.Value? then 0 else r.index)
      && q.nread == (if c.reset then 0 else Count(r))
  {
    hide OneByte, FieldByte, ValueByte, BodyByte;
  }

  lemma BodyStep(r: Parser, ch: Byte)
    requires r.core.errno.OK? && BulkState(r.core.state) && !r.core.state.Field? && !r.core.state.Value?
    ensures Step(r, ch) == BodyByte(r, ch)
  {
    hide OneByte, FieldByte, ValueByte, ShouldKeepAlive;
  }

  lemma RunLast(p: Parser, s: seq<Byte>)
    requires s != []
    ensures Run(p, s) == Step(Run(p, s[..|s| - 1]), s[|s| - 1])
  {
    hide Step, Run;
    assert s == s[..|s| - 1] + [s[|s| - 1]];
    RunConcat(p, s[..|s| - 1], [s[|s| - 1]]);
    RunSingle(Run(p, s[..|s| - 1]), s[|s| - 1]);
  }

  lemma StoppedStep(q: Parser, x: Byte)
    requires !q.core.errno.OK?
    ensures Step(q, x) == q
  {
    hide FieldByte, ValueByte, BodyByte, OneByte;
  }
}
