/** The books of a connection: on every stream, the bytes delivered and the bytes still
    owed are the lengths the stream declared. */
module HttpLedger {
  import opened HttpMachine
  import opened HttpRuns
  import opened HttpDigits
  import opened HttpEnds
  import opened HttpFastPath
  import opened HttpExecute

  /** Bytes of a declared body or chunk that have not come yet. */
  function Owing(c: Core): nat { if c.state.BodyIdentity? || c.state.ChunkData? then c.contentLength else 0 }

  predicate InBody(s: State) { s.BodyIdentity? || s.ChunkData? || s.BodyIdentityEof? }

  /** The parser; the digits of the length read last in this message; the lengths of all
      bodies and chunks announced; and the bytes of bodies without a length. */
  datatype Ledger = Ledger(p: Parser, text: seq<Byte>, lengths: seq<nat>, open: nat)

  /** Digits of a Content-Length value, or of a chunk size. */
  function TextAfter(c: Core, text: seq<Byte>, ch: Byte): seq<Byte> {
    if c.state.StartRes? then []
    else if (c.state.DiscardWs? && c.hstate.ContentLength? && IsNum(ch)) || c.state.ChunkSizeStart? then [ch]
    else if (c.state.Value? && c.hstate.ContentLength? && IsNum(ch)) || (c.state.ChunkSize? && Unhex(ch) >= 0)
    then text + [ch]
    else text
  }

  /** A declared body or a chunk begins. */
  predicate Announces(c: Core, d: Core) {
    (d.state.BodyIdentity? && !c.state.BodyIdentity?) || (d.state.ChunkData? && !c.state.ChunkData?)
  }

  function Booked(l: Ledger, ch: Byte): Ledger {
    var q := Step(l.p, ch);
    if !l.p.core.errno.OK? then l
    else
      Ledger(q, TextAfter(l.p.core, l.text, ch),
             if !Announces(l.p.core, q.core) then l.lengths
             else l.lengths + [if q.core.state.ChunkData? then HexVal(l.text) else DecVal(l.text)],
             l.open + if l.p.core.state.BodyIdentityEof? then 1 else 0)
  }

  function Sum(ns: seq<nat>): nat { if ns == [] then 0 else Sum(ns[..|ns| - 1]) + ns[|ns| - 1] }

  /** States of the status line and the header lines of a message. */
  predicate HeadState(s: State) {
    !(s.Dead? || s.StartRes? || InBody(s) || ChunkState(s))
  }

  /** What is known about the digits read: the parser's length is the number they denote. */
  ghost predicate TextOk(c: Core, text: seq<Byte>) {
    && (HeadState(c.state) && !c.flags.trailing ==>
          && (c.flags.contentLength <==> text != [])
          && c.contentLength == if text == [] then ULLONG_MAX else DecVal(text))
    && (HeadState(c.state) && !c.flags.trailing && text != [] ==> DecVal(text) < ULLONG_MAX)
    && (c.state.Value? && c.hstate.ContentLength? ==> c.flags.contentLength)
    && (c.state.ChunkSize? || c.state.ChunkParameters? || c.state.ChunkSizeAlmostDone? ==>
          c.contentLength == HexVal(text))
    && (ChunkState(c.state) || c.state.ChunkData? ==> !c.flags.trailing)
  }

  /** The books balance, from `base` bytes on; no length wrapped or is the value for `absent`. */
  ghost predicate Balanced(l: Ledger, base: int) {
    && |l.p.body| + Owing(l.p.core) == base + Sum(l.lengths) + l.open
    && forall i :: 0 <= i < |l.lengths| ==> 0 < l.lengths[i] < ULLONG_MAX
  }

  ghost predicate LedgerOk(l: Ledger, base: int) {
    Balanced(l, base) && (l.p.core.errno.OK? ==> CoreOk(l.p.core) && TextOk(l.p.core, l.text))
  }

  // ---- one byte, by kind of state

  ghost predicate KeepsText(c: Core, d: Core, text: seq<Byte>, ch: Byte) {
    d.errno.OK? ==> TextOk(d, TextAfter(c, text, ch))
  }

  lemma LineKeeps(c: Core, ch: Byte)
    requires LineState(c.state)
    ensures var d := LineByte(c, ch);
      && (LineState(d.state) || d.state.FieldStart?)
      && (c.state.StartRes? ==> d.flags == NO_FLAGS && d.contentLength == ULLONG_MAX)
      && (!c.state.StartRes? ==> d.flags == c.flags && d.contentLength == c.contentLength)
      && (d.state.Dead? ==> c.state.Dead?) && (d.state.StartRes? ==> c.state.StartRes?)
      && (c.state.Dead? ==> d.state.Dead?)
  {
  }

  lemma LineText(c: Core, text: seq<Byte>, ch: Byte)
    requires LineState(c.state) && TextOk(c, text) && c.errno.OK?
    ensures KeepsText(c, LineByte(c, ch), text, ch) && !InBody(LineByte(c, ch).state)
  {
    hide DecVal, HexVal, LineByte;
    LineKeeps(c, ch);
  }

  lemma SizeText(c: Core, text: seq<Byte>, ch: Byte)
    requires (c.state.ChunkSizeStart? || c.state.ChunkSize?) && TextOk(c, text) && LengthOk(c) && c.errno.OK?
    ensures KeepsText(c, ChunkByte(c, ch), text, ch) && !InBody(ChunkByte(c, ch).state)
  {
    hide DecVal, HexVal;
    HexAppend(text, ch);
  }

  lemma ChunkText(c: Core, text: seq<Byte>, ch: Byte)
    requires ChunkState(c.state) && TextOk(c, text) && LengthOk(c) && c.errno.OK?
    ensures KeepsText(c, ChunkByte(c, ch), text, ch)
    ensures var d := ChunkByte(c, ch); InBody(d.state) ==> d.state.ChunkData? && d.contentLength == HexVal(text) && d.errno.OK?
  {
    hide DecVal, HexVal, Unhex;
    if c.state.ChunkSizeStart? || c.state.ChunkSize? { SizeText(c, text, ch); }
  }

  /** After a header block: a declared body is announced with the length that was read. */
  ghost predicate HeadText(c: Core, d: Core, text: seq<Byte>, ch: Byte) {
    && KeepsText(c, d, text, ch)
    && !d.state.ChunkData?
    && (d.state.BodyIdentity? ==> d.contentLength == DecVal(text) && d.errno.OK?)
  }

  lemma HeadersDoneText(c: Core, text: seq<Byte>)
    requires HeadState(c.state) && !c.flags.trailing && TextOk(c, text)
    ensures TextOk(HeadersDone(c), text) && !HeadersDone(c).state.ChunkData?
    ensures HeadersDone(c).state.BodyIdentity? ==> HeadersDone(c).contentLength == DecVal(text)
    ensures HeadersDone(c).errno == c.errno
  {
    hide DecVal, HexVal, ShouldKeepAlive, NeedsEof;
  }

  lemma BlankText(c: Core, text: seq<Byte>, ch: Byte)
    requires HeadState(c.state) && TextOk(c, text) && !BulkState(c.state)
    ensures var d := OnHeadersAlmostDone(c, ch);
      && (d.errno.OK? ==> TextOk(d, text)) && !d.state.ChunkData?
      && (d.state.BodyIdentity? ==> d.contentLength == DecVal(text) && (c.errno.OK? ==> d.errno.OK?))
  {
    hide DecVal, HexVal, ShouldKeepAlive, HeadersDone;
    if !c.flags.trailing {
      HeadersDoneText(c.(upgrade := c.flags.upgrade && c.flags.connUpgrade && c.status == 101), text);
    }
  }

  lemma FieldStartText(c: Core, text: seq<Byte>, ch: Byte)
    requires HeadState(c.state) && TextOk(c, text) && !BulkState(c.state)
    ensures var d := OnFieldStart(c, ch);
      && (d.errno.OK? ==> TextOk(d, text)) && !d.state.ChunkData?
      && (d.state.BodyIdentity? ==> d.contentLength == DecVal(text) && (c.errno.OK? ==> d.errno.OK?))
  {
    hide DecVal, HexVal, Tok, OnHeadersAlmostDone;
    BlankText(c, text, ch);
  }

  lemma FinishText(c: Core, text: seq<Byte>)
    requires TextOk(c, text)
    ensures TextOk(FinishHeader(c), text)
  {
    hide DecVal, HexVal;
  }

  lemma ValueStartText(c: Core, text: seq<Byte>, ch: Byte)
    requires (c.state.DiscardWs? || (c.state.ValueLws? && !IsNum(ch))) && TextOk(c, text) && c.errno.OK?
    ensures var d := OnValueStart(c, ch);
      d.errno.OK? ==> TextOk(d, if c.state.DiscardWs? && c.hstate.ContentLength? && IsNum(ch) then [ch] else text)
  {
    hide DecVal, HexVal, Lower;
    DecAppend([], ch);
  }

  lemma HeaderText(c: Core, text: seq<Byte>, ch: Byte)
    requires HeadState(c.state) && !BulkState(c.state) && !LineState(c.state) && TextOk(c, text) && c.errno.OK?
    ensures HeadText(c, HeaderByte(c, ch), text, ch)
  {
    hide DecVal, HexVal, Tok, Lower, OnHeadersAlmostDone, OnFieldStart, OnValueStart, FinishHeader, TextOk;
    FinishText(c, text);
    FieldStartText(c, text, ch);
    FinishKeeps(c);
    FieldStartText(FinishHeader(c), text, ch);
    BlankText(c, text, ch);
    PlainText(c, text, ch);
    if c.state.DiscardWs? || (c.state.ValueLws? && !IsNum(ch)) {
      ValueStartText(c, text, ch);
      ValueStartKeeps(c, ch);
    }
  }

  /** Moves between header states that touch nothing else. */
  lemma PlainText(c: Core, text: seq<Byte>, ch: Byte)
    requires HeadState(c.state) && TextOk(c, text)
    ensures TextOk(c.(state := DiscardWsAlmostDone), text) && TextOk(c.(state := DiscardLws), text)
    ensures TextOk(c.(state := DiscardWs), text) && TextOk(c.(state := ValueLws), text)
  {
    hide DecVal, HexVal;
  }

  lemma FieldText(p: Parser, text: seq<Byte>, ch: Byte)
    requires p.core.state.Field? && TextOk(p.core, text) && p.core.errno.OK?
    ensures KeepsText(p.core, FieldByte(p, ch).core, text, ch)
    ensures !InBody(FieldByte(p, ch).core.state) && FieldByte(p, ch).body == p.body
  {
    hide DecVal, HexVal, Tok, FieldState;
  }

  lemma ValueText(p: Parser, text: seq<Byte>, ch: Byte)
    requires p.core.state.Value? && TextOk(p.core, text) && p.core.errno.OK?
    ensures KeepsText(p.core, ValueByte(p, ch).core, text, ch)
    ensures !InBody(ValueByte(p, ch).core.state) && ValueByte(p, ch).body == p.body
  {
    hide DecVal, HexVal, ValueIndex, ValueState, IsHeaderChar, TokenFlags;
    DecAppend(text, ch);
    NeverLength(p.core.hstate, ValueIndex(p.core.hstate, p.index, ch), ch);
    TokenText(p.core.hstate, p.core.flags, ch);
  }

  lemma TokenText(h: HeaderState, f: Flags, ch: Byte)
    ensures TokenFlags(h, f, ch).trailing == f.trailing && TokenFlags(h, f, ch).contentLength == f.contentLength
  {
  }

  lemma NeverLength(h: HeaderState, index: nat, ch: Byte)
    ensures !ValueState(h, index, ch).ContentLength?
  {
    hide Lower, Tok;
  }

  lemma BodyBooks(p: Parser, text: seq<Byte>, ch: Byte)
    requires InBody(p.core.state) && LengthOk(p.core) && TextOk(p.core, text) && p.core.errno.OK?
    ensures var q := BodyByte(p, ch);
      && q.body == p.body + [ch] && q.core.errno.OK?
      && TextOk(q.core, text) && CoreOk(q.core)
      && Owing(q.core) == (if p.core.state.BodyIdentityEof? then 0 else Owing(p.core) - 1)
      && !Announces(p.core, q.core)
      && (p.core.state.BodyIdentityEof? ==> q.core.state.BodyIdentityEof?)
  {
    hide DecVal, HexVal, ShouldKeepAlive;
  }

  /** A step outside a body, summed up. */
  lemma QuietBooks(p: Parser, text: seq<Byte>, ch: Byte)
    requires !InBody(p.core.state) && CoreOk(p.core) && TextOk(p.core, text) && p.core.errno.OK?
    ensures var q := Step(p, ch);
      && q.body == p.body
      && (q.core.errno.OK? ==> CoreOk(q.core) && TextOk(q.core, TextAfter(p.core, text, ch)))
      && (q.core.state.ChunkData? ==> q.core.contentLength == HexVal(text) && q.core.errno.OK?)
      && (q.core.state.BodyIdentity? ==> q.core.contentLength == DecVal(text) && q.core.errno.OK?)
  {
    hide Step, DecVal, HexVal, OneByte, FieldByte, ValueByte, TextOk, TextAfter, CoreOk;
    if p.core.state.Field? {
      FieldStep(p, ch);
      NameOk(p, ch);
      FieldText(p, text, ch);
    } else if p.core.state.Value? {
      ValueStep(p, ch);
      ValueText(p, text, ch);
      ValueKeepsOk(p, ch);
    } else {
      NonBulkStep(p, ch);
      OneByteOk(p.core, ch);
      CoreIsLengthOk(p.core);
      OneByteText(p.core, text, ch);
    }
  }

  lemma ValueKeepsOk(p: Parser, ch: Byte)
    requires p.core.state.Value? && CoreOk(p.core) && p.core.errno.OK?
    ensures var q := ValueByte(p, ch); q.core.errno.OK? ==> CoreOk(q.core)
  {
    hide ValueByte;
    if ch == CR || ch == LF { ValueEnds(p, ch); } else { ValueOk(p, ch); }
  }

  lemma OneByteText(c: Core, text: seq<Byte>, ch: Byte)
    requires !BulkState(c.state) && LengthOk(c) && TextOk(c, text) && c.errno.OK?
    ensures HeadOrChunk(c, OneByte(c, ch), text, ch)
  {
    hide DecVal, HexVal, LineByte, ChunkByte, HeaderByte, TextOk;
    var d := c.(reset := false);
    assert TextOk(d, text) by { ResetText(c, text); }
    if LineState(c.state) { LineText(d, text, ch); }
    else if ChunkState(c.state) { ChunkText(d, text, ch); }
    else { HeaderText(d, text, ch); }
  }

  ghost predicate HeadOrChunk(c: Core, d: Core, text: seq<Byte>, ch: Byte) {
    && KeepsText(c, d, text, ch)
    && (d.state.ChunkData? ==> d.contentLength == HexVal(text) && d.errno.OK?)
    && (d.state.BodyIdentity? ==> d.contentLength == DecVal(text) && d.errno.OK?)
  }

  lemma ResetText(c: Core, text: seq<Byte>)
    requires TextOk(c, text)
    ensures TextOk(c.(reset := false), text)
  {
  }

  /** Every byte of every stream keeps the books balanced. */
  lemma BooksBalance(l: Ledger, base: int, ch: Byte)
    requires LedgerOk(l, base)
    ensures LedgerOk(Booked(l, ch), base)
  {
    hide Step, DecVal, HexVal, TextOk, CoreOk, TextAfter;
    var p := l.p;
    if p.core.errno.OK? {
      if InBody(p.core.state) {
        assert LengthOk(p.core) by { CoreIsLengthOk(p.core); }
        BodyStep(p, ch);
        BodyBooks(p, l.text, ch);
        assert TextAfter(p.core, l.text, ch) == l.text by { BodyText(p.core, l.text, ch); }
      } else {
        QuietBooks(p, l.text, ch);
        if Step(p, ch).core.errno.OK? { CoreIsLengthOk(Step(p, ch).core); }
        SumAppend(l.lengths, if Step(p, ch).core.state.ChunkData? then HexVal(l.text) else DecVal(l.text));
      }
    }
  }

  lemma CoreIsLengthOk(c: Core)
    requires CoreOk(c)
    ensures LengthOk(c)
  {
  }

  lemma BodyText(c: Core, text: seq<Byte>, ch: Byte)
    requires InBody(c.state)
    ensures TextAfter(c, text, ch) == text
  {
  }

  lemma SumAppend(ns: seq<nat>, n: nat)
    ensures Sum(ns + [n]) == Sum(ns) + n
  {
    assert (ns + [n])[..|ns|] == ns;
  }

  // ---- whole streams

  function BookedAll(l: Ledger, s: seq<Byte>): (r: Ledger)
    decreases s
  {
    if s == [] then l else BookedAll(Booked(l, s[0]), s[1..])
  }

  /** The lengths a stream declares, and the bytes it has of bodies without a length. */
  ghost function Books(p: Parser, s: seq<Byte>): Ledger { BookedAll(Ledger(p, [], [], 0), s) }

  lemma {:induction false} BookedRun(l: Ledger, base: int, s: seq<Byte>)
    requires LedgerOk(l, base)
    ensures BookedAll(l, s).p == Run(l.p, s) && LedgerOk(BookedAll(l, s), base)
    decreases s
  {
    hide Step, LedgerOk, Run;
    if s == [] {
      RunNil(l.p);
    } else {
      BooksBalance(l, base, s[0]);
      RunOne(l.p, s);
      assert Booked(l, s[0]).p == Step(l.p, s[0]) by { if !l.p.core.errno.OK? { StoppedStep(l.p, s[0]); } }
      BookedRun(Booked(l, s[0]), base, s[1..]);
    }
  }

  /** On every stream from the start of a response: the bytes delivered and the bytes still
      owed are the lengths the stream declared plus the bytes of bodies without a length. */
  lemma Conserved(p: Parser, s: seq<Byte>)
    requires p.core.state.StartRes? && CoreOk(p.core)
    ensures var q := Run(p, s); var b := Books(p, s);
      && |q.body| + Owing(q.core) == |p.body| + Sum(b.lengths) + b.open
      && forall i :: 0 <= i < |b.lengths| ==> 0 < b.lengths[i] < ULLONG_MAX
  {
    hide Run, Step, BookedAll;
    BookedRun(Ledger(p, [], [], 0), |p.body|, s);
  }

  /** The bytes of a stream that are read as body. */
  ghost function Payload(p: Parser, s: seq<Byte>): (r: seq<Byte>)
    decreases s
  {
    if s == [] then []
    else (if p.core.errno.OK? && InBody(p.core.state) then [s[0]] else []) + Payload(Step(p, s[0]), s[1..])
  }

  lemma StepBody(p: Parser, ch: Byte)
    ensures Step(p, ch).body == p.body + if p.core.errno.OK? && InBody(p.core.state) then [ch] else []
  {
    hide OneByte, FieldState, ValueState, LengthDigit, MessageDone, ValueIndex;
  }

  /** What is delivered is exactly the body bytes of the stream, in order. */
  lemma {:induction false} DeliversPayload(p: Parser, s: seq<Byte>)
    ensures Run(p, s).body == p.body + Payload(p, s)
    decreases s
  {
    hide Step, Run;
    if s == [] {
      RunNil(p);
    } else {
      RunOne(p, s);
      StepBody(p, s[0]);
      DeliversPayload(Step(p, s[0]), s[1..]);
    }
  }

  /** A response, of any header lines: from its start up to the byte that ends it. */
  ghost predicate OneMessage(p: Parser, s: seq<Byte>) {
    && s != [] && EndsIn(p, s[..|s| - 1]) == 0
    && EndsMessage(Run(p, s[..|s| - 1]).core, s[|s| - 1])
  }

  lemma {:induction false} EndsInMonotone(p: Parser, s: seq<Byte>, k: nat)
    requires k <= |s|
    ensures EndsIn(p, s[..k]) <= EndsIn(p, s)
    decreases s
  {
    hide Step;
    if k > 0 {
      assert s[..k][1..] == s[1..][..k - 1];
      EndsInMonotone(Step(p, s[0]), s[1..], k - 1);
    }
  }

  lemma {:induction false} OpenNeverEnds(p: Parser, s: seq<Byte>, l: Ledger)
    requires l.p == p && LedgerOk(l, |p.body| + Owing(p.core) - Sum(l.lengths) - l.open)
    requires l.open > 0 ==> !p.core.errno.OK? || p.core.state.BodyIdentityEof?
    ensures BookedAll(l, s).open > 0 ==> !Run(p, s).core.errno.OK? || Run(p, s).core.state.BodyIdentityEof?
    decreases s
  {
    hide Step, Run, LedgerOk, BodyByte;
    var base := |p.body| + Owing(p.core) - Sum(l.lengths) - l.open;
    if s == [] {
      RunNil(p);
    } else {
      RunOne(p, s);
      BooksBalance(l, base, s[0]);
      if !p.core.errno.OK? {
        StoppedStep(p, s[0]);
      } else if p.core.state.BodyIdentityEof? {
        assert Step(p, s[0]).core.state.BodyIdentityEof? by { EofStays(p, s[0]); }
      }
      SameBase(Booked(l, s[0]), base);
      OpenNeverEnds(Step(p, s[0]), s[1..], Booked(l, s[0]));
    }
  }

  lemma EofStays(p: Parser, ch: Byte)
    requires p.core.errno.OK? && p.core.state.BodyIdentityEof?
    ensures Step(p, ch).core.state.BodyIdentityEof?
  {
    hide Step;
    BodyStep(p, ch);
  }

  lemma SameBase(l: Ledger, base: int)
    requires LedgerOk(l, base)
    ensures base == |l.p.body| + Owing(l.p.core) - Sum(l.lengths) - l.open
  {
  }

  /** Of every response, whatever its header lines: the bytes delivered total the declared
      length or the sum of the chunk sizes, and the one completion comes at its last byte. */
  lemma MessageFramed(p: Parser, s: seq<Byte>, k: nat)
    requires p.core.state.StartRes? && p.core.errno.OK? && CoreOk(p.core) && OneMessage(p, s)
    ensures |Run(p, s).body| == |p.body| + Sum(Books(p, s).lengths)
    ensures Run(p, s).core.completed == p.core.completed + 1
    ensures k < |s| ==> Run(p, s[..k]).core.completed == p.core.completed
  {
    hide Run, Step, BookedAll, EndsMessage, EndsIn;
    var a, x := s[..|s| - 1], s[|s| - 1];
    var q := Run(p, a);
    RunLast(p, s);
    StepCompletes(q, x);
    RunCompletes(p, a);
    Conserved(p, s);
    var l := Ledger(p, [], [], 0);
    OpenNeverEnds(p, s, l);
    NothingOwed(q, x);
    if k < |s| {
      EndsInMonotone(p, a, k);
      assert a[..k] == s[..k];
      RunCompletes(p, s[..k]);
    }
  }

  /** The byte that ends a message leaves nothing owed and no error. */
  lemma NothingOwed(q: Parser, x: Byte)
    requires EndsMessage(q.core, x)
    ensures Owing(Step(q, x).core) == 0 && Step(q, x).core.errno.OK? && !Step(q, x).core.state.BodyIdentityEof?
  {
    hide Step, EndsMessage;
    StepCompletes(q, x);
  }
}
