/** Where a message ends: the one byte at which `on_message_complete` fires. */
module HttpEnds {
  import opened HttpMachine
  import opened HttpRuns

  /** The byte that ends a header block or a trailer: a line feed where a line would start. */
  predicate BlankLine(c: Core, ch: Byte) {
    ch == LF && (c.state.HeadersAlmostDone? || c.state.FieldStart? || c.state.DiscardLws? || c.state.ValueLws?)
  }

  /** Where a header line may begin. */
  predicate LineBegins(s: State) { s.FieldStart? || s.DiscardLws? || s.ValueLws? }

  /** The core once the line before is finished. */
  function LineFinished(c: Core): Core {
    if c.state.DiscardLws? || c.state.ValueLws? then FinishHeader(c) else c
  }

  /** Responses that never have a body. */
  predicate Bodiless(status: nat) { status / 100 == 1 || status == 204 || status == 304 }

  /** A header block after which no body comes. */
  predicate NoBody(c: Core) {
    !c.flags.chunked && (c.contentLength == 0 || (c.contentLength == ULLONG_MAX && Bodiless(c.status)))
  }

  /** The byte ends a message: the last byte of a declared body, or a blank line that ends a
      trailer or a header block without a body. */
  predicate EndsMessage(c: Core, ch: Byte) {
    && c.errno.OK?
    && (|| (c.state.BodyIdentity? && c.contentLength <= 1)
        || (BlankLine(c, ch) && (c.flags.trailing || NoBody(LineFinished(c)))))
  }

  function Ends(c: Core, ch: Byte): nat { if EndsMessage(c, ch) then 1 else 0 }

  lemma HeadersDoneEnds(c: Core)
    ensures HeadersDone(c).errno == c.errno
    ensures HeadersDone(c).completed == c.completed + (if NoBody(c) then 1 else 0)
    ensures NoBody(c) ==> HeadersDone(c).state.StartRes? || HeadersDone(c).state.Dead?
    ensures !NoBody(c) ==> !HeadersDone(c).state.StartRes? && HeadersDone(c).contentLength == c.contentLength
    requires c.upgrade ==> c.status == 101
  {
    hide ShouldKeepAlive;
  }

  /** The core after a byte read where a header line, a blank line or a trailer may end. */
  ghost predicate Ended(c: Core, d: Core, ends: bool) {
    && d.completed == c.completed + (if ends then 1 else 0)
    && (ends ==> d.errno == c.errno && (d.state.StartRes? || d.state.Dead?))
    && (!ends ==> !d.state.StartRes?)
  }

  lemma BlankEnds(c: Core, ch: Byte)
    requires !c.state.StartRes?
    ensures Ended(c, OnHeadersAlmostDone(c, ch), ch == LF && (c.flags.trailing || NoBody(c)))
  {
    hide HeadersDone, ShouldKeepAlive;
    HeadersDoneEnds(c.(upgrade := c.flags.upgrade && c.flags.connUpgrade && c.status == 101));
  }

  lemma FieldStartEnds(c: Core, ch: Byte)
    requires !c.state.StartRes?
    ensures Ended(c, OnFieldStart(c, ch), ch == LF && (c.flags.trailing || NoBody(c)))
  {
    hide Tok, OnHeadersAlmostDone, NoBody;
    BlankEnds(c, ch);
  }

  lemma ValueStartKeeps(c: Core, ch: Byte)
    ensures OnValueStart(c, ch).completed == c.completed && OnValueStart(c, ch).state.Value?
  {
    hide Lower;
  }

  lemma FinishKeeps(c: Core)
    ensures FinishHeader(c).completed == c.completed && FinishHeader(c).state == c.state
    ensures FinishHeader(c).errno == c.errno && FinishHeader(c).flags.trailing == c.flags.trailing
  {
  }

  lemma HeaderEnds(c: Core, ch: Byte)
    requires c.errno.OK? && !BulkState(c.state) && !LineState(c.state) && !ChunkState(c.state)
    ensures HeaderByte(c, ch).completed == c.completed + Ends(c, ch)
    ensures HeaderByte(c, ch).errno.OK? && HeaderByte(c, ch).state.StartRes? ==> EndsMessage(c, ch)
    ensures EndsMessage(c, ch) ==>
      HeaderByte(c, ch).errno.OK? && (HeaderByte(c, ch).state.StartRes? || HeaderByte(c, ch).state.Dead?)
  {
    hide OnHeadersAlmostDone, OnFieldStart, OnValueStart, NoBody, FinishHeader;
    BlankEnds(c, ch);
    FieldStartEnds(c, ch);
    FinishKeeps(c);
    FieldStartEnds(FinishHeader(c), ch);
    ValueStartKeeps(c, ch);
  }

  lemma LineEndsNothing(c: Core, ch: Byte)
    requires LineState(c.state)
    ensures LineByte(c, ch).completed == c.completed
    ensures LineByte(c, ch).state.StartRes? ==> c.state.StartRes?
  {
  }

  lemma ChunkEndsNothing(c: Core, ch: Byte)
    requires ChunkState(c.state)
    ensures ChunkByte(c, ch).completed == c.completed && !ChunkByte(c, ch).state.StartRes?
  {
    hide Unhex;
  }

  lemma OneByteEnds(c: Core, ch: Byte)
    requires c.errno.OK? && !BulkState(c.state)
    ensures OneByte(c, ch).completed == c.completed + Ends(c, ch)
    ensures OneByte(c, ch).errno.OK? && OneByte(c, ch).state.StartRes? ==> c.state.StartRes? || EndsMessage(c, ch)
    ensures EndsMessage(c, ch) ==>
      OneByte(c, ch).errno.OK? && (OneByte(c, ch).state.StartRes? || OneByte(c, ch).state.Dead?)
  {
    hide LineByte, ChunkByte, HeaderByte, NoBody;
    var d := c.(reset := false);
    assert Ends(d, ch) == Ends(c, ch) by { SameEnds(c, ch); }
    if LineState(c.state) { LineEndsNothing(d, ch); }
    else if ChunkState(c.state) { ChunkEndsNothing(d, ch); }
    else { HeaderEnds(d, ch); }
  }

  lemma SameEnds(c: Core, ch: Byte)
    ensures EndsMessage(c.(reset := false), ch) == EndsMessage(c, ch)
  {
    var d := c.(reset := false);
    hide FinishHeader;
    assert FinishHeader(d) == FinishHeader(c).(reset := false) by { SameFinish(c); }
  }

  lemma SameFinish(c: Core)
    ensures FinishHeader(c.(reset := false)) == FinishHeader(c).(reset := false)
  {
  }

  /** `on_message_complete` fires at a byte exactly when that byte ends a message; then, and
      only then, does the parser come to the start of the next one. */
  lemma StepCompletes(p: Parser, ch: Byte)
    ensures Step(p, ch).core.completed == p.core.completed + Ends(p.core, ch)
    ensures var q := Step(p, ch).core; q.errno.OK? && q.state.StartRes? ==> p.core.state.StartRes? || EndsMessage(p.core, ch)
    ensures EndsMessage(p.core, ch) ==>
      Step(p, ch).core.errno.OK? && (Step(p, ch).core.state.StartRes? || Step(p, ch).core.state.Dead?)
    ensures Step(p, ch).nread <= p.nread + 1
  {
    hide Tok, Lower, FieldState, ValueState, NeedsEof, ShouldKeepAlive, OneByte, NoBody;
    if p.core.errno.OK? && !BulkState(p.core.state) {
      NonBulkStep(p, ch);
      OneByteEnds(p.core, ch);
    }
  }

  /** The messages that end in a stretch of bytes. */
  ghost function EndsIn(p: Parser, s: seq<Byte>): (n: nat)
    decreases s
  {
    if s == [] then 0 else Ends(p.core, s[0]) + EndsIn(Step(p, s[0]), s[1..])
  }

  /** On every stream, completions are counted once per message end. */
  lemma {:induction false} RunCompletes(p: Parser, s: seq<Byte>)
    ensures Run(p, s).core.completed == p.core.completed + EndsIn(p, s)
    decreases s
  {
    hide Step, Run, EndsMessage;
    if s == [] {
      RunNil(p);
    } else {
      RunOne(p, s);
      StepCompletes(p, s[0]);
      RunCompletes(Step(p, s[0]), s[1..]);
    }
  }

  ghost predicate AtStart(p: Parser) { p.core.errno.OK? && p.core.state.StartRes? }

  /** A parser that has left the start of a response is not back there while no message
      has ended. */
  lemma {:induction false} StaysOff(p: Parser, s: seq<Byte>, k: nat)
    requires !p.core.state.StartRes? && k <= |s| && Run(p, s).core.completed == p.core.completed
    ensures !AtStart(Run(p, s[..k]))
    decreases s
  {
    hide Step, Run, EndsMessage;
    if k == 0 {
      RunNil(p);
    } else {
      var q := Step(p, s[0]);
      RunOne(p, s);
      RunOne(p, s[..k]);
      assert s[..k][1..] == s[1..][..k - 1];
      StepCompletes(p, s[0]);
      RunCompletes(q, s[1..]);
      if q.core.errno.OK? {
        StaysOff(q, s[1..], k - 1);
      } else {
        Stopped(q, s[1..][..k - 1]);
      }
    }
  }
}
