/** The parser as it runs: whole pieces of a stream, runs of bytes at once, and the
    shortcut over the fixed header. */
module HttpExecute {
  import opened HttpMachine
  import opened HttpRuns
  import opened HttpFastPath
  import opened HttpEnds

  // ---- what the source asserts on the way

  /** Header states that occur in a header name, and in a header value. */
  predicate NameState(h: HeaderState) {
    FieldCounts(h) || h.General? || h.Connection? || h.ContentLength? || h.TransferEncoding? || h.Upgrade?
  }

  predicate WordState(h: HeaderState) {
    !FieldCounts(h) && !h.Connection? && !h.TransferEncoding? && !h.Upgrade?
  }

  /** Body lengths and the chunked flag in the states that rely on them. */
  ghost predicate LengthOk(c: Core) {
    && (c.state.BodyIdentity? || c.state.ChunkData? ==> 0 < c.contentLength < ULLONG_MAX)
    && (c.state.ChunkDataAlmostDone? ==> c.contentLength == 0)
    && (ChunkState(c.state) || c.state.ChunkData? ==> c.flags.chunked)
    && c.contentLength <= ULLONG_MAX
    && (c.state.ChunkSize? || c.state.ChunkParameters? || c.state.ChunkSizeAlmostDone? || c.state.ChunkDataDone?
        ==> c.contentLength < ULLONG_MAX)
  }

  ghost predicate WordsOk(c: Core) {
    (c.state.Field? ==> NameState(c.hstate)) && (c.state.Value? ==> WordState(c.hstate))
  }

  /** Facts about every parser state the source relies on. */
  ghost predicate CoreOk(c: Core) { LengthOk(c) && WordsOk(c) }

  /** As above, and a chunk size starts with a fresh count of header bytes. */
  ghost predicate ParserOk(p: Parser) {
    CoreOk(p.core) && (p.core.state.ChunkSizeStart? ==> p.nread == 0)
  }

  lemma LineOk(c: Core, ch: Byte)
    requires LengthOk(c) && LineState(c.state)
    ensures LengthOk(LineByte(c, ch)) && WordsOk(LineByte(c, ch)) && !LineByte(c, ch).state.ChunkSizeStart?
  {
    if c.state.Dead? || c.state.StartRes? || c.state.ResH? || c.state.ResHT? || c.state.ResHTT? || c.state.ResHTTP? {
      LineOkFirst(c, ch);
    } else {
      LineOkRest(c, ch);
    }
  }

  lemma LineOkFirst(c: Core, ch: Byte)
    requires LengthOk(c)
    requires c.state.Dead? || c.state.StartRes? || c.state.ResH? || c.state.ResHT? || c.state.ResHTT? || c.state.ResHTTP?
    ensures LengthOk(LineByte(c, ch)) && WordsOk(LineByte(c, ch)) && !LineByte(c, ch).state.ChunkSizeStart?
  {
  }

  lemma LineOkRest(c: Core, ch: Byte)
    requires LengthOk(c) && LineState(c.state)
    requires !(c.state.Dead? || c.state.StartRes? || c.state.ResH? || c.state.ResHT? || c.state.ResHTT? || c.state.ResHTTP?)
    ensures LengthOk(LineByte(c, ch)) && WordsOk(LineByte(c, ch)) && !LineByte(c, ch).state.ChunkSizeStart?
  {
    hide NameState, WordState;
  }

  lemma ChunkByteOk(c: Core, ch: Byte)
    requires LengthOk(c) && ChunkState(c.state)
    ensures var d := ChunkByte(c, ch);
      d.errno.OK? ==> LengthOk(d) && WordsOk(d) && (d.state.ChunkSizeStart? ==> d.reset)
  {
    hide NameState, WordState;
  }

  lemma HeadersEndOk(c: Core, ch: Byte)
    requires c.contentLength <= ULLONG_MAX && !BulkState(c.state) && !ChunkState(c.state)
    ensures var d := OnHeadersAlmostDone(c, ch);
      LengthOk(d) && WordsOk(d) && (d.state.ChunkSizeStart? ==> d.reset)
  {
    hide NeedsEof, NameState, WordState;
  }

  lemma FieldStartOk(c: Core, ch: Byte)
    requires c.contentLength <= ULLONG_MAX && !BulkState(c.state) && !ChunkState(c.state)
    ensures var d := OnFieldStart(c, ch);
      LengthOk(d) && WordsOk(d) && (d.state.ChunkSizeStart? ==> d.reset)
  {
    hide Tok, OnHeadersAlmostDone;
    HeadersEndOk(c, ch);
  }

  lemma ValueStartOk(c: Core, ch: Byte)
    requires LengthOk(c) && !BulkState(c.state) && !ChunkState(c.state)
    ensures var d := OnValueStart(c, ch);
      d.state.Value? && LengthOk(d) && WordsOk(d) && (d.hstate.ContentLength? && d.errno.OK? ==> d.contentLength < 10)
  {
    hide Lower;
  }

  lemma HeaderOk(c: Core, ch: Byte)
    requires LengthOk(c) && !BulkState(c.state) && !LineState(c.state) && !ChunkState(c.state)
    ensures var d := HeaderByte(c, ch);
      LengthOk(d) && WordsOk(d) && (d.state.ChunkSizeStart? ==> d.reset)
  {
    hide Tok, Lower, OnFieldStart, OnHeadersAlmostDone, OnValueStart, NameState, WordState;
    FieldStartOk(c, ch);
    FieldStartOk(FinishHeader(c), ch);
    HeadersEndOk(c, ch);
    ValueStartOk(c, ch);
  }

  /** Every single-byte step keeps the facts the source asserts. */
  lemma OneByteOk(c: Core, ch: Byte)
    requires CoreOk(c) && !BulkState(c.state)
    ensures var d := OneByte(c, ch);
      d.errno.OK? ==> CoreOk(d) && (d.state.ChunkSizeStart? ==> d.reset)
  {
    hide LineByte, ChunkByte, HeaderByte, WordsOk;
    var c := c.(reset := false);
    if LineState(c.state) { LineOk(c, ch); }
    else if ChunkState(c.state) { ChunkByteOk(c, ch); }
    else { HeaderOk(c, ch); }
  }

  /** So does every byte of a header name. */
  lemma NameOk(e: Parser, ch: Byte)
    requires e.core.state.Field? && CoreOk(e.core)
    ensures var q := FieldByte(e, ch); q.core.errno.OK? ==> CoreOk(q.core)
  {
    hide Tok, MatchWord;
  }

  // ---- which streams

  /** A message ends here and hands the connection over to another protocol. */
  predicate EndsInUpgrade(c: Core, c': Core) { c'.upgrade && c'.completed > c.completed }

  /** Value bytes pass the header-character test, the header block is at most half of the
      limit, and no message hands the connection over to another protocol. */
  ghost predicate Plain(r: Parser, s: seq<Byte>)
    decreases s
  {
    s == [] || !r.core.errno.OK? ||
    (&& (r.core.state.Value? ==> IsHeaderChar(s[0]))
     && 2 * Count(r) <= MAX_HEADER_SIZE
     && !EndsInUpgrade(r.core, Step(r, s[0]).core)
     && Plain(Step(r, s[0]), s[1..]))
  }

  lemma {:induction false} PlainAfter(r: Parser, a: seq<Byte>, b: seq<Byte>)
    requires Plain(r, a + b)
    ensures Plain(r, a) && Plain(Run(r, a), b)
    decreases a
  {
    hide Step;
    if a == [] {
      assert a + b == b;
    } else {
      assert (a + b)[1..] == a[1..] + b;
      RunOne(r, a);
      if r.core.errno.OK? {
        PlainAfter(Step(r, a[0]), a[1..], b);
      } else {
        Stopped(r, a);
      }
    }
  }

  // ---- how the running parser relates to the byte machine

  /** Same core; same match index where it is read; at most twice the counted bytes, and
      `extra` for the byte at hand. */
  ghost predicate Sim(e: Parser, r: Parser, extra: nat) {
    && e.core == r.core && e.core.errno.OK?
    && (r.core.state.Field? || r.core.state.Value? ==> e.index == r.index)
    && e.nread <= 2 * r.nread + extra
  }

  /** After whole pieces: as above with the same body; after an error only body bytes not yet
      handed over may differ. */
  ghost predicate Same(e: Parser, r: Parser) {
    if r.core.errno.OK? then Sim(e, r, 0) && e.body == r.body
    else e.core == r.core
  }

  /** In the middle of a piece: the bytes from `mark` on are still owed to `on_body`. */
  ghost predicate Owes(e: Parser, r: Parser, data: seq<Byte>, mark: int, pos: nat) {
    && pos <= |data| && mark <= pos
    && r.body == (if mark >= 0 then e.body + data[mark..pos] else e.body)
  }

  /** Running ahead inside a piece. */
  lemma Advance(r: Parser, data: seq<Byte>, pos: nat, pos': nat)
    requires pos <= pos' <= |data| && Plain(r, data[pos..])
    ensures var r' := Run(r, data[pos..pos']);
      Run(r', data[pos'..]) == Run(r, data[pos..]) && Plain(r', data[pos'..])
  {
    hide Step, Plain, Run;
    assert data[pos..] == data[pos..pos'] + data[pos'..];
    RunConcat(r, data[pos..pos'], data[pos'..]);
    PlainAfter(r, data[pos..pos'], data[pos'..]);
  }

  /** What `n` body bytes leave of the core. */
  function AfterBody(c: Core, n: nat): Core
    requires n <= c.contentLength
  {
    var c := c.(contentLength := c.contentLength - n, reset := false);
    if c.contentLength > 0 then c
    else if c.state.BodyIdentity? then MessageDone(c)
    else c.(state := ChunkDataAlmostDone)
  }

  /** Bytes of a declared body: all delivered, the end noticed exactly at the last one. */
  lemma {:induction false} BodyRun(r: Parser, s: seq<Byte>)
    requires r.core.errno.OK? && (r.core.state.BodyIdentity? || r.core.state.ChunkData?)
    requires 0 < |s| <= r.core.contentLength
    ensures Run(r, s) == r.(core := AfterBody(r.core, |s|), body := r.body + s)
    decreases s
  {
    hide Step, MessageDone;
    RunOne(r, s);
    BodyStep(r, s[0]);
    var q := Step(r, s[0]);
    if |s| == 1 {
      RunNil(q);
      assert s == [s[0]];
    } else {
      BodyRun(q, s[1..]);
      assert r.body + s == r.body + [s[0]] + s[1..];
    }
  }

  lemma {:induction false} EofRun(r: Parser, s: seq<Byte>)
    requires r.core.errno.OK? && r.core.state.BodyIdentityEof? && s != []
    ensures Run(r, s) == r.(core := r.core.(reset := false), body := r.body + s)
    decreases s
  {
    hide Step, MessageDone;
    RunOne(r, s);
    BodyStep(r, s[0]);
    var q := Step(r, s[0]);
    if |s| == 1 {
      RunNil(q);
      assert s == [s[0]];
    } else {
      EofRun(q, s[1..]);
      assert r.body + s == r.body + [s[0]] + s[1..];
    }
  }

  /** A general header value runs on while no line end comes; all its bytes are plain and few. */
  lemma {:induction false} GeneralRest(r: Parser, s: seq<Byte>, n: nat)
    requires Plain(r, s) && n <= |s|
    requires r.core.errno.OK? && r.core.state.Value? && r.core.hstate.General?
    requires forall k :: 0 <= k < n ==> s[k] != CR && s[k] != LF
    ensures forall k :: 0 <= k < n ==> Plainchar(s[k])
    ensures n > 0 ==> 2 * (r.nread + n) <= MAX_HEADER_SIZE
    decreases n
  {
    hide Step, Run;
    if n > 0 {
      ValueStep(r, s[0]);
      assert Plainchar(s[0]);
      var q := Step(r, s[0]);
      assert q == Moved(r, r.core.(reset := false), 1);
      assert forall k :: 0 <= k < n - 1 ==> s[1..][k] == s[k + 1];
      GeneralRest(q, s[1..], n - 1);
      forall k | 0 <= k < n ensures Plainchar(s[k]) {
        if k > 0 { assert s[k] == s[1..][k - 1]; }
      }
    }
  }

  /** Fast path test at a position: the fixed header stands in the memory from there. */
  predicate HeaderAt(data: seq<Byte>, rest: seq<Byte>, pos: nat) {
    pos + 81 <= |data + rest| && (data + rest)[pos..pos + 81] == Header()
  }

  /** The fixed header stands there and ends in the memory behind the piece. */
  predicate Overhangs(data: seq<Byte>, rest: seq<Byte>, pos: nat) {
    HeaderAt(data, rest, pos) && pos + 81 > |data|
  }

  /** A response starts at a position from which the header overhangs. */
  ghost predicate StraddlesAt(r: Parser, data: seq<Byte>, rest: seq<Byte>, pos: nat)
    requires pos <= |data|
  {
    Overhangs(data, rest, pos) && AtStart(Run(r, data[..pos]))
  }

  ghost predicate Straddles(r: Parser, data: seq<Byte>, rest: seq<Byte>) {
    exists pos :: 0 <= pos < |data| && StraddlesAt(r, data, rest, pos)
  }

  /** Forty bytes of the fixed header in the piece, the others behind it: the shortcut steps
      over the end of the piece. */
  lemma HeaderCutAfterForty()
    ensures Straddles(INITIAL, Header()[..40], Header()[40..])
  {
    hide Header, Run;
    var h := Header();
    assert h[..40] + h[40..] == h && h[0..81] == h;
    RunNil(INITIAL);
    assert h[..40][..0] == [];
    assert StraddlesAt(INITIAL, h[..40], h[40..], 0);
  }

  /** Header text that a piece cuts inside a body does no harm. */
  lemma HeaderCutInBody(r: Parser, a: seq<Byte>, n: nat)
    requires r.core.errno.OK? && r.core.state.BodyIdentity? && n <= 81 && |a| + n < r.core.contentLength
    ensures !Straddles(r, a + Header()[..n], Header()[n..])
  {
    hide Header, Run, AtStart;
    var data := a + Header()[..n];
    forall pos | 0 <= pos < |data| ensures !AtStart(Run(r, data[..pos])) {
      if pos == 0 { RunNil(r); assert data[..0] == []; } else { BodyRun(r, data[..pos]); }
      BodyGoesOn(r, data[..pos]);
    }
  }

  lemma BodyGoesOn(r: Parser, s: seq<Byte>)
    requires r.core.errno.OK? && r.core.state.BodyIdentity? && |s| < r.core.contentLength
    ensures !AtStart(Run(r, s))
  {
    if s == [] { RunNil(r); } else { BodyRun(r, s); }
  }

  /** The end of the stream completes a message that runs to the end, and no other. */
  function AtEof(c: Core): Core {
    if c.state.BodyIdentityEof? then c.(completed := c.completed + 1)
    else if c.state.Dead? || c.state.StartRes? then c
    else Fail(c, InvalidEofState)
  }

  predicate MarkState(s: State) {
    s.BodyIdentity? || s.BodyIdentityEof? || s.ChunkData? || s.ChunkDataAlmostDone?
  }

  /** The parser in the middle of a piece.  `good` says that `r` is the byte machine at
      this point of a plain stream. */
  ghost predicate Mid(e: Parser, r: Parser, data: seq<Byte>, mark: int, pos: nat, extra: nat, good: bool) {
    && pos <= |data| && -1 <= mark <= pos
    && e.core.errno.OK? && CoreOk(e.core)
    && (e.core.state.ChunkSizeStart? ==> e.nread == extra)
    && (mark >= 0 ==> MarkState(e.core.state))
    && (good ==> Sim(e, r, extra) && Owes(e, r, data, mark, pos) && Plain(r, data[pos..]))
  }

  /** What a part of the loop leaves behind: either the middle of the piece further on, or
      the final state of the piece and the position it stopped at. */
  ghost predicate Went(e: Parser, r: Parser, r': Parser, data: seq<Byte>, mark': int, pos: nat, pos': nat, stop: nat,
                       go: bool, good: bool)
    requires pos <= |data|
  {
    && pos < pos' <= |data|
    && (good ==> r' == Run(r, data[pos..pos']))
    && (go ==> Mid(e, r', data, mark', pos', 0, good) && (good ==> Run(r', data[pos'..]) == Run(r, data[pos..])))
    && (!go && good ==> !e.core.errno.OK? && !r'.core.errno.OK? && Same(e, Run(r, data[pos..])))
    && (!go && good ==> stop + 1 == pos' && Run(r, data[pos..stop]).core.errno.OK?)
    && (!go && e.core.errno.OK? ==> e.core.upgrade && stop == pos')
    && (e.core.errno.OK? ==> ParserOk(e))
  }

  /** One byte more of a stretch. */
  lemma RunSlice(r: Parser, data: seq<Byte>, a: nat, p: nat)
    requires a <= p < |data|
    ensures Run(r, data[a..p + 1]) == Step(Run(r, data[a..p]), data[p])
    ensures data[a..a] == [] && Run(r, data[a..a]) == r
  {
    hide Step, Run;
    RunNil(r);
    RunLast(r, data[a..p + 1]);
    assert data[a..p + 1][..p - a] == data[a..p];
  }

  /** A stretch in two parts. */
  lemma RunSlices(r: Parser, data: seq<Byte>, a: nat, p: nat, q: nat)
    requires a <= p <= q <= |data|
    ensures Run(r, data[a..q]) == Run(Run(r, data[a..p]), data[p..q])
  {
    hide Step, Run;
    assert data[a..q] == data[a..p] + data[p..q];
    RunConcat(r, data[a..p], data[p..q]);
  }

  /** No response starts strictly between two positions. */
  ghost predicate Quiet(r: Parser, data: seq<Byte>, a: nat, b: nat)
    requires a <= b <= |data|
  {
    forall k :: a < k < b ==> !AtStart(Run(r, data[a..k]))
  }

  lemma QuietInside(r: Parser, data: seq<Byte>, a: nat, b: nat)
    requires a < b <= |data| && !r.core.state.StartRes?
    requires Run(r, data[a..b - 1]).core.completed == r.core.completed
    ensures Quiet(r, data, a, b)
  {
    hide Run, Step, AtStart;
    forall k | a < k < b ensures !AtStart(Run(r, data[a..k])) {
      StaysOff(r, data[a..b - 1], k - a);
      assert data[a..b - 1][..k - a] == data[a..k];
    }
  }

  /** The last byte is not looked at. */
  lemma QuietIfNoneEnds(r: Parser, data: seq<Byte>, a: nat, b: nat)
    requires a < b <= |data| && !r.core.state.StartRes?
    requires Run(r, data[a..b]).core.completed == r.core.completed
    ensures Quiet(r, data, a, b)
  {
    hide Run, Step, Quiet;
    var s := data[a..b];
    assert s[..|s| - 1] == data[a..b - 1];
    RunLast(r, s);
    StepCompletes(Run(r, data[a..b - 1]), s[|s| - 1]);
    RunCompletes(r, data[a..b - 1]);
    QuietInside(r, data, a, b);
  }

  lemma QuietBody(r: Parser, data: seq<Byte>, a: nat, n: nat)
    requires r.core.errno.OK? && (r.core.state.BodyIdentity? || r.core.state.ChunkData?)
    requires 0 < n <= r.core.contentLength && a + n <= |data|
    ensures Quiet(r, data, a, a + n)
  {
    hide Run, Step, Quiet, MessageDone;
    var s := data[a..a + n - 1];
    if n == 1 { assert s == []; RunNil(r); } else { BodyRun(r, s); }
    QuietInside(r, data, a, a + n);
  }

  lemma QuietHeader(r: Parser, data: seq<Byte>, a: nat)
    requires AtStart(r) && a + 81 <= |data| && data[a..a + 81] == Header()
    ensures Quiet(r, data, a, a + 81)
  {
    hide Run, Step, Header;
    var h := data[a..a + 81];
    FastPathIsExact(r);
    RunOne(r, h);
    FirstH(r);
    var q := Step(r, h[0]);
    forall k | a < k < a + 81 ensures !AtStart(Run(r, data[a..k])) {
      RunOne(r, data[a..k]);
      assert data[a..k][1..] == h[1..][..k - a - 1];
      StaysOff(q, h[1..], k - a - 1);
    }
  }

  lemma FirstH(r: Parser)
    requires AtStart(r)
    ensures var q := Step(r, 'H' as int); !q.core.state.StartRes? && q.core.completed == r.core.completed
  {
    hide Step;
    NonBulkStep(r, 'H' as int);
  }

  /** After an error nothing starts any more. */
  lemma QuietAfterError(r: Parser, data: seq<Byte>, a: nat, b: nat)
    requires a < b <= |data| && Quiet(r, data, a, b) && !Run(r, data[a..b]).core.errno.OK?
    ensures Quiet(r, data, a, |data|)
  {
    hide Run, Step;
    forall k | a < k < |data| ensures !AtStart(Run(r, data[a..k])) {
      if k >= b {
        assert data[a..k] == data[a..b] + data[b..k];
        RunConcat(r, data[a..b], data[b..k]);
        Stopped(Run(r, data[a..b]), data[b..k]);
      }
    }
  }

  /** No response starts with an overhanging header before `pos`. */
  ghost predicate NoneBefore(r: Parser, data: seq<Byte>, rest: seq<Byte>, pos: nat)
    requires pos <= |data|
  {
    forall k :: 0 <= k < pos ==> !StraddlesAt(r, data, rest, k)
  }

  lemma NoneSoFar(r: Parser, data: seq<Byte>, rest: seq<Byte>, pos: nat, b: nat)
    requires pos < b <= |data| && NoneBefore(r, data, rest, pos)
    requires var q := Run(r, data[..pos]); Quiet(q, data, pos, b) && !(AtStart(q) && Overhangs(data, rest, pos))
    ensures NoneBefore(r, data, rest, b)
  {
    hide Run, AtStart, Overhangs;
    forall k | 0 <= k < b ensures !StraddlesAt(r, data, rest, k) {
      if k > pos {
        assert data[..k] == data[..pos] + data[pos..k];
        RunConcat(r, data[..pos], data[pos..k]);
      }
    }
  }

  /** The byte machine takes the bytes before `n` and fails at that one. */
  ghost predicate FailsFirst(r: Parser, data: seq<Byte>, n: nat) {
    n < |data| && Run(r, data[..n]).core.errno.OK? && !Run(r, data[..n + 1]).core.errno.OK?
  }

  lemma StopsFirst(r: Parser, data: seq<Byte>, was: nat, stop: nat, ref: Parser)
    requires was <= stop < |data| && ref == Run(r, data[..was])
    requires Run(ref, data[was..stop]).core.errno.OK? && !Run(ref, data[was..stop + 1]).core.errno.OK?
    ensures FailsFirst(r, data, stop)
  {
    hide Run, Step;
    assert data[0..was] == data[..was] && data[0..stop] == data[..stop] && data[0..stop + 1] == data[..stop + 1];
    RunSlices(r, data, 0, was, stop);
    RunSlices(r, data, 0, was, stop + 1);
  }

  class HttpParser {
    var st: Parser

    constructor ()
      ensures st == INITIAL
    {
      st := INITIAL;
    }

    /** COUNT_HEADER_SIZE. */
    method CountHeader(n: nat) returns (ok: bool)
      modifies this
      ensures ok <==> old(st).nread + n <= MAX_HEADER_SIZE
      ensures st == old(st).(nread := old(st).nread + n,
                             core := if ok then old(st).core else Fail(old(st).core, HeaderOverflow))
    {
      st := st.(nread := st.nread + n);
      ok := st.nread <= MAX_HEADER_SIZE;
      if !ok { st := st.(core := Fail(st.core, HeaderOverflow)); }
    }

    /** A state that takes a single byte. */
    method TakeByte(data: seq<Byte>, pos: nat, mark: int, ghost r: Parser, ghost good: bool)
      returns (pos': nat, mark': int, stop: nat, go: bool, ghost r': Parser)
      requires pos < |data| && !BulkState(st.core.state)
      requires Mid(st, r, data, mark, pos, if ParsingHeader(st.core.state) then 1 else 0, good)
      modifies this
      ensures pos' == pos + 1
      ensures Went(st, r, r', data, mark', pos, pos', stop, go, good)
      ensures go ==> !EndsInUpgrade(old(st).core, st.core)
    {
      hide OneByte, Step, Run, Plain;
      var ch := data[pos];
      var was := st.core;
      assert was.state.ChunkSizeStart? ==> st.nread == 1;
      OneByteOk(was, ch);
      RunSlice(r, data, pos, pos);
      if good {
        NonBulkStep(r, ch);
        Advance1(r, data, pos);
      }
      r' := Step(r, ch);
      var c := OneByte(was, ch);
      st := st.(core := c, index := if c.state.Field? || c.state.Value? then 0 else st.index,
                nread := if c.reset then 0 else st.nread);
      pos', mark', stop, go := pos + 1, mark, pos, true;
      if !c.errno.OK? {
        if good { Stopped(r', data[pos'..]); }
        go := false;
        return;
      }
      if was.state.ChunkDataAlmostDone? && mark >= 0 {
        st := st.(body := st.body + data[mark..pos]);
        mark' := -1;
      }
      if EndsInUpgrade(was, c) {
        stop, go := pos + 1, false;
      }
    }

    /** s_header_field: the bytes of a header name. */
    method TakeName(data: seq<Byte>, pos: nat, ghost r: Parser, ghost good: bool)
      returns (pos': nat, mark': int, stop: nat, go: bool, ghost r': Parser)
      requires pos < |data| && st.core.state.Field? && Mid(st, r, data, -1, pos, 1, good)
      requires st.nread <= MAX_HEADER_SIZE
      modifies this
      ensures Went(st, r, r', data, mark', pos, pos', stop, go, good)
      ensures st.core.completed == old(st).core.completed
      ensures good ==> r'.core.completed == r.core.completed
    {
      hide Step, Run, Plain, Tok, FieldState;
      mark', stop, go, r' := -1, pos, true, r;
      ghost var e0 := st;
      var p := pos;
      RunSlice(r, data, pos, pos);
      while p < |data| && Tok(data[p]) != 0
        invariant pos <= p <= |data|
        invariant st.core.state.Field? && st.core.errno.OK? && CoreOk(st.core)
        invariant st.nread == e0.nread && st.body == e0.body && st.core.completed == e0.core.completed
        invariant good ==> Run(r', data[p..]) == Run(r, data[pos..]) && Plain(r', data[p..])
        invariant good ==> r' == Run(r, data[pos..p]) && r'.core.completed == r.core.completed
        invariant good ==> r'.core == st.core && r'.index == st.index && r'.body == r.body
        invariant good ==> r'.nread == r.nread + (p - pos) && (p > pos ==> 2 * r'.nread <= MAX_HEADER_SIZE)
      {
        if good {
          FieldStep(r', data[p]);
          Advance1(r', data, p);
          RunSlice(r, data, pos, p);
          r' := Step(r', data[p]);
        }
        NameOk(st, data[p]);
        st := FieldByte(st, data[p]);
        p := p + 1;
      }
      var ok := CountHeader(p - pos);
      pos', stop := p, p;
      if !ok {
        go := false;
        return;
      }
      if p == |data| { return; }
      if good {
        FieldStep(r', data[p]);
        Advance1(r', data, p);
        RunSlice(r, data, pos, p);
        r' := Step(r', data[p]);
      }
      NameOk(st, data[p]);
      st := FieldByte(st, data[p]).(nread := st.nread);
      pos' := p + 1;
      if !st.core.errno.OK? {
        if good { Stopped(r', data[pos'..]); }
        go := false;
      }
    }

    /** memchr over at most `limit` bytes. */
    method Memchr(data: seq<Byte>, pos: nat, ch: Byte, limit: nat) returns (q: int)
      requires pos + limit <= |data|
      ensures -1 <= q && (q >= 0 ==> pos <= q < pos + limit && data[q] == ch)
      ensures forall k :: pos <= k < (if q >= 0 then q else pos + limit) ==> data[k] != ch
    {
      for k := pos to pos + limit
        invariant forall i :: pos <= i < k ==> data[i] != ch
      {
        if data[k] == ch { return k; }
      }
      q := -1;
    }

    /** The rest of a general value: where the next line end is, or the end of the piece. */
    method SkipGeneral(data: seq<Byte>, p: nat, ghost r: Parser, ghost good: bool) returns (q: nat)
      requires p < |data| && data[p] != CR && data[p] != LF
      requires good ==> Plain(r, data[p..]) && r.core.errno.OK? && r.core.state.Value? && r.core.hstate.General?
      ensures p < q <= |data|
      ensures good ==> forall k :: p <= k < q ==> Plainchar(data[k])
      ensures good ==> 2 * (r.nread + (q - p)) <= MAX_HEADER_SIZE
    {
      hide Plain, Plainchar;
      var limit := if |data| - p < MAX_HEADER_SIZE then |data| - p else MAX_HEADER_SIZE;
      var cr := Memchr(data, p, CR, limit);
      var lf := Memchr(data, p, LF, limit);
      if cr >= 0 {
        q := if lf >= 0 && cr >= lf then lf else cr;
      } else if lf >= 0 {
        q := lf;
      } else {
        q := |data|;
      }
      if good {
        ghost var n := if q - p < MAX_HEADER_SIZE then q - p else MAX_HEADER_SIZE;
        assert forall k :: 0 <= k < n ==> data[p..][k] == data[p + k];
        GeneralRest(r, data[p..], n);
        assert n == q - p;
        forall k | p <= k < q ensures Plainchar(data[k]) { assert data[k] == data[p..][k - p]; }
      }
    }

    /** s_header_value: the bytes of a header value up to the line end or the end of the piece. */
    method TakeValue(data: seq<Byte>, pos: nat, ghost r: Parser, ghost good: bool)
      returns (pos': nat, mark': int, stop: nat, go: bool, ghost r': Parser)
      requires pos < |data| && st.core.state.Value? && Mid(st, r, data, -1, pos, 1, good)
      requires st.nread <= MAX_HEADER_SIZE
      modifies this
      ensures Went(st, r, r', data, mark', pos, pos', stop, go, good)
      ensures st.core.completed == old(st).core.completed
      ensures good ==> r'.core.completed == r.core.completed
    {
      hide Step, Run, Plain, Tok, ValueByte, LengthDigit, Plainchar;
      mark', stop, go, r' := -1, pos, true, r;
      ghost var e0 := st;
      var p := pos;
      RunSlice(r, data, pos, pos);
      while p < |data| && data[p] != CR && data[p] != LF
        invariant pos <= p <= |data|
        invariant st.core.state.Value? && st.core.errno.OK? && CoreOk(st.core)
        invariant st.nread == e0.nread && st.body == e0.body && st.core.completed == e0.core.completed
        invariant good ==> Run(r', data[p..]) == Run(r, data[pos..]) && Plain(r', data[p..])
        invariant good ==> r' == Run(r, data[pos..p]) && r'.core.completed == r.core.completed
        invariant good ==> r'.core == st.core && r'.index == st.index && r'.body == r.body
        invariant good ==> r'.nread == r.nread + (p - pos) && (p > pos ==> 2 * r'.nread <= MAX_HEADER_SIZE)
      {
        var ch := data[p];
        ValueOk(st, ch);
        if good {
          ValueAgree(st, r', ch);
          ValueStep(r', ch);
          Advance1(r', data, p);
          RunSlice(r, data, pos, p);
        }
        if st.core.hstate.General? && IsHeaderChar(ch) {
          var q := SkipGeneral(data, p, r', good);
          if good {
            Advance(r', data, p, q);
            RunSlices(r, data, pos, p, q);
            GeneralValue(r', data[p..q]);
            r' := Run(r', data[p..q]);
          }
          st := st.(core := st.core.(reset := false));
          p := q;
        } else {
          r' := Step(r', ch);
          st := ValueByte(st, ch);
          stop, p := p, p + 1;
          if !st.core.errno.OK? {
            if good { Stopped(r', data[p..]); }
            pos', go := p, false;
            return;
          }
        }
      }
      if p < |data| {
        if good {
          ValueAgree(st, r', data[p]);
          ValueStep(r', data[p]);
          Advance1(r', data, p);
          RunSlice(r, data, pos, p);
          r' := Step(r', data[p]);
        }
        ValueEnds(st, data[p]);
        st := ValueByte(st, data[p]);
      }
      var ok := CountHeader(p - pos);
      pos', stop := if p < |data| then p + 1 else p, p;
      if !ok { go := false; }
    }

    /** s_body_identity and s_chunk_data: as much of the declared body as the piece has. */
    method TakeBody(data: seq<Byte>, pos: nat, mark: int, ghost r: Parser, ghost good: bool)
      returns (pos': nat, mark': int, stop: nat, go: bool, ghost r': Parser)
      requires pos < |data| && (st.core.state.BodyIdentity? || st.core.state.ChunkData?)
      requires Mid(st, r, data, mark, pos, 0, good)
      modifies this
      ensures pos' - pos <= old(st).core.contentLength
      ensures Went(st, r, r', data, mark', pos, pos', stop, go, good)
      ensures go ==> !EndsInUpgrade(old(st).core, st.core)
    {
      hide Step, Run, Plain, ShouldKeepAlive;
      var c := st.core;
      var toRead := if c.contentLength < |data| - pos then c.contentLength else |data| - pos;
      if good {
        Advance(r, data, pos, pos + toRead);
        BodyRun(r, data[pos..pos + toRead]);
        BodyEnd(r, data, pos, toRead);
      }
      r' := Run(r, data[pos..pos + toRead]);
      pos', mark', stop, go := pos + toRead, if mark >= 0 then mark else pos, pos + toRead, true;
      Owed(st.body, data, mark, pos, pos');
      c := c.(contentLength := c.contentLength - toRead, reset := false);
      st := st.(core := c);
      if c.contentLength == 0 {
        if c.state.BodyIdentity? {
          st := st.(body := st.body + data[mark'..pos'], core := MessageDone(c));
          mark' := -1;
          if c.upgrade { go := false; }
        } else {
          st := st.(core := c.(state := ChunkDataAlmostDone));
        }
      }
    }

    /** s_body_identity_eof: the rest of the piece. */
    method TakeRest(data: seq<Byte>, pos: nat, mark: int, ghost r: Parser, ghost good: bool)
      returns (pos': nat, mark': int, stop: nat, go: bool, ghost r': Parser)
      requires pos < |data| && st.core.state.BodyIdentityEof? && Mid(st, r, data, mark, pos, 0, good)
      modifies this
      ensures Went(st, r, r', data, mark', pos, pos', stop, go, good)
      ensures st.core.completed == old(st).core.completed
    {
      hide Step, Run, Plain;
      pos', mark', stop, go := |data|, if mark >= 0 then mark else pos, |data|, true;
      if good {
        Advance(r, data, pos, |data|);
        EofRun(r, data[pos..|data|]);
      }
      r' := Run(r, data[pos..|data|]);
      Owed(st.body, data, mark, pos, pos');
      st := st.(core := st.core.(reset := false));
    }

    /** s_fastpath: writes what the fixed header would have led to and skips it. */
    method TakeHeader(data: seq<Byte>, pos: nat, ghost r: Parser, ghost good: bool)
      returns (pos': nat, mark': int, stop: nat, go: bool, ghost r': Parser)
      requires pos + 81 <= |data| && data[pos..pos + 81] == Header()
      requires st.core.state.StartRes? && Mid(st, r, data, -1, pos, 1, good)
      modifies this
      ensures pos' == pos + 81
      ensures Went(st, r, r', data, mark', pos, pos', stop, go, good)
      ensures st.core.completed == old(st).core.completed
    {
      hide Step, Run, Plain, Header;
      if good {
        Advance(r, data, pos, pos + 81);
        FastPathIsExact(r);
      }
      r' := Run(r, Header());
      Shortcut();
      pos', mark', stop, go := pos + 81, -1, pos + 81, true;
    }

    /** One turn of the main loop.  `overran` says that the shortcut stepped over the end of
        the piece. */
    method Turn(data: seq<Byte>, rest: seq<Byte>, pos: nat, mark: int, ghost r: Parser, ghost good: bool)
      returns (pos': nat, mark': int, stop: nat, go: bool, overran: bool, ghost r': Parser)
      requires pos < |data| && Mid(st, r, data, mark, pos, 0, good)
      modifies this
      ensures good ==> (overran <==> AtStart(r) && Overhangs(data, rest, pos))
      ensures overran ==> (st.core.errno.OK? ==> ParserOk(st)) && !go
      ensures !overran ==> Went(st, r, r', data, mark', pos, pos', stop, go, good)
      ensures !overran && go ==> !EndsInUpgrade(old(st).core, st.core)
      ensures !overran && good ==> Quiet(r, data, pos, if go then pos' else |data|)
    {
      hide Step, Run, Plain, Header, CoreOk, Quiet, Same;
      overran := false;
      if good { Advance1(r, data, pos); }
      if ParsingHeader(st.core.state) {
        var ok := CountHeader(1);
        if !ok {
          pos', mark', stop, go, r' := pos + 1, mark, pos, false, r;
          return;
        }
      }
      if st.core.state.Field? {
        pos', mark', stop, go, r' := TakeName(data, pos, r, good);
        if good { QuietIfNoneEnds(r, data, pos, pos'); }
      } else if st.core.state.Value? {
        pos', mark', stop, go, r' := TakeValue(data, pos, r, good);
        if good { QuietIfNoneEnds(r, data, pos, pos'); }
      } else if st.core.state.BodyIdentity? || st.core.state.ChunkData? {
        pos', mark', stop, go, r' := TakeBody(data, pos, mark, r, good);
        if good { QuietBody(r, data, pos, pos' - pos); }
      } else if st.core.state.BodyIdentityEof? {
        pos', mark', stop, go, r' := TakeRest(data, pos, mark, r, good);
        if good { EofRun(r, data[pos..pos']); QuietIfNoneEnds(r, data, pos, pos'); }
      } else if st.core.state.StartRes? && HeaderAt(data, rest, pos) {
        if pos + 81 > |data| {
          Shortcut();
          pos', mark', stop, go, overran, r' := |data|, mark, |data|, false, true, r;
          return;
        }
        assert (data + rest)[pos..pos + 81] == data[pos..pos + 81];
        pos', mark', stop, go, r' := TakeHeader(data, pos, r, good);
        if good { QuietHeader(r, data, pos); }
      } else {
        pos', mark', stop, go, r' := TakeByte(data, pos, mark, r, good);
        QuietOne(r, data, pos);
      }
      if good && !go { QuietAfterError(r, data, pos, pos'); }
    }

    /** What s_fastpath writes. */
    method Shortcut()
      requires CoreOk(st.core)
      modifies this
      ensures st == old(st).(core := FastCore(old(st).core), index := 0) && CoreOk(st.core)
    {
      st := st.(core := st.core.(major := 1, minor := 1, status := 200, contentLength := ULLONG_MAX,
                                 flags := NO_FLAGS.(keepAlive := true), hstate := ContentLength,
                                 state := DiscardWs, reset := false),
                index := 0);
    }

    /** http_parser_execute on one piece; `rest` is the memory behind it.  It steps over the
        end of the piece exactly when a response starts there with an overhanging header.  It
        returns the length of the piece, or the position of the first byte that fails. */
    method Execute(data: seq<Byte>, rest: seq<Byte>, ghost r: Parser) returns (n: nat, overran: bool)
      requires st.core.errno.OK? ==> ParserOk(st)
      modifies this
      ensures st.core.errno.OK? ==> ParserOk(st)
      ensures data != [] && Same(old(st), r) && Plain(r, data) ==>
        && (overran <==> Straddles(r, data, rest))
        && (!overran ==> Same(st, Run(r, data)) && (st.core.errno.OK? ==> n == |data|))
        && (!overran && old(st).core.errno.OK? && !st.core.errno.OK? ==> FailsFirst(r, data, n))
      ensures !old(st).core.errno.OK? ==> n == 0 && st == old(st) && !overran
      ensures old(st).core.errno.OK? && st.core.errno.OK? && !overran ==> n <= |data| && (n < |data| ==> st.core.upgrade)
      ensures data == [] && old(st).core.errno.OK? ==>
        st == old(st).(core := AtEof(old(st).core)) && !overran && n == (if st.core.errno.OK? then 0 else 1)
    {
      hide Step, Run, Plain, CoreOk, Header, StraddlesAt, NoneBefore, Quiet, FailsFirst;
      overran := false;
      if !st.core.errno.OK? {
        if !r.core.errno.OK? {
          Stopped(r, data);
          StoppedStraddle(r, data, rest);
        }
        return 0, false;
      }
      if data == [] {
        if st.core.state.BodyIdentityEof? {
          EofOk(st.core);
          st := st.(core := st.core.(completed := st.core.completed + 1));
        } else if !st.core.state.Dead? && !st.core.state.StartRes? {
          st := st.(core := Fail(st.core, InvalidEofState));
          return 1, false;
        }
        return 0, false;
      }
      ghost var good := Same(st, r) && Plain(r, data);
      assert data[0..] == data && data[..0] == [];
      var pos, mark, go := 0, -1, true;
      var stop: nat := 0;
      ghost var ref := r;
      RunNil(r);
      NoneAtFirst(r, data, rest);
      while pos < |data| && go
        invariant go ==> pos <= |data| && Mid(st, ref, data, mark, pos, 0, good)
        invariant go && good ==> Run(ref, data[pos..]) == Run(r, data) && ref == Run(r, data[..pos])
        invariant go && good ==> NoneBefore(r, data, rest, pos)
        invariant !go && good && !overran ==> !st.core.errno.OK? && Same(st, Run(r, data))
        invariant !go && good && !overran ==> NoneBefore(r, data, rest, |data|) && FailsFirst(r, data, stop)
        invariant !go && !overran && st.core.errno.OK? ==> stop <= |data| && st.core.upgrade
        invariant overran ==> !go && (good ==> Straddles(r, data, rest))
        invariant st.core.errno.OK? ==> ParserOk(st)
        decreases go, |data| - pos
      {
        ghost var was := pos;
        ghost var before := ref;
        pos, mark, stop, go, overran, ref := Turn(data, rest, pos, mark, ref, good);
        if good {
          StraddleStep(r, data, rest, was, pos, before, go, overran);
          if !go && !overran { StopsFirst(r, data, was, stop, before); }
        }
      }
      if good && !overran { NoneAtAll(r, data, rest); }
      if !go { return stop, overran; }
      if mark >= 0 { st := st.(body := st.body + data[mark..pos]); }
      assert data[|data|..] == [];
      RunNil(ref);
      return |data|, false;
    }
  }

  lemma QuietOne(r: Parser, data: seq<Byte>, a: nat)
    requires a < |data|
    ensures Quiet(r, data, a, a + 1)
  {
  }

  lemma StoppedStraddle(r: Parser, data: seq<Byte>, rest: seq<Byte>)
    requires !r.core.errno.OK?
    ensures !Straddles(r, data, rest)
  {
    hide Run, Step;
    forall k | 0 <= k < |data| ensures !StraddlesAt(r, data, rest, k) { Stopped(r, data[..k]); }
  }

  lemma NoneAtFirst(r: Parser, data: seq<Byte>, rest: seq<Byte>)
    ensures NoneBefore(r, data, rest, 0)
  {
  }

  lemma NoneAtAll(r: Parser, data: seq<Byte>, rest: seq<Byte>)
    requires NoneBefore(r, data, rest, |data|)
    ensures !Straddles(r, data, rest)
  {
    hide StraddlesAt;
  }

  /** What one turn says about overhanging headers. */
  lemma StraddleStep(r: Parser, data: seq<Byte>, rest: seq<Byte>, was: nat, pos: nat, ref: Parser, go: bool, overran: bool)
    requires was < |data| && NoneBefore(r, data, rest, was) && ref == Run(r, data[..was])
    requires overran <==> AtStart(ref) && Overhangs(data, rest, was)
    requires !overran ==> was < pos <= |data| && Quiet(ref, data, was, if go then pos else |data|)
    ensures overran ==> Straddles(r, data, rest)
    ensures !overran ==> NoneBefore(r, data, rest, if go then pos else |data|)
    ensures !overran ==> Run(ref, data[was..pos]) == Run(r, data[..pos])
  {
    hide Run, Quiet, NoneBefore, AtStart, Overhangs;
    if overran {
      assert StraddlesAt(r, data, rest, was);
    } else {
      NoneSoFar(r, data, rest, was, if go then pos else |data|);
      assert data[0..was] == data[..was] && data[0..pos] == data[..pos];
      RunSlices(r, data, 0, was, pos);
    }
  }

  /** Bytes owed grow by the bytes just read. */
  lemma Owed(body: seq<Byte>, data: seq<Byte>, mark: int, pos: nat, pos': nat)
    requires -1 <= mark <= pos <= pos' <= |data|
    ensures var m := if mark >= 0 then mark else pos;
      body + data[m..pos'] == (if mark >= 0 then body + data[mark..pos] else body) + data[pos..pos']
  {
    if mark >= 0 {
      assert data[mark..pos'] == data[mark..pos] + data[pos..pos'];
    } else {
      assert body + data[pos..pos'] == body + data[pos..pos'];
    }
  }

  /** The last byte of a plain body does not upgrade. */
  lemma BodyEnd(r: Parser, data: seq<Byte>, pos: nat, n: nat)
    requires r.core.errno.OK? && (r.core.state.BodyIdentity? || r.core.state.ChunkData?)
    requires 0 < n <= r.core.contentLength && pos + n <= |data| && Plain(r, data[pos..])
    ensures r.core.state.BodyIdentity? && n == r.core.contentLength ==> !r.core.upgrade
  {
    hide Step, Run, Plain, ShouldKeepAlive;
    var q := Run(r, data[pos..pos + n - 1]);
    if n == 1 { RunNil(r); assert data[pos..pos] == []; } else { BodyRun(r, data[pos..pos + n - 1]); }
    Advance(r, data, pos, pos + n - 1);
    Advance1(q, data, pos + n - 1);
    BodyStep(q, data[pos + n - 1]);
  }

  lemma EofOk(c: Core)
    requires c.state.BodyIdentityEof? && CoreOk(c)
    ensures CoreOk(c.(completed := c.completed + 1))
  {
  }

  lemma ValueOk(e: Parser, ch: Byte)
    requires e.core.state.Value? && CoreOk(e.core) && ch != CR && ch != LF && e.core.errno.OK?
    ensures var q := ValueByte(e, ch);
      q.core.errno.OK? ==> q.core.state.Value? && CoreOk(q.core) && !q.core.reset
    ensures ValueByte(e, ch).nread == e.nread && ValueByte(e, ch).body == e.body
    ensures ValueByte(e, ch).core.completed == e.core.completed
    ensures e.core.hstate.General? && IsHeaderChar(ch) ==> ValueByte(e, ch) == e.(core := e.core.(reset := false))
  {
    hide Tok, Lower, MatchWord;
  }

  lemma ValueAgree(e: Parser, r: Parser, ch: Byte)
    requires e.core == r.core && e.core.state.Value? && e.index == r.index
    ensures var f, q := ValueByte(e, ch), ValueByte(r, ch);
      f.core == q.core && f.index == q.index && q.body == r.body && q.nread == r.nread
  {
    hide ValueState, ValueIndex, LengthDigit;
  }

  lemma ValueEnds(e: Parser, ch: Byte)
    requires e.core.state.Value? && CoreOk(e.core) && (ch == CR || ch == LF)
    ensures ValueByte(e, ch) ==
            e.(core := e.core.(reset := false, state := if ch == CR then HeaderAlmostDone else ValueLws))
  {
  }

  /** One byte ahead inside a piece. */
  lemma Advance1(r: Parser, data: seq<Byte>, pos: nat)
    requires pos < |data| && Plain(r, data[pos..]) && r.core.errno.OK?
    ensures Run(Step(r, data[pos]), data[pos + 1..]) == Run(r, data[pos..])
    ensures Plain(Step(r, data[pos]), data[pos + 1..])
    ensures 2 * Count(r) <= MAX_HEADER_SIZE && !EndsInUpgrade(r.core, Step(r, data[pos]).core)
    ensures r.core.state.Value? ==> IsHeaderChar(data[pos])
  {
    hide Step, Run, Plain;
    PlainNow(r, data[pos..]);
    Advance(r, data, pos, pos + 1);
    assert data[pos..pos + 1] == [data[pos]];
    RunSingle(r, data[pos]);
  }

  lemma PlainNow(r: Parser, s: seq<Byte>)
    requires s != [] && Plain(r, s) && r.core.errno.OK?
    ensures 2 * Count(r) <= MAX_HEADER_SIZE && !EndsInUpgrade(r.core, Step(r, s[0]).core)
    ensures r.core.state.Value? ==> IsHeaderChar(s[0])
  {
    hide Step;
  }

  // ---- whole streams

  function Join(pieces: seq<seq<Byte>>): (r: seq<Byte>) {
    if pieces == [] then [] else Join(pieces[..|pieces| - 1]) + pieces[|pieces| - 1]
  }

  /** Some piece cuts a header at the start of a response, with the rest of it behind. */
  ghost predicate CutBadly(pieces: seq<seq<Byte>>, rests: seq<seq<Byte>>, n: nat)
    requires n <= |pieces| == |rests|
  {
    exists i :: 0 <= i < n && Straddles(Run(INITIAL, Join(pieces[..i])), pieces[i], rests[i])
  }

  /** A stream arriving in any pieces: the parser ends where the byte machine ends on the
      whole stream, whatever the cuts and whichever pieces took the shortcut; or some piece
      cuts the fixed header badly, and then it steps over the end of that piece. */
  method Feed(pieces: seq<seq<Byte>>, rests: seq<seq<Byte>>) returns (p: HttpParser, overran: bool)
    requires |rests| == |pieces| && forall i :: 0 <= i < |pieces| ==> pieces[i] != []
    requires Plain(INITIAL, Join(pieces))
    ensures fresh(p) && (overran <==> CutBadly(pieces, rests, |pieces|))
    ensures !overran ==> Same(p.st, Run(INITIAL, Join(pieces)))
  {
    hide Step, Run, Plain, Header, Sim, CoreOk, Straddles;
    p := new HttpParser();
    ghost var r := INITIAL;
    overran := false;
    InitialOk();
    for i := 0 to |pieces|
      invariant fresh(p) && (p.st.core.errno.OK? ==> ParserOk(p.st))
      invariant !overran && !CutBadly(pieces, rests, i)
      invariant Same(p.st, Run(r, Join(pieces[..i])))
    {
      JoinPrefix(pieces, i);
      ghost var before := Join(pieces[..i]);
      PlainAfter(r, before, pieces[i] + JoinFrom(pieces, i + 1));
      PlainAfter(Run(r, before), pieces[i], JoinFrom(pieces, i + 1));
      RunConcat(r, before, pieces[i]);
      var n;
      n, overran := p.Execute(pieces[i], rests[i], Run(r, before));
      if overran { return; }
    }
    assert pieces[..|pieces|] == pieces;
  }

  ghost function JoinFrom(pieces: seq<seq<Byte>>, i: nat): seq<Byte>
    requires i <= |pieces|
  {
    Join(pieces)[if |Join(pieces[..i])| <= |Join(pieces)| then |Join(pieces[..i])| else 0..]
  }

  lemma {:induction false} JoinPrefix(pieces: seq<seq<Byte>>, i: nat)
    requires i < |pieces|
    ensures Join(pieces[..i + 1]) == Join(pieces[..i]) + pieces[i]
    ensures Join(pieces) == Join(pieces[..i]) + (pieces[i] + JoinFrom(pieces, i + 1))
  {
    assert pieces[..i + 1][..i] == pieces[..i];
    JoinTail(pieces, i + 1);
  }

  lemma {:induction false} JoinTail(pieces: seq<seq<Byte>>, i: nat)
    requires i <= |pieces|
    ensures Join(pieces[..i]) <= Join(pieces)
  {
    if i == |pieces| {
      assert pieces[..i] == pieces;
    } else {
      assert pieces[..|pieces| - 1][..i] == pieces[..i];
      JoinTail(pieces[..|pieces| - 1], i);
    }
  }

  lemma InitialOk()
    ensures ParserOk(INITIAL) && Same(INITIAL, Run(INITIAL, Join([])))
  {
    RunNil(INITIAL);
  }
}
