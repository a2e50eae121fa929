/** What the lines of a header block mean: from their bytes to the flags, the length and the
    status that decide about the message. */
module HttpHeads {
  import opened HttpMachine
  import opened HttpRuns
  import opened HttpDigits
  import opened HttpWords
  import opened HttpEnds
  import opened HttpFastPath
  import opened HttpExecute
  import opened HttpFraming

  /** The parser after some bytes of a header line: a new core, the same body. */
  ghost predicate Became(p: Parser, q: Parser, c: Core) {
    q.core == c.(reset := false) && q.body == p.body && c.errno.OK?
  }

  // ---- the name

  /** What is read where a line begins, if the line before does not go on. */
  lemma LineStarts(c: Core, ch: Byte)
    requires LineBegins(c.state) && ch != SP && ch != HT
    ensures OneByte(c, ch) == OnFieldStart(LineFinished(c.(reset := false)), ch)
  {
    hide OnFieldStart, FinishFlags, OnValueStart, OnHeadersAlmostDone;
  }

  lemma NotBlank(ch: Byte)
    requires Tok(ch) != 0
    ensures ch != SP && ch != HT && ch != CR && ch != LF && ch != COLON
  {
  }

  lemma NameFirst(p: Parser, ch: Byte)
    requires p.core.errno.OK? && LineBegins(p.core.state) && Tok(ch) != 0
    ensures var q := Step(p, ch);
      Became(p, q, LineFinished(p.core).(state := Field, hstate := q.core.hstate)) && InName(q, [Tok(ch)])
  {
    hide Step, NameStateOf, OnHeadersAlmostDone, OneByte, Tok, FinishFlags;
    NonBulkStep(p, ch);
    NotBlank(ch);
    LineStarts(p.core, ch);
    NameStateStart(Tok(ch));
  }

  /** The first byte of the blank line. */
  lemma BlankCr(p: Parser)
    requires p.core.errno.OK? && LineBegins(p.core.state)
    ensures Became(p, Step(p, CR), LineFinished(p.core).(state := HeadersAlmostDone))
  {
    hide Step, OneByte, Tok, OnHeadersAlmostDone, FinishFlags;
    NonBulkStep(p, CR);
    LineStarts(p.core, CR);
  }

  lemma Colon(p: Parser)
    requires p.core.errno.OK? && p.core.state.Field?
    ensures Became(p, Step(p, COLON), p.core.(state := DiscardWs))
  {
    hide Step, FieldState;
    FieldStep(p, COLON);
  }

  /** A name and its colon, where a line begins. */
  lemma NameRun(p: Parser, n: seq<Byte>)
    requires p.core.errno.OK? && LineBegins(p.core.state) && n != [] && AllTok(n)
    ensures Became(p, Run(p, n + [COLON]), LineFinished(p.core).(state := DiscardWs, hstate := NameStateOf(Small(n))))
  {
    hide Step, Run, Tok, NameStateOf, LineFinished;
    var t := n[1..];
    RunOne(p, n);
    NameFirst(p, n[0]);
    var q := Step(p, n[0]);
    NameExact(q, [Tok(n[0])], t);
    assert [Tok(n[0])] + Small(t) == Small(n);
    var r := Run(q, t);
    Colon(r);
    RunSingle(r, COLON);
    RunTwo(p, n, [COLON], r, Run(r, [COLON]));
  }

  // ---- the end of the line

  predicate InValue(s: State) { s.DiscardWs? || s.Value? }

  lemma LineEnd(p: Parser)
    requires p.core.errno.OK? && InValue(p.core.state)
    ensures Became(p, Run(p, CRLF), p.core.(state := if p.core.state.Value? then ValueLws else DiscardLws))
  {
    hide Step, Run;
    LineCr(p);
    var q := Step(p, CR);
    LineLf(q);
    RunSingle(p, CR);
    RunSingle(q, LF);
    RunTwo(p, [CR], [LF], q, Step(q, LF));
    assert CRLF == [CR] + [LF];
  }

  lemma LineCr(p: Parser)
    requires p.core.errno.OK? && InValue(p.core.state)
    ensures Became(p, Step(p, CR), p.core.(state := if p.core.state.Value? then HeaderAlmostDone else DiscardWsAlmostDone))
  {
    hide Step, Tok, OnFieldStart, OnHeadersAlmostDone, OnValueStart;
    if p.core.state.Value? {
      ValueStep(p, CR);
      ValueCr(p);
    } else {
      NonBulkStep(p, CR);
    }
  }

  lemma ValueCr(p: Parser)
    requires p.core.state.Value?
    ensures ValueByte(p, CR) == p.(core := p.core.(reset := false, state := HeaderAlmostDone))
  {
  }

  lemma LineLf(p: Parser)
    requires p.core.errno.OK? && (p.core.state.HeaderAlmostDone? || p.core.state.DiscardWsAlmostDone?)
    ensures Became(p, Step(p, LF), p.core.(state := if p.core.state.HeaderAlmostDone? then ValueLws else DiscardLws))
  {
    hide Step, Tok, OnFieldStart, OnHeadersAlmostDone, OnValueStart;
    NonBulkStep(p, LF);
  }

  // ---- the value, up to its first byte

  predicate Blanks(s: seq<Byte>) { forall i :: 0 <= i < |s| ==> s[i] == SP || s[i] == HT }

  lemma {:induction false} PadRun(p: Parser, s: seq<Byte>)
    requires p.core.errno.OK? && p.core.state.DiscardWs? && !p.core.reset && Blanks(s)
    ensures Became(p, Run(p, s), p.core)
    decreases |s|
  {
    hide Step, Run;
    if s == [] {
      RunNil(p);
    } else {
      PadRun(p, s[..|s| - 1]);
      RunLast(p, s);
      PadByte(Run(p, s[..|s| - 1]), s[|s| - 1]);
    }
  }

  lemma PadByte(p: Parser, ch: Byte)
    requires p.core.errno.OK? && p.core.state.DiscardWs? && (ch == SP || ch == HT)
    ensures Became(p, Step(p, ch), p.core)
  {
    hide Step, Tok, OnFieldStart, OnHeadersAlmostDone, OnValueStart;
    NonBulkStep(p, ch);
  }

  /** The first byte of a value. */
  lemma ValueFirst(p: Parser, ch: Byte)
    requires p.core.errno.OK? && p.core.state.DiscardWs? && Plainchar(ch) && ch != SP && ch != HT
    ensures var q := Step(p, ch);
      q.core == OnValueStart(p.core.(reset := false), ch) && q.body == p.body && q.index == 0
  {
    hide Step, Tok, OnFieldStart, OnHeadersAlmostDone, OnValueStart;
    NonBulkStep(p, ch);
    ValueStartKeeps(p.core.(reset := false), ch);
  }

  predicate AllPlain(s: seq<Byte>) { forall i :: 0 <= i < |s| ==> Plainchar(s[i]) }

  // ---- values that are not read, transfer codings

  /** A value of a line the parser does not look at, or of an Upgrade line. */
  lemma GeneralRun(p: Parser, v: seq<Byte>)
    requires p.core.errno.OK? && p.core.state.DiscardWs? && v != [] && AllPlain(v) && v[0] != SP && v[0] != HT
    requires var h := p.core.hstate; !h.TransferEncoding? && !h.ContentLength? && !h.Connection? && !h.TokenStart?
    ensures Became(p, Run(p, v), p.core.(state := Value, hstate := General,
                                         flags := if p.core.hstate.Upgrade? then p.core.flags.(upgrade := true) else p.core.flags))
  {
    hide Step, Run, Plainchar, Lower;
    RunOne(p, v);
    ValueFirst(p, v[0]);
    var q := Step(p, v[0]);
    if |v| == 1 {
      RunNil(q);
    } else {
      GeneralValue(q, v[1..]);
    }
  }

  ghost predicate InCoding(p: Parser, l: seq<Byte>) {
    && p.core.state.Value? && p.core.errno.OK? && l != [] && p.core.hstate == CodingStateOf(l)
    && (p.core.hstate.MatchChunked? ==> p.index == |l| - 1)
  }

  lemma CodingByte(p: Parser, l: seq<Byte>, ch: Byte)
    requires InCoding(p, l) && Plainchar(ch)
    ensures var q := Step(p, ch); var m := l + [Lower(ch)];
      InCoding(q, m) && Became(p, q, p.core.(hstate := CodingStateOf(m)))
  {
    hide Step, ValueState, Lower, CodingStateOf;
    ValueStep(p, ch);
    CodingStateStep(l, ch);
    CodingStates(l);
    CodingStates(l + [Lower(ch)]);
    IndexIdle(p.core.hstate, ValueIndex(p.core.hstate, p.index, ch), |l|, ch);
  }

  lemma CodingStates(l: seq<Byte>)
    ensures CodingStateOf(l).Chunked? || CodingStateOf(l).MatchChunked? || CodingStateOf(l).General?
  {
  }

  lemma IndexIdle(h: HeaderState, i: nat, j: nat, ch: Byte)
    requires i == j || !(h.MatchChunked? || h.MatchKeepAlive? || h.MatchClose? || h.MatchConnUpgrade?)
    ensures ValueState(h, i, ch) == ValueState(h, j, ch)
    ensures h.Chunked? || h.General? ==> !ValueState(h, i, ch).MatchChunked?
  {
  }

  /** Any Transfer-Encoding value: chunked is recognised exactly if it is the value. */
  lemma {:induction false} CodingRun(p: Parser, v: seq<Byte>)
    requires p.core.errno.OK? && p.core.state.DiscardWs? && p.core.hstate.TransferEncoding?
    requires v != [] && AllPlain(v) && v[0] != SP && v[0] != HT
    ensures InCoding(Run(p, v), Lowered(v))
    ensures Became(p, Run(p, v), p.core.(state := Value, hstate := CodingStateOf(Lowered(v))))
    decreases |v|
  {
    hide Step, Run, Plainchar, Lower, CodingStateOf;
    var k := |v| - 1;
    RunLast(p, v);
    if k == 0 {
      RunNil(p);
      ValueFirst(p, v[0]);
      CodingFirst(v[0]);
      assert Lowered(v) == [Lower(v[0])];
    } else {
      var a := v[..k];
      CodingRun(p, a);
      CodingByte(Run(p, a), Lowered(a), v[k]);
      assert Lowered(a) + [Lower(v[k])] == Lowered(v);
    }
  }

  lemma CodingFirst(ch: Byte)
    ensures CodingStateOf([Lower(ch)]) == if Lower(ch) == 'c' as int then MatchChunked else General
  {
    hide Lower;
    var t := Lower(ch);
    assert [] + [t] == [t];
    BeginsStep([], t, CHUNKED);
  }

  // ---- Connection values: a list of words

  /** A word of the list, the spaces behind it, and those before it if it is not the first. */
  datatype Item = Item(lead: seq<Byte>, word: seq<Byte>, trail: seq<Byte>)

  predicate Spaces(s: seq<Byte>) { forall i :: 0 <= i < |s| ==> s[i] == SP }

  predicate WordOk(w: seq<Byte>) {
    && w != [] && Tok(Lower(w[0])) != 0
    && forall i :: 0 <= i < |w| ==> Plainchar(w[i]) && w[i] != COMMA && w[i] != SP && w[i] != HT
  }

  predicate ItemOk(i: Item) { Spaces(i.lead) && WordOk(i.word) && Spaces(i.trail) }

  /** The parser inside a word of which the letters `l` were read. */
  ghost predicate InWord(p: Parser, l: seq<Byte>) {
    && p.core.state.Value? && p.core.errno.OK? && l != [] && p.core.hstate == WordStateOf(l)
    && (Half(p.core.hstate) ==> p.index == |l| - 1)
  }

  /** A word that has only begun like one of those looked for. */
  predicate Half(h: HeaderState) { h.MatchKeepAlive? || h.MatchClose? || h.MatchConnUpgrade? }

  lemma WordStates(l: seq<Byte>)
    ensures var h := WordStateOf(l); Half(h) || h.KeepAlive? || h.Close? || h.ConnUpgrade? || h.Token?
  {
  }

  lemma WordByte(p: Parser, l: seq<Byte>, ch: Byte)
    requires InWord(p, l) && Plainchar(ch) && ch != COMMA && ch != SP
    ensures var q := Step(p, ch); var m := l + [Lower(ch)];
      InWord(q, m) && Became(p, q, p.core.(hstate := WordStateOf(m)))
  {
    hide Step, ValueState, Lower, WordStateOf;
    ValueStep(p, ch);
    WordStateStep(l, ch);
    WordStates(l);
    WordGoesOn(p.core.hstate, ValueIndex(p.core.hstate, p.index, ch), |l|, ch);
  }

  lemma WordGoesOn(h: HeaderState, i: nat, j: nat, ch: Byte)
    requires Half(h) || h.KeepAlive? || h.Close? || h.ConnUpgrade? || h.Token?
    requires ch != COMMA && (Half(h) ==> i == j)
    ensures ValueState(h, i, ch) == ValueState(h, j, ch)
    ensures !Half(h) ==> !Half(ValueState(h, i, ch))
  {
  }

  lemma {:induction false} WordRest(p: Parser, l: seq<Byte>, w: seq<Byte>)
    requires InWord(p, l) && !p.core.reset
    requires forall i :: 0 <= i < |w| ==> Plainchar(w[i]) && w[i] != COMMA && w[i] != SP
    ensures InWord(Run(p, w), l + Lowered(w)) && Became(p, Run(p, w), p.core.(hstate := WordStateOf(l + Lowered(w))))
    decreases |w|
  {
    hide Step, Run, Plainchar, Lower, WordStateOf;
    if w == [] {
      RunNil(p);
      assert l + Lowered(w) == l;
    } else {
      var k := |w| - 1;
      var a := w[..k];
      WordRest(p, l, a);
      RunLast(p, w);
      WordByte(Run(p, a), l + Lowered(a), w[k]);
      assert l + Lowered(a) + [Lower(w[k])] == l + Lowered(w);
    }
  }

  /** Where the first word may begin, and where a later one. */
  ghost predicate BeforeWord(p: Parser) {
    && p.core.errno.OK?
    && ((p.core.state.DiscardWs? && p.core.hstate.Connection?) || (p.core.state.Value? && p.core.hstate.TokenStart? && p.index == 0))
  }

  lemma WordFirst(p: Parser, ch: Byte)
    requires BeforeWord(p) && Plainchar(ch) && ch != COMMA && ch != SP && ch != HT && Tok(Lower(ch)) != 0
    ensures var q := Step(p, ch);
      InWord(q, [Lower(ch)]) && Became(p, q, p.core.(state := Value, hstate := WordStateOf([Lower(ch)])))
  {
    hide Step, Tok, Lower, WordStateOf;
    WordStateStart(Lower(ch));
    if p.core.state.DiscardWs? {
      ValueFirst(p, ch);
    } else {
      ValueStep(p, ch);
    }
  }

  /** A word of the list: recognised exactly if it is one of those looked for. */
  lemma WordRun(p: Parser, w: seq<Byte>)
    requires BeforeWord(p) && WordOk(w)
    ensures InWord(Run(p, w), Lowered(w)) && Became(p, Run(p, w), p.core.(state := Value, hstate := WordStateOf(Lowered(w))))
  {
    hide Step, Run, Plainchar, Lower, Tok, WordStateOf;
    var t := w[1..];
    RunOne(p, w);
    WordFirst(p, w[0]);
    WordRest(Step(p, w[0]), [Lower(w[0])], t);
    assert [Lower(w[0])] + Lowered(t) == Lowered(w);
  }

  /** Spaces behind a word settle it. */
  function Settled(h: HeaderState, s: seq<Byte>): HeaderState { if s != [] && Half(h) then Token else h }

  predicate Known(h: HeaderState) { Half(h) || h.KeepAlive? || h.Close? || h.ConnUpgrade? || h.Token? }

  lemma SpaceByte(p: Parser)
    requires p.core.errno.OK? && p.core.state.Value? && Known(p.core.hstate)
    ensures Became(p, Step(p, SP), p.core.(hstate := if Half(p.core.hstate) then Token else p.core.hstate))
  {
    hide Step;
    ValueStep(p, SP);
    NoSpaceInWords(p.index + 1);
  }

  lemma NoSpaceInWords(i: nat)
    ensures Lower(SP) == SP
    ensures !WordAt(KEEP_ALIVE, i, SP) && !WordAt(CLOSE, i, SP) && !WordAt(UPGRADE, i, SP)
  {
  }

  lemma {:induction false} SpacesRun(p: Parser, s: seq<Byte>)
    requires p.core.errno.OK? && p.core.state.Value? && Known(p.core.hstate) && !p.core.reset && Spaces(s)
    ensures Became(p, Run(p, s), p.core.(hstate := Settled(p.core.hstate, s)))
    decreases |s|
  {
    hide Step, Run;
    if s == [] {
      RunNil(p);
    } else {
      SpacesRun(p, s[..|s| - 1]);
      RunLast(p, s);
      SpaceByte(Run(p, s[..|s| - 1]));
    }
  }

  /** A comma behind a settled word: its flag is set and the next word may begin. */
  lemma CommaByte(p: Parser)
    requires p.core.errno.OK? && p.core.state.Value? && Known(p.core.hstate) && !Half(p.core.hstate)
    ensures BeforeWord(Step(p, COMMA))
    ensures Became(p, Step(p, COMMA), p.core.(hstate := TokenStart, flags := FinishFlags(p.core.hstate, p.core.flags)))
  {
    hide Step;
    ValueStep(p, COMMA);
  }

  lemma {:induction false} LeadRun(p: Parser, s: seq<Byte>)
    requires p.core.errno.OK? && p.core.state.Value? && p.core.hstate.TokenStart? && p.index == 0 && !p.core.reset && Spaces(s)
    ensures Became(p, Run(p, s), p.core) && BeforeWord(Run(p, s))
    decreases |s|
  {
    hide Step, Run;
    if s == [] {
      RunNil(p);
    } else {
      LeadRun(p, s[..|s| - 1]);
      RunLast(p, s);
      LeadByte(Run(p, s[..|s| - 1]));
    }
  }

  lemma LeadByte(p: Parser)
    requires p.core.errno.OK? && p.core.state.Value? && p.core.hstate.TokenStart? && p.index == 0
    ensures Became(p, Step(p, SP), p.core) && Step(p, SP).index == 0
  {
    hide Step;
    ValueStep(p, SP);
    NoSpaceInWords(0);
  }

  // ---- the list

  function ItemState(i: Item): HeaderState { Settled(WordStateOf(Lowered(i.word)), i.trail) }

  /** The bytes of a list: its first item without spaces before it, commas between items. */
  function ListText(items: seq<Item>): (s: seq<Byte>) {
    if items == [] then []
    else
      var i := items[|items| - 1];
      if |items| == 1 then i.word + i.trail
      else ListText(items[..|items| - 1]) + [COMMA] + i.lead + i.word + i.trail
  }

  /** A word that has only begun like one looked for swallows a comma right behind it. */
  predicate ListOk(items: seq<Item>) {
    && items != [] && (forall k :: 0 <= k < |items| ==> ItemOk(items[k]))
    && forall k :: 0 <= k < |items| - 1 ==> !Half(ItemState(items[k]))
  }

  /** The flags once the words of a list are counted in. */
  function WithWords(f: Flags, items: seq<Item>): Flags {
    if items == [] then f
    else FinishFlags(ItemState(items[|items| - 1]), WithWords(f, items[..|items| - 1]))
  }

  lemma ItemRun(p: Parser, i: Item)
    requires BeforeWord(p) && ItemOk(i)
    ensures Became(p, Run(p, i.word + i.trail), p.core.(state := Value, hstate := ItemState(i)))
  {
    hide Step, Run, WordStateOf, WordOk, Spaces;
    WordRun(p, i.word);
    WordStates(Lowered(i.word));
    var q := Run(p, i.word);
    SpacesRun(q, i.trail);
    RunTwo(p, i.word, i.trail, q, Run(q, i.trail));
  }

  lemma ItemKnown(i: Item)
    ensures Known(ItemState(i))
  {
    hide WordStateOf;
    WordStates(Lowered(i.word));
  }

  lemma {:induction false} ListRun(p: Parser, items: seq<Item>)
    requires p.core.errno.OK? && p.core.state.DiscardWs? && p.core.hstate.Connection? && ListOk(items)
    ensures var n := |items| - 1;
      Became(p, Run(p, ListText(items)),
             p.core.(state := Value, hstate := ItemState(items[n]), flags := WithWords(p.core.flags, items[..n])))
    decreases |items|
  {
    hide Step, Run, ItemOk, ItemState, FinishFlags;
    var n := |items| - 1;
    var i := items[n];
    if n == 0 {
      ItemRun(p, i);
    } else {
      var a := items[..n];
      ListRun(p, a);
      assert a[..n - 1] == items[..n - 1] && a[n - 1] == items[n - 1];
      var q := Run(p, ListText(a));
      NextItem(q, i, items[n - 1]);
      var t := [COMMA] + i.lead + i.word + i.trail;
      assert ListText(items) == ListText(a) + t;
      RunTwo(p, ListText(a), t, q, Run(q, t));
    }
  }

  lemma NextItem(q: Parser, i: Item, j: Item)
    requires q.core.errno.OK? && q.core.state.Value? && q.core.hstate == ItemState(j) && !Half(ItemState(j)) && ItemOk(i)
    ensures Became(q, Run(q, [COMMA] + i.lead + i.word + i.trail),
                   q.core.(hstate := ItemState(i), flags := FinishFlags(ItemState(j), q.core.flags)))
  {
    hide Step, Run, ItemState, FinishFlags, WordOk, Spaces;
    ItemKnown(j);
    CommaByte(q);
    RunSingle(q, COMMA);
    var r := Run(q, [COMMA]);
    LeadRun(r, i.lead);
    var t := Run(r, i.lead);
    ItemRun(t, i);
    RunTwo(q, [COMMA], i.lead, r, t);
    var w := i.word + i.trail;
    RunTwo(q, [COMMA] + i.lead, w, t, Run(t, w));
    assert [COMMA] + i.lead + i.word + i.trail == [COMMA] + i.lead + w;
  }

  /** The word is in the list, in any letter case. */
  predicate AnyWord(items: seq<Item>, w: string) {
    exists k :: 0 <= k < |items| && Is(Lowered(items[k].word), w)
  }

  lemma AnyStep(items: seq<Item>, w: string)
    requires items != []
    ensures AnyWord(items, w) <==> AnyWord(items[..|items| - 1], w) || Is(Lowered(items[|items| - 1].word), w)
  {
    hide Is, Lowered;
    var n := |items| - 1;
    var a := items[..n];
    if AnyWord(items, w) {
      var k :| 0 <= k < |items| && Is(Lowered(items[k].word), w);
      if k < n { assert a[k] == items[k]; }
    }
    if k :| 0 <= k < |a| && Is(Lowered(a[k].word), w) { assert a[k] == items[k]; }
  }

  /** What the flags of a list say: which words are in it. */
  lemma {:induction false} WordsFlags(f: Flags, items: seq<Item>)
    ensures var g := WithWords(f, items);
      && (g.keepAlive <==> f.keepAlive || AnyWord(items, KEEP_ALIVE))
      && (g.close <==> f.close || AnyWord(items, CLOSE))
      && (g.connUpgrade <==> f.connUpgrade || AnyWord(items, UPGRADE))
      && g.chunked == f.chunked && g.contentLength == f.contentLength && g.trailing == f.trailing && g.upgrade == f.upgrade
    decreases |items|
  {
    hide Is, Lowered, AnyWord, ItemState;
    if items == [] {
      NoWords(KEEP_ALIVE);
      NoWords(CLOSE);
      NoWords(UPGRADE);
    } else {
      var n := |items| - 1;
      WordsFlags(f, items[..n]);
      ItemFlag(items[n]);
      AnyStep(items, KEEP_ALIVE);
      AnyStep(items, CLOSE);
      AnyStep(items, UPGRADE);
    }
  }

  lemma NoWords(w: string)
    ensures !AnyWord([], w)
  {
  }

  lemma ItemFlag(i: Item)
    ensures ItemState(i).KeepAlive? <==> Is(Lowered(i.word), KEEP_ALIVE)
    ensures ItemState(i).Close? <==> Is(Lowered(i.word), CLOSE)
    ensures ItemState(i).ConnUpgrade? <==> Is(Lowered(i.word), UPGRADE)
    ensures !ItemState(i).Chunked?
  {
    hide Begins, Lowered;
    OneWord(Lowered(i.word));
  }

  lemma OneWord(l: seq<Byte>)
    ensures !(Is(l, KEEP_ALIVE) && Is(l, CLOSE)) && !(Is(l, KEEP_ALIVE) && Is(l, UPGRADE)) && !(Is(l, CLOSE) && Is(l, UPGRADE))
  {
  }

  /** A word that has only begun like one looked for, as in `k,close`: the comma is swallowed,
      and what follows is part of the same word. */
  lemma CommaSwallowed(p: Parser)
    requires p.core.errno.OK? && p.core.state.Value? && Half(p.core.hstate)
    ensures Became(p, Step(p, COMMA), p.core.(hstate := Token))
  {
    hide Step;
    ValueStep(p, COMMA);
    NoCommaInWords(p.index + 1);
  }

  lemma NoCommaInWords(i: nat)
    ensures !WordAt(KEEP_ALIVE, i, Lower(COMMA)) && !WordAt(CLOSE, i, Lower(COMMA)) && !WordAt(UPGRADE, i, Lower(COMMA))
  {
  }

  /** Exactly then: a comma ends the word before it if and only if that word is not the mere
      beginning of one looked for. */
  lemma CommaEnds(p: Parser, l: seq<Byte>)
    requires InWord(p, l)
    ensures Step(p, COMMA).core.hstate.TokenStart? <==> !(Cut(l, KEEP_ALIVE) || Cut(l, CLOSE) || Cut(l, UPGRADE))
  {
    hide Step, Begins, Is;
    WordStates(l);
    CutIsHalf(l);
    if Half(p.core.hstate) { CommaSwallowed(p); } else { CommaByte(p); }
  }

  predicate Cut(l: seq<Byte>, w: string) { Begins(l, w) && |l| < |w| }

  lemma CutIsHalf(l: seq<Byte>)
    requires l != []
    ensures Half(WordStateOf(l)) <==> Cut(l, KEEP_ALIVE) || Cut(l, CLOSE) || Cut(l, UPGRADE)
  {
    WordLetters(l);
  }

  /** A byte that cannot begin a word, where one may begin: the rest of the list is not read. */
  lemma ListAbandoned(p: Parser, v: seq<Byte>)
    requires p.core.errno.OK? && p.core.state.Value? && p.core.hstate.TokenStart?
    requires v != [] && AllPlain(v) && v[0] != SP && v[0] != COMMA && Tok(Lower(v[0])) == 0
    ensures Became(p, Run(p, v), p.core.(hstate := General))
  {
    hide Step, Run, Plainchar;
    RunOne(p, v);
    ListStops(p, v[0]);
    var q := Step(p, v[0]);
    if |v| == 1 { RunNil(q); } else { GeneralValue(q, v[1..]); }
  }

  lemma ListStops(p: Parser, ch: Byte)
    requires p.core.errno.OK? && p.core.state.Value? && p.core.hstate.TokenStart?
    requires Plainchar(ch) && ch != SP && ch != COMMA && Tok(Lower(ch)) == 0
    ensures Became(p, Step(p, ch), p.core.(hstate := General))
  {
    hide Step;
    ValueStep(p, ch);
    LowerSpace(ch);
  }

  // ---- folded lines

  /** An empty value goes on with the next line if that begins with a blank. */
  lemma FoldedBlank(p: Parser, ch: Byte)
    requires p.core.errno.OK? && p.core.state.DiscardLws? && (ch == SP || ch == HT)
    ensures Became(p, Step(p, ch), p.core.(state := DiscardWs))
  {
    hide Step, Tok, OnFieldStart, OnHeadersAlmostDone, OnValueStart, FinishFlags;
    NonBulkStep(p, ch);
  }

  /** So does another value, but what it said is forgotten; a length is refused. */
  lemma FoldedValue(p: Parser, ch: Byte)
    requires p.core.errno.OK? && p.core.state.ValueLws? && WordState(p.core.hstate) && (ch == SP || ch == HT)
    ensures if p.core.hstate.ContentLength? then Step(p, ch).core.errno.InvalidContentLength?
            else Became(p, Step(p, ch), p.core.(state := Value, hstate := if p.core.hstate.TokenStart? then TokenStart else General))
  {
    hide Step, Tok, Lower, OnFieldStart, OnHeadersAlmostDone, FinishFlags;
    NonBulkStep(p, ch);
  }

  /** The flag of the word was set already. */
  predicate SaidBefore(h: HeaderState, f: Flags) {
    (h.KeepAlive? && f.keepAlive) || (h.Close? && f.close) || (h.Chunked? && f.chunked) || (h.ConnUpgrade? && f.connUpgrade)
  }

  /** A word counts if and only if its line is not folded: whatever the folded line holds, the
      flags stay as they were before the word. */
  lemma FoldForgets(p: Parser, v: seq<Byte>)
    requires p.core.errno.OK? && p.core.state.ValueLws?
    requires var h := p.core.hstate; h.KeepAlive? || h.Close? || h.Chunked? || h.ConnUpgrade?
    requires v != [] && AllPlain(v) && Blanks(v[..1])
    ensures Became(p, Run(p, v + CRLF), p.core.(state := ValueLws, hstate := General))
    ensures LineFinished(Run(p, v + CRLF).core).flags == p.core.flags
    ensures !SaidBefore(p.core.hstate, p.core.flags) ==> LineFinished(p.core).flags != p.core.flags
  {
    hide Step, Run, Plainchar;
    assert v[..1][0] == v[0];
    RunOne(p, v);
    FoldedValue(p, v[0]);
    var q := Step(p, v[0]);
    if |v| == 1 { RunNil(q); } else { GeneralValue(q, v[1..]); }
    var r := Run(p, v);
    LineEnd(r);
    RunTwo(p, v, CRLF, r, Run(r, CRLF));
  }

  const K_CLOSE: seq<Byte> := [107, 44, 99, 108, 111, 115, 101]   // k,close

  /** In `k,close` the close is not seen. */
  lemma CloseNotSeen(p: Parser)
    requires p.core.errno.OK? && p.core.state.DiscardWs? && p.core.hstate.Connection? && !p.core.reset
    ensures Became(p, Run(p, K_CLOSE), p.core.(state := Value, hstate := Token))
  {
    hide Step, Run, WordStateOf;
    WordFirst(p, 107);
    var q := Step(p, 107);
    WordStateStart(107);
    CommaSwallowed(q);
    var r := Step(q, COMMA);
    KCommaIsNone();
    var w := K_CLOSE[2..];
    WordRest(r, [107, 44], w);
    RunSingle(p, 107);
    RunSingle(q, COMMA);
    RunTwo(p, [107], [COMMA], q, r);
    RunTwo(p, [107] + [COMMA], w, r, Run(r, w));
    assert K_CLOSE == [107] + [COMMA] + w;
    assert [107, 44] + Lowered(w) == K_CLOSE;
  }

  lemma KCommaIsNone()
    ensures WordStateOf([107, 44]).Token? && WordStateOf(K_CLOSE).Token?
  {
    assert [107, 44][1] == 44 && K_CLOSE[1] == 44;
  }

  // ---- lines

  /** A header line; the value of a Connection line is a list. */
  datatype Heading =
    | Heading(name: seq<Byte>, pad: seq<Byte>, value: seq<Byte>)
    | Listing(name: seq<Byte>, pad: seq<Byte>, items: seq<Item>)

  function Kind(h: Heading): HeaderState { NameStateOf(Small(h.name)) }

  function ValueOf(h: Heading): seq<Byte> { if h.Heading? then h.value else ListText(h.items) }

  function Written(h: Heading): seq<Byte> { h.name + [COLON] + h.pad + ValueOf(h) + CRLF }

  /** What a header block has said so far. */
  datatype Said = Said(flags: Flags, length: nat)

  /** The line is well formed: any name, any value on one line; a length is a number that
      fits, and comes once. */
  ghost predicate HeadOk(h: Heading, m: Said) {
    && h.name != [] && AllTok(h.name) && Blanks(h.pad)
    && match h
       case Heading(_, _, v) =>
         && (Kind(h).Connection? ==> v == []) && AllPlain(v) && (v != [] ==> v[0] != SP && v[0] != HT)
         && (Kind(h).ContentLength? && v != [] ==>
               IsNum(v[0]) && NumsAndSpaces(v) && FitsDec(Nums(v)) && !m.flags.contentLength)
       case Listing(_, _, items) => Kind(h).Connection? && ListOk(items)
  }

  /** What the block has said with this line. */
  function After(m: Said, h: Heading): Said {
    match h
    case Heading(_, _, v) =>
      if v == [] then m
      else if Kind(h).ContentLength? then Said(m.flags.(contentLength := true), DecVal(Nums(v)))
      else if Kind(h).TransferEncoding? && IsChunked(Lowered(v)) then Said(m.flags.(chunked := true), m.length)
      else if Kind(h).Upgrade? then Said(m.flags.(upgrade := true), m.length)
      else m
    case Listing(_, _, items) => Said(WithWords(m.flags, items), m.length)
  }

  /** The parser where a line may begin, with what the block has said. */
  ghost predicate Stands(p: Parser, q: Parser, m: Said) {
    && q.core.errno.OK? && LineBegins(q.core.state) && q.body == p.body
    && LineFinished(q.core).flags == m.flags && q.core.contentLength == m.length
    && q.core.completed == p.core.completed && q.core.upgrade == p.core.upgrade
    && q.core.major == p.core.major && q.core.minor == p.core.minor && q.core.status == p.core.status
  }

  /** Up to the value. */
  lemma HeadBegins(p: Parser, q: Parser, m: Said, h: Heading)
    requires Stands(p, q, m) && HeadOk(h, m)
    ensures Became(q, Run(q, h.name + [COLON] + h.pad), LineFinished(q.core).(state := DiscardWs, hstate := Kind(h)))
  {
    hide Step, Run, NameStateOf, LineFinished, AllTok;
    NameRun(q, h.name);
    var a := h.name + [COLON];
    var r := Run(q, a);
    PadRun(r, h.pad);
    RunTwo(q, a, h.pad, r, Run(r, h.pad));
  }

  /** The value of a line, and what it leaves to be finished with the line. */
  lemma HeadValue(r: Parser, m: Said, h: Heading)
    requires r.core.errno.OK? && r.core.state.DiscardWs? && r.core.hstate == Kind(h) && HeadOk(h, m)
    requires r.core.flags == m.flags && r.core.contentLength == m.length && !r.core.reset
    ensures var q := Run(r, ValueOf(h));
      && q.core.errno.OK? && InValue(q.core.state) && q.body == r.body
      && FinishFlags(q.core.hstate, q.core.flags) == After(m, h).flags && q.core.contentLength == After(m, h).length
      && q.core == r.core.(state := q.core.state, hstate := q.core.hstate, flags := q.core.flags,
                           contentLength := q.core.contentLength, reset := q.core.reset)
  {
    hide Step, Run, NameStateOf, ListText, ListOk, AllPlain, CodingStateOf, IsChunked, Nums, FitsDec, DecVal, WithWords;
    match h
    case Listing(_, _, items) =>
      ListOkSome(items);
      ListRun(r, items);
      WithLast(m.flags, items);
    case Heading(_, _, v) =>
      KindFacts(h);
      if v == [] {
        RunNil(r);
      } else if Kind(h).ContentLength? {
        LengthExact(r, v);
      } else if Kind(h).TransferEncoding? {
        CodingRun(r, v);
        CodingFinish(Lowered(v), m.flags);
      } else {
        GeneralRun(r, v);
      }
  }

  lemma ListOkSome(items: seq<Item>)
    requires ListOk(items)
    ensures items != []
  {
  }

  lemma WithLast(f: Flags, items: seq<Item>)
    requires items != []
    ensures WithWords(f, items) == FinishFlags(ItemState(items[|items| - 1]), WithWords(f, items[..|items| - 1]))
  {
  }

  lemma KindFacts(h: Heading)
    ensures !Kind(h).TokenStart? && FinishFlags(Kind(h), NO_FLAGS) == NO_FLAGS
    ensures forall f :: FinishFlags(Kind(h), f) == f
  {
  }

  lemma CodingFinish(l: seq<Byte>, f: Flags)
    ensures FinishFlags(CodingStateOf(l), f) == if IsChunked(l) then f.(chunked := true) else f
  {
  }

  lemma HeadEnds(p: Parser, r: Parser, m: Said)
    requires r.core.errno.OK? && InValue(r.core.state) && r.body == p.body
    requires FinishFlags(r.core.hstate, r.core.flags) == m.flags && r.core.contentLength == m.length
    requires r.core.completed == p.core.completed && r.core.upgrade == p.core.upgrade
    requires r.core.major == p.core.major && r.core.minor == p.core.minor && r.core.status == p.core.status
    ensures Stands(p, Run(r, CRLF), m)
  {
    hide Step, Run;
    LineEnd(r);
  }

  /** A header line says what its bytes mean. */
  lemma HeadRun(p: Parser, q: Parser, m: Said, h: Heading)
    requires Stands(p, q, m) && HeadOk(h, m)
    ensures Stands(p, Run(q, Written(h)), After(m, h))
  {
    hide Step, Run, HeadOk, After, FinishFlags, ValueOf, NameStateOf;
    var a := h.name + [COLON] + h.pad;
    HeadBegins(p, q, m, h);
    var r := Run(q, a);
    HeadValue(r, m, h);
    var t := Run(r, ValueOf(h));
    HeadEnds(p, t, After(m, h));
    RunTwo(q, a, ValueOf(h), r, t);
    RunTwo(q, a + ValueOf(h), CRLF, t, Run(t, CRLF));
  }

  function Block(hs: seq<Heading>): (s: seq<Byte>) {
    if hs == [] then [] else Block(hs[..|hs| - 1]) + Written(hs[|hs| - 1])
  }

  function AfterAll(m: Said, hs: seq<Heading>): (n: Said) {
    if hs == [] then m else After(AfterAll(m, hs[..|hs| - 1]), hs[|hs| - 1])
  }

  ghost predicate BlockOk(hs: seq<Heading>, m: Said) {
    hs != [] ==> BlockOk(hs[..|hs| - 1], m) && HeadOk(hs[|hs| - 1], AfterAll(m, hs[..|hs| - 1]))
  }

  /** A header block says what its lines say, one after the other. */
  lemma {:induction false} BlockRun(p: Parser, q: Parser, m: Said, hs: seq<Heading>)
    requires Stands(p, q, m) && BlockOk(hs, m)
    ensures Stands(p, Run(q, Block(hs)), AfterAll(m, hs))
    decreases |hs|
  {
    hide Step, Run, HeadOk, After, Written, Stands;
    if hs == [] {
      RunNil(q);
    } else {
      var n := |hs| - 1;
      var a := hs[..n];
      BlockRun(p, q, m, a);
      var r := Run(q, Block(a));
      HeadRun(p, r, AfterAll(m, a), hs[n]);
      RunTwo(q, Block(a), Written(hs[n]), r, Run(r, Written(hs[n])));
    }
  }

  // ---- what a block says, in terms of its lines

  predicate SaysChunked(h: Heading) {
    h.Heading? && h.value != [] && Kind(h).TransferEncoding? && IsChunked(Lowered(h.value))
  }

  predicate SaysLength(h: Heading) { h.Heading? && h.value != [] && Kind(h).ContentLength? }

  predicate SaysUpgrade(h: Heading) { h.Heading? && h.value != [] && Kind(h).Upgrade? }

  predicate Mentions(h: Heading, w: string) { h.Listing? && AnyWord(h.items, w) }

  predicate AnyChunked(hs: seq<Heading>) { exists k :: 0 <= k < |hs| && SaysChunked(hs[k]) }
  predicate AnyLength(hs: seq<Heading>) { exists k :: 0 <= k < |hs| && SaysLength(hs[k]) }
  predicate AnyUpgrade(hs: seq<Heading>) { exists k :: 0 <= k < |hs| && SaysUpgrade(hs[k]) }
  predicate AnyMention(hs: seq<Heading>, w: string) { exists k :: 0 <= k < |hs| && Mentions(hs[k], w) }

  /** One more line. */
  lemma LinesStep(hs: seq<Heading>, w: string)
    requires hs != []
    ensures var a, h := hs[..|hs| - 1], hs[|hs| - 1];
      && (AnyChunked(hs) <==> AnyChunked(a) || SaysChunked(h))
      && (AnyLength(hs) <==> AnyLength(a) || SaysLength(h))
      && (AnyUpgrade(hs) <==> AnyUpgrade(a) || SaysUpgrade(h))
      && (AnyMention(hs, w) <==> AnyMention(a, w) || Mentions(h, w))
  {
    hide SaysChunked, SaysLength, SaysUpgrade, Mentions;
    var a := hs[..|hs| - 1];
    assert hs == a + [hs[|hs| - 1]];
    assert forall k :: 0 <= k < |a| ==> hs[k] == a[k];
  }

  lemma LineSays(m: Said, h: Heading)
    ensures var f, g := m.flags, After(m, h).flags;
      && (g.chunked <==> f.chunked || SaysChunked(h))
      && (g.contentLength <==> f.contentLength || SaysLength(h))
      && (g.upgrade <==> f.upgrade || SaysUpgrade(h))
      && (g.keepAlive <==> f.keepAlive || Mentions(h, KEEP_ALIVE))
      && (g.close <==> f.close || Mentions(h, CLOSE))
      && (g.connUpgrade <==> f.connUpgrade || Mentions(h, UPGRADE))
      && g.trailing == f.trailing
    ensures After(m, h).length == if SaysLength(h) then DecVal(Nums(h.value)) else m.length
  {
    hide NameStateOf, IsChunked, DecVal, Nums, WithWords, AnyWord, Lowered;
    if h.Listing? { WordsFlags(m.flags, h.items); }
  }

  /** The flags of a block: exactly which lines are in it, in any letter case. */
  lemma {:induction false} BlockSays(m: Said, hs: seq<Heading>)
    ensures var f, g := m.flags, AfterAll(m, hs).flags;
      && (g.chunked <==> f.chunked || AnyChunked(hs))
      && (g.contentLength <==> f.contentLength || AnyLength(hs))
      && (g.upgrade <==> f.upgrade || AnyUpgrade(hs))
      && (g.keepAlive <==> f.keepAlive || AnyMention(hs, KEEP_ALIVE))
      && (g.close <==> f.close || AnyMention(hs, CLOSE))
      && (g.connUpgrade <==> f.connUpgrade || AnyMention(hs, UPGRADE))
      && g.trailing == f.trailing
    ensures !AnyLength(hs) ==> AfterAll(m, hs).length == m.length
    decreases |hs|
  {
    hide SaysChunked, SaysLength, SaysUpgrade, Mentions, After;
    if hs == [] {
    } else {
      var n := |hs| - 1;
      BlockSays(m, hs[..n]);
      LineSays(AfterAll(m, hs[..n]), hs[n]);
      hide AnyChunked, AnyLength, AnyUpgrade, AnyMention;
      LinesStep(hs, KEEP_ALIVE);
      LinesStep(hs, CLOSE);
      LinesStep(hs, UPGRADE);
    }
  }

  /** The length of a block is that of its one length line, and below ULLONG_MAX. */
  lemma {:induction false} BlockLength(m: Said, hs: seq<Heading>, k: nat)
    requires k < |hs| && SaysLength(hs[k]) && BlockOk(hs, m)
    ensures AfterAll(m, hs).length == DecVal(Nums(hs[k].value)) < ULLONG_MAX
    decreases |hs|
  {
    hide DecVal, Nums, Kind, After, HeadOk;
    var n := |hs| - 1;
    var a := hs[..n];
    LineSays(AfterAll(m, a), hs[n]);
    if k < n {
      BlockLength(m, a, k);
      BlockSays(m, a);
      assert AnyLength(a) by { assert SaysLength(a[k]); }
      OneLength(AfterAll(m, a), hs[n]);
    } else {
      LengthBelow(AfterAll(m, a), hs[n]);
    }
  }

  lemma LengthBelow(m: Said, h: Heading)
    requires HeadOk(h, m) && SaysLength(h)
    ensures DecVal(Nums(h.value)) < ULLONG_MAX
  {
    hide Kind, DecVal, Nums;
    var d := Nums(h.value);
    NumsAreNum(h.value);
    var k := |d| - 1;
    assert d == d[..k] + [d[k]];
    DecAppend(d[..k], d[k]);
  }

  lemma OneLength(m: Said, h: Heading)
    requires HeadOk(h, m) && m.flags.contentLength
    ensures !SaysLength(h)
  {
  }
}
