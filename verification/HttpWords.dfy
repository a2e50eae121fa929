/** Which header names and words the parser recognises: exactly the ones it looks for, in any
    letter case. */
module HttpWords {
  import opened HttpMachine
  import opened HttpRuns

  /** The letters are the word, or the beginning of it. */
  predicate Begins(l: seq<Byte>, w: string) {
    |l| <= |w| && forall i :: 0 <= i < |l| ==> l[i] == w[i] as int
  }

  predicate Is(l: seq<Byte>, w: string) { |l| == |w| && Begins(l, w) }

  lemma BeginsStep(l: seq<Byte>, t: Byte, w: string)
    ensures Begins(l + [t], w) <==> Begins(l, w) && |l| < |w| && t == w[|l|] as int
  {
    if Begins(l + [t], w) {
      forall i | 0 <= i < |l| ensures l[i] == w[i] as int { assert (l + [t])[i] == l[i]; }
      assert (l + [t])[|l|] == t;
    }
  }

  // ---- header names

  /** A name in lower case. */
  function Small(n: seq<Byte>): (l: seq<Byte>)
    ensures |l| == |n|
  {
    seq(|n|, i requires 0 <= i < |n| => Tok(n[i]))
  }

  /** What the letters of a name read so far amount to. */
  function NameStateOf(l: seq<Byte>): HeaderState {
    if Is(l, CONNECTION) || Is(l, PROXY_CONNECTION) then Connection
    else if Is(l, CONTENT_LENGTH) then ContentLength
    else if Is(l, TRANSFER_ENCODING) then TransferEncoding
    else if Is(l, UPGRADE) then Upgrade
    else if |l| <= 3 && Begins(l, CONNECTION) then (if |l| == 1 then C else if |l| == 2 then CO else CON)
    else if Begins(l, CONNECTION) then MatchConnection
    else if Begins(l, CONTENT_LENGTH) then MatchContentLength
    else if Begins(l, PROXY_CONNECTION) then MatchProxyConnection
    else if Begins(l, TRANSFER_ENCODING) then MatchTransferEncoding
    else if Begins(l, UPGRADE) then MatchUpgrade
    else General
  }

  /** No two of the names begin alike, but for the first three letters of two of them. */
  lemma FirstLetters(l: seq<Byte>)
    requires l != []
    ensures Begins(l, CONNECTION) || Begins(l, CONTENT_LENGTH) ==> l[0] == 'c' as int
    ensures Begins(l, PROXY_CONNECTION) ==> l[0] == 'p' as int
    ensures Begins(l, TRANSFER_ENCODING) ==> l[0] == 't' as int
    ensures Begins(l, UPGRADE) ==> l[0] == 'u' as int
    ensures |l| >= 4 && Begins(l, CONNECTION) ==> l[3] == 'n' as int
    ensures |l| >= 4 && Begins(l, CONTENT_LENGTH) ==> l[3] == 't' as int
    ensures |l| <= 3 ==> (Begins(l, CONNECTION) <==> Begins(l, CONTENT_LENGTH))
  {
  }

  lemma NameStateStart(t: Byte)
    requires t != 0
    ensures NameStateOf([t]) ==
      if t == 'c' as int then C
      else if t == 'p' as int then MatchProxyConnection
      else if t == 't' as int then MatchTransferEncoding
      else if t == 'u' as int then MatchUpgrade
      else General
  {
    assert [] + [t] == [t];
    BeginsStep([], t, CONNECTION);
    BeginsStep([], t, CONTENT_LENGTH);
    BeginsStep([], t, PROXY_CONNECTION);
    BeginsStep([], t, TRANSFER_ENCODING);
    BeginsStep([], t, UPGRADE);
  }

  lemma NameStateStep(l: seq<Byte>, t: Byte)
    requires l != [] && t != 0
    ensures NameStateOf(l + [t]) == FieldState(NameStateOf(l), |l|, t)
  {
    hide Begins;
    FirstLetters(l);
    FirstLetters(l + [t]);
    BeginsStep(l, t, CONNECTION);
    BeginsStep(l, t, CONTENT_LENGTH);
    BeginsStep(l, t, PROXY_CONNECTION);
    BeginsStep(l, t, TRANSFER_ENCODING);
    BeginsStep(l, t, UPGRADE);
  }

  /** A parser inside a header name of which the letters `l` were read. */
  ghost predicate InName(p: Parser, l: seq<Byte>) {
    && p.core.state.Field? && p.core.errno.OK? && l != []
    && p.core.hstate == NameStateOf(l)
    && (FieldCounts(p.core.hstate) ==> p.index == |l| - 1)
  }

  predicate AllTok(n: seq<Byte>) { forall i :: 0 <= i < |n| ==> Tok(n[i]) != 0 }

  lemma NameByte(p: Parser, l: seq<Byte>, ch: Byte)
    requires InName(p, l) && Tok(ch) != 0
    ensures var q := Step(p, ch);
      InName(q, l + [Tok(ch)]) && q.core == p.core.(reset := false, hstate := q.core.hstate) && q.body == p.body
  {
    hide Step, NameStateOf, FieldState;
    FieldStep(p, ch);
    NameStateStep(l, Tok(ch));
    if !FieldCounts(p.core.hstate) { IndexUnused(p.core.hstate, p.index, |l|, Tok(ch)); }
  }

  lemma IndexUnused(h: HeaderState, i: nat, j: nat, t: Byte)
    requires !FieldCounts(h)
    ensures FieldState(h, i, t) == FieldState(h, j, t) == General
  {
  }

  /** Any header name: the parser recognises it exactly if it is one of those it looks for. */
  lemma {:induction false} NameExact(p: Parser, l: seq<Byte>, n: seq<Byte>)
    requires InName(p, l) && AllTok(n)
    ensures var q := Run(p, n);
      && InName(q, l + Small(n)) && q.body == p.body
      && q.core == p.core.(reset := q.core.reset, hstate := NameStateOf(l + Small(n)))
    decreases |n|
  {
    hide Step, Run, Tok, NameStateOf;
    if n == [] {
      RunNil(p);
      assert l + Small(n) == l;
    } else {
      var k := |n| - 1;
      var a := n[..k];
      NameExact(p, l, a);
      RunLast(p, n);
      NameByte(Run(p, a), l + Small(a), n[k]);
      assert l + Small(a) + [Tok(n[k])] == l + Small(n);
    }
  }

  // ---- words of header values

  /** A value in lower case. */
  function Lowered(v: seq<Byte>): (l: seq<Byte>)
    ensures |l| == |v|
  {
    seq(|v|, i requires 0 <= i < |v| => Lower(v[i]))
  }

  /** What the letters of a Connection token read so far amount to. */
  function WordStateOf(l: seq<Byte>): HeaderState {
    if Is(l, KEEP_ALIVE) then KeepAlive
    else if Is(l, CLOSE) then Close
    else if Is(l, UPGRADE) then ConnUpgrade
    else if Begins(l, KEEP_ALIVE) then MatchKeepAlive
    else if Begins(l, CLOSE) then MatchClose
    else if Begins(l, UPGRADE) then MatchConnUpgrade
    else Token
  }

  lemma WordLetters(l: seq<Byte>)
    requires l != []
    ensures Begins(l, KEEP_ALIVE) ==> l[0] == 'k' as int
    ensures Begins(l, CLOSE) ==> l[0] == 'c' as int
    ensures Begins(l, UPGRADE) ==> l[0] == 'u' as int
  {
  }

  lemma WordStateStart(t: Byte)
    ensures WordStateOf([t]) ==
      if t == 'k' as int then MatchKeepAlive
      else if t == 'c' as int then MatchClose
      else if t == 'u' as int then MatchConnUpgrade
      else Token
  {
    assert [] + [t] == [t];
    BeginsStep([], t, KEEP_ALIVE);
    BeginsStep([], t, CLOSE);
    BeginsStep([], t, UPGRADE);
  }

  lemma WordStateStep(l: seq<Byte>, ch: Byte)
    requires l != [] && Plainchar(ch) && ch != COMMA && ch != SP
    ensures WordStateOf(l + [Lower(ch)]) == ValueState(WordStateOf(l), |l|, ch)
  {
    hide Begins;
    var t := Lower(ch);
    WordLetters(l);
    WordLetters(l + [t]);
    BeginsStep(l, t, KEEP_ALIVE);
    BeginsStep(l, t, CLOSE);
    BeginsStep(l, t, UPGRADE);
    NotNul(ch);
  }

  lemma NotNul(ch: Byte)
    ensures Lower(ch) != 0
  {
  }

  /** What the letters of a Transfer-Encoding value read so far amount to. */
  function CodingStateOf(l: seq<Byte>): HeaderState {
    if IsChunked(l) then Chunked
    else if Begins(l, CHUNKED) then MatchChunked
    else General
  }

  /** The word chunked, and nothing but spaces behind it. */
  predicate IsChunked(l: seq<Byte>) {
    |l| >= 7 && Is(l[..7], CHUNKED) && forall i :: 7 <= i < |l| ==> l[i] == SP
  }

  lemma ChunkedStep(l: seq<Byte>, t: Byte)
    ensures IsChunked(l + [t]) <==> (IsChunked(l) && t == SP) || (|l| == 6 && Begins(l + [t], CHUNKED))
  {
    hide Begins;
    var m := l + [t];
    if |l| >= 7 {
      assert m[..7] == l[..7] && m[|l|] == t;
      if IsChunked(m) { forall i | 7 <= i < |l| ensures l[i] == SP { assert m[i] == l[i]; } }
    } else if |l| == 6 {
      assert m[..7] == m;
    }
  }

  lemma CodingStateStep(l: seq<Byte>, ch: Byte)
    requires l != [] && Plainchar(ch)
    ensures CodingStateOf(l + [Lower(ch)]) == ValueState(CodingStateOf(l), |l|, ch)
  {
    hide Begins, IsChunked;
    var t := Lower(ch);
    ChunkedStep(l, t);
    BeginsStep(l, t, CHUNKED);
    ChunkedLong(l);
    NotNul(ch);
    LowerSpace(ch);
  }

  lemma ChunkedLong(l: seq<Byte>)
    ensures IsChunked(l) ==> |l| >= 7
    ensures Begins(l, CHUNKED) ==> |l| <= 7 && (|l| == 7 ==> IsChunked(l))
  {
    if |l| == 7 { assert l[..7] == l; }
  }

  lemma LowerSpace(ch: Byte)
    requires Plainchar(ch)
    ensures Lower(ch) == SP <==> ch == SP
  {
  }
}
