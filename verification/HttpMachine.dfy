/** The response side of the HTTP parser, one byte at a time.

    This is the slow machine: every byte of a response takes one step.  The executor in
    `HttpExecute` consumes whole runs of bytes at once and skips a fixed header; it is
    proved to reach the states of this machine. */
module HttpMachine {
  type Byte = b: int | 0 <= b < 256

  const CR: Byte := 13
  const LF: Byte := 10
  const SP: Byte := 32
  const HT: Byte := 9
  const COLON: Byte := 58
  const COMMA: Byte := 44
  const ULLONG_MAX: nat := 0xffff_ffff_ffff_ffff
  const MAX_HEADER_SIZE: nat := 80 * 1024

  datatype State =
    | Dead | StartRes | ResH | ResHT | ResHTT | ResHTTP | Major | Dot | Minor | VersionEnd
    | FirstStatus | StatusCode | StatusStart | Status | LineAlmostDone
    | FieldStart | Field | DiscardWs | DiscardWsAlmostDone | DiscardLws | Value | ValueLws | HeaderAlmostDone
    | ChunkSizeStart | ChunkSize | ChunkParameters | ChunkSizeAlmostDone | HeadersAlmostDone
    | ChunkData | ChunkDataAlmostDone | ChunkDataDone | BodyIdentity | BodyIdentityEof

  datatype HeaderState =
    | General | C | CO | CON
    | MatchConnection | MatchProxyConnection | MatchContentLength | MatchTransferEncoding | MatchUpgrade
    | Connection | ContentLength | TransferEncoding | Upgrade
    | MatchChunked | TokenStart | MatchKeepAlive | MatchClose | MatchConnUpgrade | Token
    | Chunked | KeepAlive | Close | ConnUpgrade

  datatype Errno =
    | OK | HeaderOverflow | ClosedConnection | InvalidVersion | InvalidStatus | InvalidConstant | Strict
    | LfExpected | InvalidHeaderToken | InvalidContentLength | UnexpectedContentLength | InvalidChunkSize
    | InvalidEofState

  datatype Flags = Flags(chunked: bool, keepAlive: bool, close: bool, connUpgrade: bool,
                         trailing: bool, upgrade: bool, contentLength: bool)

  const NO_FLAGS := Flags(false, false, false, false, false, false, false)

  /** The parser without its two counters; `reset` says that this byte zeroed `nread`. */
  datatype Core = Core(state: State, hstate: HeaderState, flags: Flags, contentLength: nat,
                       major: nat, minor: nat, status: nat, upgrade: bool, errno: Errno,
                       completed: nat, reset: bool)

  /** The parser: its core, the index into the header word being matched, the header
      bytes counted so far, and the bytes handed to `on_body`. */
  datatype Parser = Parser(core: Core, index: nat, nread: nat, body: seq<Byte>)

  const INITIAL := Parser(Core(StartRes, General, NO_FLAGS, 0, 0, 0, 0, false, OK, 0, false), 0, 0, [])

  /** The states up to `s_headers_done`, in which bytes are counted. */
  predicate ParsingHeader(s: State) {
    !(s.ChunkData? || s.ChunkDataAlmostDone? || s.ChunkDataDone? || s.BodyIdentity? || s.BodyIdentityEof?)
  }

  // ---- characters

  predicate IsNum(ch: Byte) { 48 <= ch <= 57 }

  function Lower(ch: Byte): Byte { if (ch / 32) % 2 == 1 then ch else ch + 32 }

  /** 0, or the lower-case form of a token character. */
  function Tok(ch: Byte): Byte {
    if 65 <= ch <= 90 then ch + 32
    else if 97 <= ch <= 122 || IsNum(ch) || ch == 33 || 35 <= ch <= 39 || ch == 42 || ch == 43 || ch == 45
            || ch == 46 || 94 <= ch <= 96 || ch == 124 || ch == 126 then ch
    else 0
  }

  predicate IsHeaderChar(ch: Byte) { ch == CR || ch == LF || ch == 9 || (ch > 31 && ch != 127) }

  /** -1, or the value of a hexadecimal digit. */
  function Unhex(ch: Byte): int {
    if IsNum(ch) then ch - 48
    else if 65 <= ch <= 70 then ch - 55
    else if 97 <= ch <= 102 then ch - 87
    else -1
  }

  const CONNECTION := "connection"
  const PROXY_CONNECTION := "proxy-connection"
  const CONTENT_LENGTH := "content-length"
  const TRANSFER_ENCODING := "transfer-encoding"
  const UPGRADE := "upgrade"
  const CHUNKED := "chunked"
  const KEEP_ALIVE := "keep-alive"
  const CLOSE := "close"

  /** A word read at an index: past the end stands its terminating NUL. */
  predicate WordAt(word: string, i: nat, c: Byte) {
    if i < |word| then word[i] as int == c else i == |word| && c == 0
  }

  // ---- end of a message

  predicate NeedsEof(c: Core) {
    && !(c.status / 100 == 1 || c.status == 204 || c.status == 304)
    && !(c.flags.chunked || c.contentLength != ULLONG_MAX)
  }

  predicate ShouldKeepAlive(c: Core) {
    && (if c.major > 0 && c.minor > 0 then !c.flags.close else c.flags.keepAlive)
    && !NeedsEof(c)
  }

  function Fail(c: Core, e: Errno): Core { c.(errno := e) }

  /** The message is over: `on_message_complete` and the state for the next message. */
  function MessageDone(c: Core): Core {
    c.(state := if ShouldKeepAlive(c) then StartRes else Dead, completed := c.completed + 1)
  }

  function HeadersDone(c: Core): Core {
    var c := c.(reset := true);
    var hasBody := c.flags.chunked || (c.contentLength > 0 && c.contentLength != ULLONG_MAX);
    if c.upgrade && !hasBody then MessageDone(c)
    else if c.flags.chunked then c.(state := ChunkSizeStart)
    else if c.contentLength == 0 then MessageDone(c)
    else if c.contentLength != ULLONG_MAX then c.(state := BodyIdentity)
    else if !NeedsEof(c) then MessageDone(c)
    else c.(state := BodyIdentityEof)
  }

  function OnHeadersAlmostDone(c: Core, ch: Byte): Core {
    if ch != LF then Fail(c, Strict)
    else if c.flags.trailing then MessageDone(c)
    else if c.flags.chunked && c.flags.contentLength then Fail(c, UnexpectedContentLength)
    else HeadersDone(c.(upgrade := c.flags.upgrade && c.flags.connUpgrade && c.status == 101))
  }

  // ---- header lines

  function OnFieldStart(c: Core, ch: Byte): Core {
    if ch == CR then c.(state := HeadersAlmostDone)
    else if ch == LF then OnHeadersAlmostDone(c, ch)
    else
      var t := Tok(ch);
      if t == 0 then Fail(c, InvalidHeaderToken)
      else c.(state := Field,
              hstate := if t == 'c' as int then C
                        else if t == 'p' as int then MatchProxyConnection
                        else if t == 't' as int then MatchTransferEncoding
                        else if t == 'u' as int then MatchUpgrade
                        else General)
  }

  function OnValueStart(c: Core, ch: Byte): Core {
    var low := Lower(ch);
    var c := c.(state := Value);
    match c.hstate
    case Upgrade => c.(flags := c.flags.(upgrade := true), hstate := General)
    case TransferEncoding => c.(hstate := if low == 'c' as int then MatchChunked else General)
    case ContentLength =>
      if !IsNum(ch) then Fail(c, InvalidContentLength)
      else if c.flags.contentLength then Fail(c, UnexpectedContentLength)
      else c.(flags := c.flags.(contentLength := true), contentLength := ch - 48)
    case Connection =>
      c.(hstate := if low == 'k' as int then MatchKeepAlive
                   else if low == 'c' as int then MatchClose
                   else if low == 'u' as int then MatchConnUpgrade
                   else Token)
    case TokenStart => c
    case _ => c.(hstate := General)
  }

  /** What the finished header line contributes to the flags. */
  function FinishFlags(h: HeaderState, f: Flags): Flags {
    match h
    case KeepAlive => f.(keepAlive := true)
    case Close => f.(close := true)
    case Chunked => f.(chunked := true)
    case ConnUpgrade => f.(connUpgrade := true)
    case _ => f
  }

  function FinishHeader(c: Core): Core { c.(flags := FinishFlags(c.hstate, c.flags)) }

  function OnStatus(c: Core, ch: Byte): Core {
    if ch == CR then c.(state := LineAlmostDone)
    else if ch == LF then c.(state := FieldStart)
    else c.(state := Status)
  }

  // ---- one byte in any state that consumes exactly one byte

  function ChunkByte(c: Core, ch: Byte): Core {
    match c.state
    case ChunkSizeStart =>
      if Unhex(ch) == -1 then Fail(c, InvalidChunkSize)
      else c.(contentLength := Unhex(ch), state := ChunkSize)
    case ChunkSize =>
      if ch == CR then c.(state := ChunkSizeAlmostDone)
      else if Unhex(ch) == -1 then
        if ch == ';' as int || ch == SP then c.(state := ChunkParameters) else Fail(c, InvalidChunkSize)
      else if (ULLONG_MAX - 16) / 16 < c.contentLength then Fail(c, InvalidContentLength)
      else c.(contentLength := (c.contentLength * 16 + Unhex(ch)) % (ULLONG_MAX + 1))
    case ChunkParameters =>
      if ch == CR then c.(state := ChunkSizeAlmostDone) else c
    case ChunkSizeAlmostDone =>
      if ch != LF then Fail(c, Strict)
      else if c.contentLength == 0 then
        c.(reset := true, flags := c.flags.(trailing := true), state := FieldStart)
      else c.(reset := true, state := ChunkData)
    case ChunkDataAlmostDone =>
      if ch != CR then Fail(c, Strict) else c.(state := ChunkDataDone)
    case ChunkDataDone =>
      if ch != LF then Fail(c, Strict) else c.(reset := true, state := ChunkSizeStart)
    case _ => c
  }

  function LineByte(c: Core, ch: Byte): Core {
    match c.state
    case Dead => if ch == CR || ch == LF then c else Fail(c, ClosedConnection)
    case StartRes =>
      var c := c.(flags := NO_FLAGS, contentLength := ULLONG_MAX);
      if ch == 'H' as int then c.(state := ResH)
      else if ch == CR || ch == LF then c
      else Fail(c, InvalidConstant)
    case ResH => if ch != 'T' as int then Fail(c, Strict) else c.(state := ResHT)
    case ResHT => if ch != 'T' as int then Fail(c, Strict) else c.(state := ResHTT)
    case ResHTT => if ch != 'P' as int then Fail(c, Strict) else c.(state := ResHTTP)
    case ResHTTP => if ch != '/' as int then Fail(c, Strict) else c.(state := Major)
    case Major => if !IsNum(ch) then Fail(c, InvalidVersion) else c.(major := ch - 48, state := Dot)
    case Dot => if ch != '.' as int then Fail(c, InvalidVersion) else c.(state := Minor)
    case Minor => if !IsNum(ch) then Fail(c, InvalidVersion) else c.(minor := ch - 48, state := VersionEnd)
    case VersionEnd => if ch != SP then Fail(c, InvalidVersion) else c.(state := FirstStatus)
    case FirstStatus =>
      if IsNum(ch) then c.(status := ch - 48, state := StatusCode)
      else if ch == SP then c
      else Fail(c, InvalidStatus)
    case StatusCode =>
      if IsNum(ch) then
        var s := c.status * 10 + (ch - 48);
        if s > 999 then Fail(c.(status := s), InvalidStatus) else c.(status := s)
      else if ch == SP then c.(state := StatusStart)
      else if ch == CR || ch == LF then OnStatus(c, ch)
      else Fail(c, InvalidStatus)
    case StatusStart => OnStatus(c, ch)
    case Status => OnStatus(c, ch)
    case LineAlmostDone => if ch != LF then Fail(c, Strict) else c.(state := FieldStart)
    case _ => c
  }

  function HeaderByte(c: Core, ch: Byte): Core {
    match c.state
    case FieldStart => OnFieldStart(c, ch)
    case DiscardWs =>
      if ch == SP || ch == HT then c
      else if ch == CR then c.(state := DiscardWsAlmostDone)
      else if ch == LF then c.(state := DiscardLws)
      else OnValueStart(c, ch)
    case DiscardWsAlmostDone => if ch != LF then Fail(c, Strict) else c.(state := DiscardLws)
    case DiscardLws =>
      if ch == SP || ch == HT then c.(state := DiscardWs) else OnFieldStart(FinishHeader(c), ch)
    case HeaderAlmostDone => if ch != LF then Fail(c, LfExpected) else c.(state := ValueLws)
    case ValueLws =>
      if ch == SP || ch == HT then OnValueStart(c, ch) else OnFieldStart(FinishHeader(c), ch)
    case HeadersAlmostDone => OnHeadersAlmostDone(c, ch)
    case _ => c
  }

  predicate LineState(s: State) {
    s.Dead? || s.StartRes? || s.ResH? || s.ResHT? || s.ResHTT? || s.ResHTTP? || s.Major? || s.Dot? || s.Minor?
    || s.VersionEnd? || s.FirstStatus? || s.StatusCode? || s.StatusStart? || s.Status? || s.LineAlmostDone?
  }

  predicate ChunkState(s: State) {
    s.ChunkSizeStart? || s.ChunkSize? || s.ChunkParameters? || s.ChunkSizeAlmostDone? || s.ChunkDataAlmostDone?
    || s.ChunkDataDone?
  }

  /** States in which the source loops over a run of bytes. */
  predicate BulkState(s: State) {
    s.Field? || s.Value? || s.BodyIdentity? || s.BodyIdentityEof? || s.ChunkData?
  }

  function OneByte(c: Core, ch: Byte): Core
    requires !BulkState(c.state)
  {
    var c := c.(reset := false);
    if LineState(c.state) then LineByte(c, ch)
    else if ChunkState(c.state) then ChunkByte(c, ch)
    else HeaderByte(c, ch)
  }

  // ---- one byte of a header name

  /** Matching a word from its `index`-th letter on; `done` once its last letter matched. */
  function MatchWord(word: string, index: nat, t: Byte, stay: HeaderState, miss: HeaderState, done: HeaderState)
    : (r: HeaderState)
    ensures r == stay || r == miss || r == done
  {
    if index > |word| || !WordAt(word, index, t) then miss
    else if index + 1 == |word| then done
    else stay
  }

  function FieldState(h: HeaderState, index: nat, t: Byte): HeaderState {
    match h
    case C => if t == 'o' as int then CO else General
    case CO => if t == 'n' as int then CON else General
    case CON => if t == 'n' as int then MatchConnection else if t == 't' as int then MatchContentLength else General
    case MatchConnection => MatchWord(CONNECTION, index, t, h, General, Connection)
    case MatchProxyConnection => MatchWord(PROXY_CONNECTION, index, t, h, General, Connection)
    case MatchContentLength => MatchWord(CONTENT_LENGTH, index, t, h, General, ContentLength)
    case MatchTransferEncoding => MatchWord(TRANSFER_ENCODING, index, t, h, General, TransferEncoding)
    case MatchUpgrade => MatchWord(UPGRADE, index, t, h, General, Upgrade)
    case _ => General
  }

  predicate FieldCounts(h: HeaderState) {
    h.C? || h.CO? || h.CON? || h.MatchConnection? || h.MatchProxyConnection? || h.MatchContentLength?
    || h.MatchTransferEncoding? || h.MatchUpgrade?
  }

  // ---- one byte of a header value

  function ValueState(h: HeaderState, index: nat, ch: Byte): HeaderState {
    var low := Lower(ch);
    match h
    case MatchChunked => MatchWord(CHUNKED, index, low, h, General, Chunked)
    case TokenStart =>
      if low == 'k' as int then MatchKeepAlive
      else if low == 'c' as int then MatchClose
      else if low == 'u' as int then MatchConnUpgrade
      else if Tok(low) != 0 then Token
      else if low == SP || low == HT then TokenStart
      else General
    case MatchKeepAlive => MatchWord(KEEP_ALIVE, index, low, h, Token, KeepAlive)
    case MatchClose => MatchWord(CLOSE, index, low, h, Token, Close)
    case MatchConnUpgrade => MatchWord(UPGRADE, index, low, h, Token, ConnUpgrade)
    case Token => if ch == COMMA then TokenStart else Token
    case Chunked => if ch != SP then General else Chunked
    case KeepAlive => if ch == COMMA then TokenStart else if ch != SP then Token else h
    case Close => if ch == COMMA then TokenStart else if ch != SP then Token else h
    case ConnUpgrade => if ch == COMMA then TokenStart else if ch != SP then Token else h
    case _ => General
  }

  function ValueIndex(h: HeaderState, index: nat, ch: Byte): nat {
    if h.MatchChunked? || h.MatchKeepAlive? || h.MatchClose? || h.MatchConnUpgrade? then index + 1
    else if (h.Token? || h.KeepAlive? || h.Close? || h.ConnUpgrade?) && ch == COMMA then 0
    else index
  }

  /** What a token of a Connection value contributes once a comma ends it. */
  function TokenFlags(h: HeaderState, f: Flags, ch: Byte): Flags {
    if ch != COMMA then f
    else if h.KeepAlive? then f.(keepAlive := true)
    else if h.Close? then f.(close := true)
    else if h.ConnUpgrade? then f.(connUpgrade := true)
    else f
  }

  /** A further digit of a content length: the 64-bit product is kept only below the limit. */
  function LengthDigit(c: Core, ch: Byte): Core {
    if ch == SP then c
    else if !IsNum(ch) then Fail(c, InvalidContentLength)
    else if (ULLONG_MAX - 10) / 10 < c.contentLength then Fail(c, InvalidContentLength)
    else c.(contentLength := (c.contentLength * 10 + (ch - 48)) % (ULLONG_MAX + 1))
  }

  // ---- the byte machine

  function FieldByte(p: Parser, ch: Byte): Parser
    requires p.core.state.Field?
  {
    var c, t := p.core.(reset := false), Tok(ch);
    if t == 0 then p.(core := if ch == COLON then c.(state := DiscardWs) else Fail(c, InvalidHeaderToken))
    else
      var index := if FieldCounts(c.hstate) then p.index + 1 else p.index;
      p.(core := c.(hstate := FieldState(c.hstate, index, t)), index := index)
  }

  function ValueByte(p: Parser, ch: Byte): Parser
    requires p.core.state.Value?
  {
    var c := p.core.(reset := false);
    if ch == CR then p.(core := c.(state := HeaderAlmostDone))
    else if ch == LF then p.(core := c.(state := ValueLws))
    else if !IsHeaderChar(ch) then p.(core := Fail(c, InvalidHeaderToken))
    else if c.hstate.ContentLength? then p.(core := LengthDigit(c, ch))
    else
      var index := ValueIndex(c.hstate, p.index, ch);
      p.(core := c.(hstate := ValueState(c.hstate, index, ch), flags := TokenFlags(c.hstate, c.flags, ch)), index := index)
  }

  function BodyByte(p: Parser, ch: Byte): Parser
    requires p.core.state.BodyIdentity? || p.core.state.BodyIdentityEof? || p.core.state.ChunkData?
  {
    var c := p.core.(reset := false);
    if c.state.BodyIdentityEof? then p.(core := c, body := p.body + [ch])
    else
      var c := c.(contentLength := if c.contentLength == 0 then 0 else c.contentLength - 1);
      var c := if c.contentLength > 0 then c
               else if c.state.BodyIdentity? then MessageDone(c)
               else c.(state := ChunkDataAlmostDone);
      p.(core := c, body := p.body + [ch])
  }

  /** A parser after a byte, with its counters. */
  function Counted(p: Parser, counted: nat): Parser {
    p.(nread := if p.core.reset then 0 else counted)
  }

  function Count(p: Parser): nat {
    p.nread + (if ParsingHeader(p.core.state) then 1 else 0)
  }

  function Step(p: Parser, ch: Byte): Parser {
    if p.core.errno != OK then p
    else if p.core.state.Field? then Counted(FieldByte(p, ch), Count(p))
    else if p.core.state.Value? then Counted(ValueByte(p, ch), Count(p))
    else if BulkState(p.core.state) then Counted(BodyByte(p, ch), Count(p))
    else
      var c := OneByte(p.core, ch);
      Counted(p.(core := c, index := if c.state.Field? || c.state.Value? then 0 else p.index), Count(p))
  }

  function Run(p: Parser, s: seq<Byte>): (r: Parser)
    decreases s
  {
    if s == [] then p else Run(Step(p, s[0]), s[1..])
  }

  lemma {:induction false} RunConcat(p: Parser, a: seq<Byte>, b: seq<Byte>)
    ensures Run(p, a + b) == Run(Run(p, a), b)
    decreases a
  {
    if a == [] {
      assert a + b == b;
    } else {
      assert (a + b)[1..] == a[1..] + b;
      RunConcat(Step(p, a[0]), a[1..], b);
    }
  }
}
