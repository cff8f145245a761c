/**
 The states of the request parser in lib/crow/include/crow/http_parser_merged.h (strict mode), and what one pass
 through the switch of http_parser_execute does with one byte.
 */
module HttpSwitch {
  import opened Bytes
  import opened Common

  const MAX_HEADER_SIZE: nat := 80 * 1024
  const TWO_64: nat := 0x1_0000_0000_0000_0000
  const ULLONG_MAX: nat := TWO_64 - 1

  datatype Method =
    | DELETE | GET | HEAD | POST | PUT | CONNECT | OPTIONS | TRACE | COPY | LOCK | MKCOL | MOVE | PROPFIND
    | PROPPATCH | SEARCH | UNLOCK | REPORT | MKACTIVITY | CHECKOUT | MERGE | MSEARCH | NOTIFY | SUBSCRIBE
    | UNSUBSCRIBE | PATCH | PURGE | MKCALENDAR

  function MethodName(m: Method): string {
    match m
    case DELETE => "DELETE"
    case GET => "GET"
    case HEAD => "HEAD"
    case POST => "POST"
    case PUT => "PUT"
    case CONNECT => "CONNECT"
    case OPTIONS => "OPTIONS"
    case TRACE => "TRACE"
    case COPY => "COPY"
    case LOCK => "LOCK"
    case MKCOL => "MKCOL"
    case MOVE => "MOVE"
    case PROPFIND => "PROPFIND"
    case PROPPATCH => "PROPPATCH"
    case SEARCH => "SEARCH"
    case UNLOCK => "UNLOCK"
    case REPORT => "REPORT"
    case MKACTIVITY => "MKACTIVITY"
    case CHECKOUT => "CHECKOUT"
    case MERGE => "MERGE"
    case MSEARCH => "M-SEARCH"
    case NOTIFY => "NOTIFY"
    case SUBSCRIBE => "SUBSCRIBE"
    case UNSUBSCRIBE => "UNSUBSCRIBE"
    case PATCH => "PATCH"
    case PURGE => "PURGE"
    case MKCALENDAR => "MKCALENDAR"
  }

  datatype State =
    | Dead | StartReq | ReqMethod | ReqSpacesBeforeUrl
    | ReqSchema | ReqSchemaSlash | ReqSchemaSlashSlash | ReqServerStart | ReqServer | ReqServerWithAt | ReqPath
    | ReqQueryStringStart | ReqQueryString | ReqFragmentStart | ReqFragment
    | ReqHttpStart | ReqHttpH | ReqHttpHT | ReqHttpHTT | ReqHttpHTTP
    | ReqFirstHttpMajor | ReqHttpMajor | ReqFirstHttpMinor | ReqHttpMinor | ReqLineAlmostDone
    | HeaderFieldStart | HeaderField | HeaderValueDiscardWs | HeaderValueDiscardWsAlmostDone | HeaderValueDiscardLws
    | HeaderValueStart | HeaderValue | HeaderValueLws | HeaderAlmostDone
    | ChunkSizeStart | ChunkSize | ChunkParameters | ChunkSizeAlmostDone | HeadersAlmostDone | HeadersDone
    | ChunkData | ChunkDataAlmostDone | ChunkDataDone | BodyIdentity | MessageDone

  datatype HeaderState =
    | HGeneral | HC | HCO | HCON
    | MatchingConnection | MatchingProxyConnection | MatchingContentLength | MatchingTransferEncoding | MatchingUpgrade
    | HConnection | HContentLength | HTransferEncoding | HUpgrade
    | MatchingChunked | MatchingKeepAlive | MatchingClose
    | HChunked | HKeepAlive | HClose

  datatype Flags = Flags(chunked: bool, keepAlive: bool, close: bool, trailing: bool, upgrade: bool)

  const NO_FLAGS := Flags(false, false, false, false, false)

  datatype Parser = Parser(
    state: State, headerState: HeaderState, index: nat, nread: nat, contentLength: nat, flags: Flags,
    major: nat, minor: nat, verb: Method, upgrade: bool)

  datatype Errno =
    | CLOSED_CONNECTION | INVALID_METHOD | INVALID_URL | INVALID_CONSTANT | INVALID_VERSION | LF_EXPECTED | STRICT
    | INVALID_HEADER_TOKEN | INVALID_CONTENT_LENGTH | INVALID_CHUNK_SIZE | HEADER_OVERFLOW | INVALID_EOF_STATE
    | ASSERTION

  datatype Kind = URL | FIELD | VALUE | BODY

  /** What a callback tells, one byte of data at a time. */
  datatype Event = Data(kind: Kind, b: Byte) | MessageBegin | HeadersComplete | MessageComplete

  /** One pass through the switch: the new parser, the mark it sets if unset, the data callback it runs, the
      notify callbacks it runs, and whether it goes on with the same byte; or an error; or the upgrade exit. */
  datatype Pass =
    | Go(p: Parser, mark: Option<Kind>, flush: Option<Kind>, notes: seq<Event>, again: bool)
    | Stop(errno: Errno)
    | UpgradeExit(p: Parser)

  function Plain(p: Parser): Pass { Go(p, None, None, [], false) }

  function To(p: Parser, s: State): Pass { Plain(p.(state := s)) }

  // ---------------------------------------------------------------- character classes

  function Lower(c: Byte): Byte {
    var n := c as int;
    if (n / 32) % 2 == 1 then c else (n + 32) as char
  }

  predicate IsAlpha(c: Byte) { 'a' <= Lower(c) <= 'z' }

  predicate IsNum(c: Byte) { IsDigit(c) }

  /** The token table: the lower-case form of a token character, NUL for the others. */
  function TokenOf(c: Byte): Byte {
    if 'A' <= c <= 'Z' then Lower(c)
    else if 'a' <= c <= 'z' || IsNum(c) || c in "!#$%&'*+-.^_`|~" then c
    else '\0'
  }

  predicate IsUrlChar(c: Byte) { '!' <= c <= '~' && c != '#' && c != '?' }

  predicate IsUserinfoChar(c: Byte) { IsAlpha(c) || IsNum(c) || c in "-_.!~*'()%;:&=+$," }

  function Unhex(c: Byte): (v: int)
    ensures -1 <= v < 16
  {
    if IsNum(c) then c as int - '0' as int
    else if 'a' <= c <= 'f' then c as int - 'a' as int + 10
    else if 'A' <= c <= 'F' then c as int - 'A' as int + 10
    else -1
  }

  /** Character i of a C string: NUL at its end. */
  function CharAt(s: string, i: nat): char { if i < |s| then s[i] else '\0' }

  // ---------------------------------------------------------------- groups of states

  predicate IsUrlState(s: State) {
    s.ReqSchema? || s.ReqSchemaSlash? || s.ReqSchemaSlashSlash? || s.ReqServerStart? || s.ReqServer?
      || s.ReqServerWithAt?
    || s.ReqPath? || s.ReqQueryStringStart? || s.ReqQueryString? || s.ReqFragmentStart? || s.ReqFragment?
  }

  /** States in which bytes count towards the header limit: all but the body states. */
  predicate IsHeaderState(s: State) {
    !(s.ChunkData? || s.ChunkDataAlmostDone? || s.ChunkDataDone? || s.BodyIdentity? || s.MessageDone?)
  }

  // ---------------------------------------------------------------- decisions of the original

  /** `http_should_keep_alive` for requests, which never need an end of file. */
  predicate ShouldKeepAlive(p: Parser) {
    if p.major > 0 && p.minor > 0 then !p.flags.close else p.flags.keepAlive
  }

  function NewMessage(p: Parser): State { if ShouldKeepAlive(p) then StartReq else Dead }

  /** `parse_url_char` */
  function ParseUrlChar(s: State, ch: Byte): (r: State)
    ensures r.Dead? || IsUrlState(r)
  {
    if ch == ' ' || ch == CR || ch == LF || ch == '\t' || ch as int == 12 then Dead
    else
      match s
      case ReqSpacesBeforeUrl =>
        if ch == '/' || ch == '*' then ReqPath else if IsAlpha(ch) then ReqSchema else Dead
      case ReqSchema => if IsAlpha(ch) then s else if ch == ':' then ReqSchemaSlash else Dead
      case ReqSchemaSlash => if ch == '/' then ReqSchemaSlashSlash else Dead
      case ReqSchemaSlashSlash => if ch == '/' then ReqServerStart else Dead
      case ReqServerWithAt => if ch == '@' then Dead else ParseServerChar(ch)
      case ReqServerStart => ParseServerChar(ch)
      case ReqServer => ParseServerChar(ch)
      case ReqPath =>
        if IsUrlChar(ch) then s else if ch == '?' then ReqQueryStringStart else if ch == '#' then ReqFragmentStart
          else Dead
      case ReqQueryStringStart => ParseQueryChar(ch)
      case ReqQueryString => ParseQueryChar(ch)
      case ReqFragmentStart =>
        if IsUrlChar(ch) || ch == '?' then ReqFragment else if ch == '#' then s else Dead
      case ReqFragment => if IsUrlChar(ch) || ch == '?' || ch == '#' then s else Dead
      case _ => Dead
  }

  function ParseServerChar(ch: Byte): State {
    if ch == '/' then ReqPath
    else if ch == '?' then ReqQueryStringStart
    else if ch == '@' then ReqServerWithAt
    else if IsUserinfoChar(ch) || ch == '[' || ch == ']' then ReqServer
    else Dead
  }

  function ParseQueryChar(ch: Byte): State {
    if IsUrlChar(ch) || ch == '?' then ReqQueryString else if ch == '#' then ReqFragmentStart else Dead
  }

  // ---------------------------------------------------------------- the switch

  function SwitchDead(p: Parser, ch: Byte): Pass {
    if ch == CR || ch == LF then Plain(p) else Stop(CLOSED_CONNECTION)
  }

  function FirstMethod(ch: Byte): Option<Method> {
    if ch == 'C' then Some(CONNECT)
    else if ch == 'D' then Some(DELETE)
    else if ch == 'G' then Some(GET)
    else if ch == 'H' then Some(HEAD)
    else if ch == 'L' then Some(LOCK)
    else if ch == 'M' then Some(MKCOL)
    else if ch == 'N' then Some(NOTIFY)
    else if ch == 'O' then Some(OPTIONS)
    else if ch == 'P' then Some(POST)
    else if ch == 'R' then Some(REPORT)
    else if ch == 'S' then Some(SUBSCRIBE)
    else if ch == 'T' then Some(TRACE)
    else if ch == 'U' then Some(UNLOCK)
    else None
  }

  function SwitchStartReq(p: Parser, ch: Byte): Pass {
    if ch == CR || ch == LF then Plain(p)
    else if !IsAlpha(ch) then Stop(INVALID_METHOD)
    else
      match FirstMethod(ch)
      case None => Stop(INVALID_METHOD)
      case Some(m) =>
        Go(p.(flags := NO_FLAGS, contentLength := ULLONG_MAX, verb := m, index := 1, state := ReqMethod),
           None, None, [MessageBegin], false)
  }

  /** Which other method the letters may still spell, when a letter is not the one expected. */
  function OtherMethod(m: Method, index: nat, ch: Byte): Option<Method> {
    if m == CONNECT then
      if index == 1 && ch == 'H' then Some(CHECKOUT) else if index == 2 && ch == 'P' then Some(COPY) else None
    else if m == MKCOL then
      if index == 1 && ch == 'O' then Some(MOVE)
      else if index == 1 && ch == 'E' then Some(MERGE)
      else if index == 1 && ch == '-' then Some(MSEARCH)
      else if index == 2 && ch == 'A' then Some(MKACTIVITY)
      else if index == 3 && ch == 'A' then Some(MKCALENDAR)
      else None
    else if m == SUBSCRIBE then
      if index == 1 && ch == 'E' then Some(SEARCH) else None
    else if index == 1 && m == POST then
      if ch == 'R' then Some(PROPFIND) else if ch == 'U' then Some(PUT) else if ch == 'A' then Some(PATCH) else None
    else if index == 2 then
      if m == PUT then (if ch == 'R' then Some(PURGE) else None)
      else if m == UNLOCK then (if ch == 'S' then Some(UNSUBSCRIBE) else None)
      else None
    else if index == 4 && m == PROPFIND && ch == 'P' then Some(PROPPATCH)
    else None
  }

  function SwitchReqMethod(p: Parser, ch: Byte): Pass {
    if ch == '\0' then Stop(INVALID_METHOD)
    else if p.index > |MethodName(p.verb)| then Stop(ASSERTION)   // a read behind the name
    else
      var expected := CharAt(MethodName(p.verb), p.index);
      if ch == ' ' && expected == '\0' then Plain(p.(state := ReqSpacesBeforeUrl, index := p.index + 1))
      else if ch == expected then Plain(p.(index := p.index + 1))
      else
        match OtherMethod(p.verb, p.index, ch)
        case None => Stop(INVALID_METHOD)
        case Some(m) => Plain(p.(verb := m, index := p.index + 1))
  }

  function SwitchSpacesBeforeUrl(p: Parser, ch: Byte): Pass {
    if ch == ' ' then Plain(p)
    else
      var s := ParseUrlChar(if p.verb == CONNECT then ReqServerStart else p.state, ch);
      if s.Dead? then Stop(INVALID_URL) else Go(p.(state := s), Some(URL), None, [], false)
  }

  function SwitchUrl(p: Parser, ch: Byte): Pass {
    if p.state.ReqSchema? || p.state.ReqSchemaSlash? || p.state.ReqSchemaSlashSlash? || p.state.ReqServerStart? then
      if ch == ' ' || ch == CR || ch == LF then Stop(INVALID_URL) else SwitchUrlChar(p, ch)
    else if ch == ' ' then
      Go(p.(state := ReqHttpStart), None, Some(URL), [], false)
    else if ch == CR || ch == LF then
      Go(p.(major := 0, minor := 9, state := if ch == CR then ReqLineAlmostDone else HeaderFieldStart), None, Some(URL),
        [], false)
    else
      SwitchUrlChar(p, ch)
  }

  function SwitchUrlChar(p: Parser, ch: Byte): Pass {
    var s := ParseUrlChar(p.state, ch);
    if s.Dead? then Stop(INVALID_URL) else To(p, s)
  }

  function Expect(p: Parser, ch: Byte, c: Byte, s: State): Pass { if ch != c then Stop(STRICT) else To(p, s) }

  function SwitchVersion(p: Parser, ch: Byte): Pass {
    match p.state
    case ReqHttpStart => if ch == 'H' then To(p, ReqHttpH) else if ch == ' ' then Plain(p) else Stop(INVALID_CONSTANT)
    case ReqHttpH => Expect(p, ch, 'T', ReqHttpHT)
    case ReqHttpHT => Expect(p, ch, 'T', ReqHttpHTT)
    case ReqHttpHTT => Expect(p, ch, 'P', ReqHttpHTTP)
    case ReqHttpHTTP => Expect(p, ch, '/', ReqFirstHttpMajor)
    case ReqFirstHttpMajor =>
      if !('1' <= ch <= '9') then Stop(INVALID_VERSION)
      else Plain(p.(major := ch as int - '0' as int, state := ReqHttpMajor))
    case ReqHttpMajor =>
      if ch == '.' then To(p, ReqFirstHttpMinor)
      else if !IsNum(ch) then Stop(INVALID_VERSION)
      else
        var v := p.major * 10 + (ch as int - '0' as int);
        if v > 999 then Stop(INVALID_VERSION) else Plain(p.(major := v))
    case ReqFirstHttpMinor =>
      if !IsNum(ch) then Stop(INVALID_VERSION)
      else Plain(p.(minor := ch as int - '0' as int, state := ReqHttpMinor))
    case ReqHttpMinor =>
      if ch == CR then To(p, ReqLineAlmostDone)
      else if ch == LF then To(p, HeaderFieldStart)
      else if !IsNum(ch) then Stop(INVALID_VERSION)
      else
        var v := p.minor * 10 + (ch as int - '0' as int);
        if v > 999 then Stop(INVALID_VERSION) else Plain(p.(minor := v))
    case _ => // ReqLineAlmostDone
      if ch != LF then Stop(LF_EXPECTED) else To(p, HeaderFieldStart)
  }

  function SwitchFieldStart(p: Parser, ch: Byte): Pass {
    if ch == CR then To(p, HeadersAlmostDone)
    else if ch == LF then Go(p.(state := HeadersAlmostDone), None, None, [], true)
    else
      var c := TokenOf(ch);
      if c == '\0' then Stop(INVALID_HEADER_TOKEN)
      else
        var h := if c == 'c' then HC
                 else if c == 'p' then MatchingProxyConnection
                 else if c == 't' then MatchingTransferEncoding
                 else if c == 'u' then MatchingUpgrade
                 else HGeneral;
        Go(p.(index := 0, state := HeaderField, headerState := h), Some(FIELD), None, [], false)
  }

  /** One more character of a name or value that is matched letter by letter. */
  function Matching(p: Parser, c: char, word: string, matched: HeaderState): Parser {
    var i := p.index + 1;
    p.(index := i, headerState := if i > |word| || c != CharAt(word, i) then HGeneral
                                  else if i == |word| - 1 then matched
                                  else p.headerState)
  }

  function FieldChar(p: Parser, ch: Byte, c: Byte): Parser {
    match p.headerState
    case HGeneral => p
    case HC => p.(index := p.index + 1, headerState := if c == 'o' then HCO else HGeneral)
    case HCO => p.(index := p.index + 1, headerState := if c == 'n' then HCON else HGeneral)
    case HCON =>
      p.(index := p.index + 1,
         headerState := if c == 'n' then MatchingConnection else if c == 't' then MatchingContentLength else HGeneral)
    case MatchingConnection => Matching(p, c, "connection", HConnection)
    case MatchingProxyConnection => Matching(p, c, "proxy-connection", HConnection)
    case MatchingContentLength => Matching(p, c, "content-length", HContentLength)
    case MatchingTransferEncoding => Matching(p, c, "transfer-encoding", HTransferEncoding)
    case MatchingUpgrade => Matching(p, c, "upgrade", HUpgrade)
    case _ => if ch != ' ' then p.(headerState := HGeneral) else p
  }

  predicate IsFieldHeaderState(h: HeaderState) {
    !(h.MatchingChunked? || h.MatchingKeepAlive? || h.MatchingClose? || h.HChunked? || h.HKeepAlive? || h.HClose?)
  }

  function SwitchField(p: Parser, ch: Byte): Pass {
    var c := TokenOf(ch);
    if c != '\0' then
      if !IsFieldHeaderState(p.headerState) then Stop(ASSERTION) else Plain(FieldChar(p, ch, c))
    else if ch == ':' then Go(p.(state := HeaderValueDiscardWs), None, Some(FIELD), [], false)
    else if ch == CR then Go(p.(state := HeaderAlmostDone), None, Some(FIELD), [], false)
    else if ch == LF then Go(p.(state := HeaderFieldStart), None, Some(FIELD), [], false)
    else Stop(INVALID_HEADER_TOKEN)
  }

  function SwitchDiscardWs(p: Parser, ch: Byte): Pass {
    if ch == ' ' || ch == '\t' then Plain(p)
    else if ch == CR then To(p, HeaderValueDiscardWsAlmostDone)
    else if ch == LF then To(p, HeaderValueDiscardLws)
    else SwitchValueStart(p, ch)
  }

  function SwitchValueStart(p0: Parser, ch: Byte): Pass {
    var p := p0.(state := HeaderValue, index := 0);
    var c := Lower(ch);
    match p.headerState
    case HUpgrade => Marked(p.(flags := p.flags.(upgrade := true), headerState := HGeneral))
    case HTransferEncoding => Marked(p.(headerState := if c == 'c' then MatchingChunked else HGeneral))
    case HContentLength =>
      if !IsNum(ch) then Stop(INVALID_CONTENT_LENGTH) else Marked(p.(contentLength := ch as int - '0' as int))
    case HConnection =>
      Marked(p.(headerState := if c == 'k' then MatchingKeepAlive else if c == 'c' then MatchingClose else HGeneral))
    case _ => Marked(p.(headerState := HGeneral))
  }

  function Marked(p: Parser): Pass { Go(p, Some(VALUE), None, [], false) }

  /** A length with one more digit in 64-bit arithmetic; None when the conservative overflow test refuses it. */
  function Accumulate(length: nat, radix: nat, digit: nat): Option<nat>
    requires radix == 10 || radix == 16
  {
    if (ULLONG_MAX - radix) / radix < length then None else Some((length * radix + digit) % TWO_64)
  }

  function SwitchValue(p: Parser, ch: Byte): Pass {
    if ch == CR then Go(p.(state := HeaderAlmostDone), None, Some(VALUE), [], false)
    else if ch == LF then Go(p.(state := HeaderAlmostDone), None, Some(VALUE), [], true)
    else
      var c := Lower(ch);
      match p.headerState
      case HGeneral => Plain(p)
      case HConnection => Stop(ASSERTION)
      case HTransferEncoding => Stop(ASSERTION)
      case HContentLength =>
        if ch == ' ' then Plain(p)
        else if !IsNum(ch) then Stop(INVALID_CONTENT_LENGTH)
        else
          (match Accumulate(p.contentLength, 10, ch as int - '0' as int)
           case None => Stop(INVALID_CONTENT_LENGTH)
           case Some(t) => Plain(p.(contentLength := t)))
      case MatchingChunked => Plain(Matching(p, c, "chunked", HChunked))
      case MatchingKeepAlive => Plain(Matching(p, c, "keep-alive", HKeepAlive))
      case MatchingClose => Plain(Matching(p, c, "close", HClose))
      case HChunked => Plain(if ch != ' ' then p.(headerState := HGeneral) else p)
      case HKeepAlive => Plain(if ch != ' ' then p.(headerState := HGeneral) else p)
      case HClose => Plain(if ch != ' ' then p.(headerState := HGeneral) else p)
      case _ => Plain(p.(headerState := HGeneral))
  }

  function SwitchValueLws(p: Parser, ch: Byte): Pass {
    if ch == ' ' || ch == '\t' then Go(p.(state := HeaderValueStart), None, None, [], true)
    else
      var f := match p.headerState
        case HKeepAlive => p.flags.(keepAlive := true)
        case HClose => p.flags.(close := true)
        case HChunked => p.flags.(chunked := true)
        case _ => p.flags;
      Go(p.(flags := f, state := HeaderFieldStart), None, None, [], true)
  }

  function SwitchDiscardLws(p: Parser, ch: Byte): Pass {
    if ch == ' ' || ch == '\t' then To(p, HeaderValueDiscardWs)
    else Go(p.(state := HeaderFieldStart), Some(VALUE), Some(VALUE), [], true)   // an empty value is still reported
  }

  function SwitchHeadersAlmostDone(p: Parser, ch: Byte): Pass {
    if ch != LF then Stop(STRICT)
    else if p.flags.trailing then Go(p.(state := NewMessage(p)), None, None, [MessageComplete], false)
    else Go(p.(state := HeadersDone, upgrade := p.flags.upgrade || p.verb == CONNECT), None, None, [HeadersComplete],
      true)
  }

  function SwitchHeadersDone(p0: Parser, ch: Byte): Pass {
    var p := p0.(nread := 0);
    if ch != LF then Stop(STRICT)
    else if p.upgrade then UpgradeExit(p.(state := NewMessage(p)))
    else if p.flags.chunked then To(p, ChunkSizeStart)
    else if p.contentLength == 0 || p.contentLength == ULLONG_MAX then
      Go(p.(state := NewMessage(p)), None, None, [MessageComplete], false)
    else To(p, BodyIdentity)
  }

  function SwitchChunk(p: Parser, ch: Byte): Pass {
    if !p.flags.chunked then Stop(ASSERTION)
    else
      match p.state
      case ChunkSizeStart =>
        if p.nread != 1 then Stop(ASSERTION)
        else if Unhex(ch) == -1 then Stop(INVALID_CHUNK_SIZE)
        else Plain(p.(contentLength := Unhex(ch), state := ChunkSize))
      case ChunkSize =>
        if ch == CR then To(p, ChunkSizeAlmostDone)
        else if Unhex(ch) == -1 then
          if ch == ';' || ch == ' ' then To(p, ChunkParameters) else Stop(INVALID_CHUNK_SIZE)
        else
          (match Accumulate(p.contentLength, 16, Unhex(ch))
           case None => Stop(INVALID_CONTENT_LENGTH)
           case Some(t) => Plain(p.(contentLength := t)))
      case ChunkParameters => if ch == CR then To(p, ChunkSizeAlmostDone) else Plain(p)
      case ChunkSizeAlmostDone =>
        if ch != LF then Stop(STRICT)
        else if p.contentLength == 0 then
          Plain(p.(nread := 0, flags := p.flags.(trailing := true), state := HeaderFieldStart))
        else Plain(p.(nread := 0, state := ChunkData))
      case ChunkDataAlmostDone =>
        if p.contentLength != 0 then Stop(ASSERTION)
        else if ch != CR then Stop(STRICT)
        else Go(p.(state := ChunkDataDone), None, Some(BODY), [], false)
      case _ => // ChunkDataDone
        if ch != LF then Stop(STRICT) else Plain(p.(nread := 0, state := ChunkSizeStart))
  }

  /** The two states that take many bytes at once in the original; here one byte. */
  function SwitchBody(p: Parser): Pass {
    if p.contentLength == 0 || p.contentLength == ULLONG_MAX || (p.state.ChunkData? && !p.flags.chunked)
      then Stop(ASSERTION)
    else
      var left := p.contentLength - 1;
      if p.state.ChunkData? then
        Plain(p.(contentLength := left, state := if left == 0 then ChunkDataAlmostDone else ChunkData))
      else
        Go(p.(contentLength := left, state := if left == 0 then MessageDone else BodyIdentity), None, None, [],
          left == 0)
  }

  function Switch(p: Parser, ch: Byte): Pass {
    match p.state
    case Dead => SwitchDead(p, ch)
    case StartReq => SwitchStartReq(p, ch)
    case ReqMethod => SwitchReqMethod(p, ch)
    case ReqSpacesBeforeUrl => SwitchSpacesBeforeUrl(p, ch)
    case ReqSchema | ReqSchemaSlash | ReqSchemaSlashSlash | ReqServerStart | ReqServer | ReqServerWithAt | ReqPath
       | ReqQueryStringStart | ReqQueryString | ReqFragmentStart | ReqFragment => SwitchUrl(p, ch)
    case ReqHttpStart | ReqHttpH | ReqHttpHT | ReqHttpHTT | ReqHttpHTTP | ReqFirstHttpMajor | ReqHttpMajor
       | ReqFirstHttpMinor | ReqHttpMinor | ReqLineAlmostDone => SwitchVersion(p, ch)
    case HeaderFieldStart => SwitchFieldStart(p, ch)
    case HeaderField => SwitchField(p, ch)
    case HeaderValueDiscardWs => SwitchDiscardWs(p, ch)
    case HeaderValueDiscardWsAlmostDone => Expect(p, ch, LF, HeaderValueDiscardLws)
    case HeaderValueDiscardLws => SwitchDiscardLws(p, ch)
    case HeaderValueStart => SwitchValueStart(p, ch)
    case HeaderValue => SwitchValue(p, ch)
    case HeaderValueLws => SwitchValueLws(p, ch)
    case HeaderAlmostDone => Expect(p, ch, LF, HeaderValueLws)
    case HeadersAlmostDone => SwitchHeadersAlmostDone(p, ch)
    case HeadersDone => SwitchHeadersDone(p, ch)
    case ChunkSizeStart | ChunkSize | ChunkParameters | ChunkSizeAlmostDone | ChunkDataAlmostDone | ChunkDataDone =>
      SwitchChunk(p, ch)
    case ChunkData | BodyIdentity => SwitchBody(p)
    case MessageDone => Go(p.(state := NewMessage(p)), None, None, [MessageComplete], false)
  }
}
