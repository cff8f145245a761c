/**
 The request parser as a machine that takes one byte at a time and reports each byte of data at once: the
 reference for http_parser_execute, and what holds in all its runs.
 */
module HttpMachine {
  import opened Bytes
  import opened Common
  import opened HttpSwitch

  /** Which data, if any, the byte belongs to when the switch takes it in this state. */
  function Carry(s: State, ch: Byte): Option<Kind> {
    if s.ReqSpacesBeforeUrl? then (if ch != ' ' then Some(URL) else None)
    else if IsUrlState(s) then (if ch != ' ' && ch != CR && ch != LF then Some(URL) else None)
    else if s.HeaderFieldStart? then (if ch != CR && ch != LF then Some(FIELD) else None)
    else if s.HeaderField? then (if TokenOf(ch) != '\0' then Some(FIELD) else None)
    else if s.HeaderValueDiscardWs? then (if ch != ' ' && ch != '\t' && ch != CR && ch != LF then Some(VALUE) else None)
    else if s.HeaderValueStart? then Some(VALUE)
    else if s.HeaderValue? then (if ch != CR && ch != LF then Some(VALUE) else None)
    else if s.ChunkData? || s.BodyIdentity? then Some(BODY)
    else None
  }

  function Carried(s: State, ch: Byte): seq<Event> {
    match Carry(s, ch) case None => [] case Some(k) => [Data(k, ch)]
  }

  /** The data the parser is inside in this state. */
  function Owner(s: State): Option<Kind> {
    if IsUrlState(s) then Some(URL)
    else if s.HeaderField? then Some(FIELD)
    else if s.HeaderValue? then Some(VALUE)
    else None
  }

  /** The data of which bytes may be read and not yet told, when the parser is stopped in this state. */
  function Open(s: State): Option<Kind> { if s.ChunkDataAlmostDone? then Some(BODY) else Owner(s) }

  /** What becomes of some bytes: the parser goes on, or stops; the events before that, and the data it was inside. */
  datatype Outcome =
    | Running(p: Parser, events: seq<Event>)
    | Halted(errno: Errno, events: seq<Event>, open: Option<Kind>)
    | Upgraded(events: seq<Event>)

  /** Bounds the passes through the switch for one byte. */
  function Rank(s: State): nat {
    match s
    case HeaderValueDiscardLws => 4
    case HeaderValueLws => 4
    case HeaderFieldStart => 3
    case HeadersAlmostDone => 2
    case HeadersDone => 1
    case HeaderValue => 1
    case BodyIdentity => 1
    case _ => 0
  }

  lemma AgainGoesDown(p: Parser, ch: Byte)
    ensures Switch(p, ch).Go? && Switch(p, ch).again ==>
              Rank(Switch(p, ch).p.state) < Rank(p.state) && Carry(Switch(p, ch).p.state, ch) != Some(BODY)
  {
    if InRequestLine(p.state) {
    } else if InHeaderLine(p.state) {
    } else {
    }
  }

  function Prepend(events: seq<Event>, o: Outcome): Outcome {
    match o
    case Running(p, more) => Running(p, events + more)
    case Halted(errno, more, open) => Halted(errno, events + more, open)
    case Upgraded(more) => Upgraded(events + more)
  }

  /** All passes for one byte. */
  function Passes(p: Parser, ch: Byte): Outcome
    decreases Rank(p.state)
  {
    match Switch(p, ch)
    case Stop(errno) => Halted(errno, [], Open(p.state))
    case UpgradeExit(_) => Upgraded([MessageComplete])
    case Go(q, _, _, notes, again) =>
      AgainGoesDown(p, ch);
      Prepend(Carried(p.state, ch) + notes, if again then Passes(q, ch) else Running(q, []))
  }

  /** The header limit is checked before the switch. */
  function Counted(p: Parser): Parser { if IsHeaderState(p.state) then p.(nread := p.nread + 1) else p }

  function Step(p: Parser, ch: Byte): Outcome {
    var q := Counted(p);
    if IsHeaderState(p.state) && q.nread > MAX_HEADER_SIZE then Halted(HEADER_OVERFLOW, [], Open(p.state))
    else Passes(q, ch)
  }

  function Run(p: Parser, d: seq<Byte>): Outcome
    decreases |d|
  {
    if d == [] then Running(p, [])
    else
      match Run(p, d[..|d| - 1])
      case Running(q, events) => Prepend(events, Step(q, d[|d| - 1]))
      case o => o
  }

  /** It ends with this error, or, without one, with an upgrade. */
  predicate EndsWith(o: Outcome, errno: Option<Errno>) {
    match errno case Some(e) => o.Halted? && o.errno == e case None => o.Upgraded?
  }

  lemma RunSnoc(p: Parser, d: seq<Byte>, ch: Byte)
    ensures Run(p, d + [ch]) == match Run(p, d)
                                case Running(q, events) => Prepend(events, Step(q, ch))
                                case o => o
  {
    assert (d + [ch])[..|d|] == d;
  }

  /** A run on a whole stream is a run on a first part followed by a run on the rest. */
  lemma {:induction false} RunConcat(p: Parser, a: seq<Byte>, b: seq<Byte>)
    ensures Run(p, a + b) == match Run(p, a)
                             case Running(q, events) => Prepend(events, Run(q, b))
                             case o => o
    decreases |b|
  {
    if b == [] {
      assert a + b == a;
      match Run(p, a) {
        case Running(q, events) => assert events + [] == events;
        case _ =>
      }
    } else {
      var b0 := b[..|b| - 1];
      RunConcat(p, a, b0);
      assert (a + b)[..|a + b| - 1] == a + b0;
      assert (a + b)[|a + b| - 1] == b[|b| - 1];
      match Run(p, a) {
        case Running(q, events) =>
          match Run(q, b0) {
            case Running(r, more) => PrependTwice(events, more, Step(r, b[|b| - 1]));
            case _ =>
          }
        case _ =>
      }
    }
  }

  lemma PrependTwice(a: seq<Event>, b: seq<Event>, o: Outcome)
    ensures Prepend(a, Prepend(b, o)) == Prepend(a + b, o)
  {
    assert a + (b + o.events) == (a + b) + o.events;
  }

  // ---------------------------------------------------------------- what every run keeps

  /** How far the letter-by-letter matching of a header name can be. */
  ghost predicate FieldIndexOk(p: Parser) {
    match p.headerState
    case HC => p.index == 0
    case HCO => p.index == 1
    case HCON => p.index == 2
    case MatchingConnection => 3 <= p.index < |"connection"| - 1
    case MatchingProxyConnection => p.index < |"proxy-connection"| - 1
    case MatchingContentLength => 3 <= p.index < |"content-length"| - 1
    case MatchingTransferEncoding => p.index < |"transfer-encoding"| - 1
    case MatchingUpgrade => p.index < |"upgrade"| - 1
    case _ => IsFieldHeaderState(p.headerState)
  }

  ghost predicate ValueIndexOk(p: Parser) {
    match p.headerState
    case HContentLength => p.contentLength < ULLONG_MAX
    case MatchingChunked => p.index < |"chunked"| - 1
    case MatchingKeepAlive => p.index < |"keep-alive"| - 1
    case MatchingClose => p.index < |"close"| - 1
    case HGeneral => true
    case HChunked => true
    case HKeepAlive => true
    case HClose => true
    case _ => false
  }

  /** The numbers stay within the widths of their fields. */
  ghost predicate Numbers(p: Parser) { p.contentLength <= ULLONG_MAX && p.nread <= MAX_HEADER_SIZE && p.index <= 20 }

  /** What else holds in a state between bytes (or, inside, between passes for one byte). */
  ghost predicate StateOk(p: Parser, inside: bool) {
    match p.state
    case ReqMethod => 1 <= p.index <= |MethodName(p.verb)|
    case HeaderField => FieldIndexOk(p)
    case HeaderValue => ValueIndexOk(p)
    case ChunkSizeStart => p.flags.chunked && p.nread == if inside then 1 else 0
    case ChunkSize | ChunkParameters | ChunkSizeAlmostDone => p.flags.chunked && p.contentLength < ULLONG_MAX
    case ChunkData => p.flags.chunked && 0 < p.contentLength < ULLONG_MAX
    case ChunkDataAlmostDone => p.flags.chunked && p.contentLength == 0
    case ChunkDataDone => p.flags.chunked
    case BodyIdentity => 0 < p.contentLength < ULLONG_MAX
    case HeaderValueStart | HeadersDone | MessageDone => inside
    case _ => true
  }

  ghost predicate Inv(p: Parser, inside: bool) { Numbers(p) && StateOk(p, inside) }

  /** States in which nothing else has to hold. */
  predicate Quiet(s: State) {
    match s
    case ReqMethod | HeaderField | HeaderValue | ChunkSizeStart | ChunkSize | ChunkParameters | ChunkSizeAlmostDone
       | ChunkData | ChunkDataAlmostDone | ChunkDataDone | BodyIdentity | HeaderValueStart | HeadersDone
       | MessageDone => false
    case _ => true
  }

  ghost predicate QuietPass(pass: Pass) {
    pass != Stop(ASSERTION) && (pass.Go? ==> Numbers(pass.p) && Quiet(pass.p.state))
  }

  /** The refused lengths are those near the limit; an accepted one is the exact number and never the sentinel. */
  lemma LengthIsExact(length: nat, radix: nat, digit: nat)
    requires (radix == 10 || radix == 16) && digit < radix
    ensures Accumulate(length, radix, digit).Some? <==> length * radix + radix <= ULLONG_MAX
    ensures Accumulate(length, radix, digit).Some? ==>
              Accumulate(length, radix, digit).value == length * radix + digit < ULLONG_MAX
  {
    assert (ULLONG_MAX - 10) / 10 == 1844674407370955160;
    assert (ULLONG_MAX - 16) / 16 == 1152921504606846974;
  }

  ghost predicate GoodPass(pass: Pass) {
    pass != Stop(ASSERTION) && (pass.Go? ==> Inv(pass.p, pass.again))
  }

  lemma QuietIsGood(pass: Pass)
    requires QuietPass(pass)
    ensures GoodPass(pass)
  {
  }

  lemma NameLength(m: Method)
    ensures 3 <= |MethodName(m)| <= 11
  {
  }

  lemma OtherMethodIsLonger(m: Method, index: nat, ch: Byte)
    ensures OtherMethod(m, index, ch).Some? ==> index < |MethodName(OtherMethod(m, index, ch).value)|
  {
  }

  lemma MethodKeepsInv(p: Parser, ch: Byte)
    requires Numbers(p) && 1 <= p.index <= |MethodName(p.verb)| && p.state.ReqMethod?
    ensures GoodPass(SwitchReqMethod(p, ch))
  {
    NameLength(p.verb);
    OtherMethodIsLonger(p.verb, p.index, ch);
  }

  lemma StartKeepsInv(p: Parser, ch: Byte)
    requires Numbers(p) && p.state.StartReq?
    ensures GoodPass(SwitchStartReq(p, ch))
  {
    if FirstMethod(ch).Some? {
      NameLength(FirstMethod(ch).value);
    }
  }

  lemma UrlKeepsInv(p: Parser, ch: Byte)
    requires Numbers(p) && IsUrlState(p.state)
    ensures QuietPass(SwitchUrl(p, ch))
  {
    assert Quiet(ParseUrlChar(p.state, ch)) && Quiet(p.state);
  }

  lemma VersionKeepsInv(p: Parser, ch: Byte)
    requires Numbers(p)
    requires match p.state
             case ReqHttpStart | ReqHttpH | ReqHttpHT | ReqHttpHTT | ReqHttpHTTP | ReqFirstHttpMajor | ReqHttpMajor
                | ReqFirstHttpMinor | ReqHttpMinor | ReqLineAlmostDone => true
             case _ => false
    ensures QuietPass(SwitchVersion(p, ch))
  {
  }

  lemma MatchingAdvances(p: Parser, c: char, word: string, matched: HeaderState)
    requires p.index < |word| - 1 <= 19
    ensures var q := Matching(p, c, word, matched);
            && q == p.(index := p.index + 1, headerState := q.headerState)
            && (q.headerState == HGeneral || q.headerState == matched
                || (q.headerState == p.headerState && p.index + 1 < |word| - 1))
  {
  }

  lemma FieldMatchKeeps(p: Parser, c: Byte, word: string, matched: HeaderState)
    requires p.index <= 20 && FieldIndexOk(p)
    requires match p.headerState
             case MatchingConnection => word == "connection" && matched == HConnection
             case MatchingProxyConnection => word == "proxy-connection" && matched == HConnection
             case MatchingContentLength => word == "content-length" && matched == HContentLength
             case MatchingTransferEncoding => word == "transfer-encoding" && matched == HTransferEncoding
             case MatchingUpgrade => word == "upgrade" && matched == HUpgrade
             case _ => false
    ensures var q := Matching(p, c, word, matched);
            q == p.(index := q.index, headerState := q.headerState) && q.index <= 20 && FieldIndexOk(q)
  {
    MatchingAdvances(p, c, word, matched);
  }

  lemma FieldCharKeeps(p: Parser, ch: Byte, c: Byte)
    requires p.index <= 20 && FieldIndexOk(p)
    ensures var q := FieldChar(p, ch, c);
            q == p.(index := q.index, headerState := q.headerState) && q.index <= 20 && FieldIndexOk(q)
  {
    match p.headerState {
      case MatchingConnection => FieldMatchKeeps(p, c, "connection", HConnection);
      case MatchingProxyConnection => FieldMatchKeeps(p, c, "proxy-connection", HConnection);
      case MatchingContentLength => FieldMatchKeeps(p, c, "content-length", HContentLength);
      case MatchingTransferEncoding => FieldMatchKeeps(p, c, "transfer-encoding", HTransferEncoding);
      case MatchingUpgrade => FieldMatchKeeps(p, c, "upgrade", HUpgrade);
      case HGeneral | HC | HCO | HCON | HConnection | HContentLength | HTransferEncoding | HUpgrade =>
    }
  }

  lemma FieldKeepsInv(p: Parser, ch: Byte)
    requires Numbers(p) && FieldIndexOk(p) && p.state.HeaderField?
    ensures GoodPass(SwitchField(p, ch))
  {
    if TokenOf(ch) != '\0' {
      FieldCharKeeps(p, ch, TokenOf(ch));
      assert IsFieldHeaderState(p.headerState);
    } else {
      QuietIsGood(SwitchField(p, ch));
    }
  }

  lemma ValueMatchKeeps(p: Parser, c: char, word: string, matched: HeaderState)
    requires Numbers(p) && p.state.HeaderValue? && p.index < |word| - 1
    requires (p.headerState == MatchingChunked && word == "chunked" && matched == HChunked)
          || (p.headerState == MatchingKeepAlive && word == "keep-alive" && matched == HKeepAlive)
          || (p.headerState == MatchingClose && word == "close" && matched == HClose)
    ensures Inv(Matching(p, c, word, matched), false)
  {
    MatchingAdvances(p, c, word, matched);
  }

  lemma LengthKeepsInv(p: Parser, ch: Byte)
    requires Numbers(p) && ValueIndexOk(p) && p.state.HeaderValue? && p.headerState.HContentLength? && ch != CR
        && ch != LF
    ensures GoodPass(SwitchValue(p, ch))
  {
    if IsNum(ch) {
      LengthIsExact(p.contentLength, 10, ch as int - '0' as int);
    }
  }

  lemma ValueKeepsInv(p: Parser, ch: Byte)
    requires Numbers(p) && ValueIndexOk(p) && p.state.HeaderValue?
    ensures GoodPass(SwitchValue(p, ch))
  {
    if ch == CR || ch == LF {
      QuietIsGood(SwitchValue(p, ch));
    } else {
      match p.headerState {
        case HContentLength => LengthKeepsInv(p, ch);
        case MatchingChunked => ValueMatchKeeps(p, Lower(ch), "chunked", HChunked);
        case MatchingKeepAlive => ValueMatchKeeps(p, Lower(ch), "keep-alive", HKeepAlive);
        case MatchingClose => ValueMatchKeeps(p, Lower(ch), "close", HClose);
        case HGeneral | HChunked | HKeepAlive | HClose =>
      }
    }
  }

  lemma FieldStartKeepsInv(p: Parser, ch: Byte)
    requires Numbers(p)
    ensures GoodPass(SwitchFieldStart(p, ch))
  {
  }

  lemma ValueStartKeepsInv(p: Parser, ch: Byte)
    requires Numbers(p)
    ensures GoodPass(SwitchValueStart(p, ch))
  {
  }

  lemma DiscardWsKeepsInv(p: Parser, ch: Byte)
    requires Numbers(p) && p.state.HeaderValueDiscardWs?
    ensures GoodPass(SwitchDiscardWs(p, ch))
  {
    if ch == ' ' || ch == '\t' || ch == CR || ch == LF {
      QuietIsGood(SwitchDiscardWs(p, ch));
    } else {
      ValueStartKeepsInv(p, ch);
    }
  }

  lemma LwsKeepsInv(p: Parser, ch: Byte)
    requires Numbers(p)
    ensures GoodPass(SwitchValueLws(p, ch)) && QuietPass(SwitchDiscardLws(p, ch))
  {
  }

  lemma HeadersEndKeepsInv(p: Parser, ch: Byte)
    requires Numbers(p)
    ensures GoodPass(SwitchHeadersAlmostDone(p, ch)) && GoodPass(SwitchHeadersDone(p, ch))
  {
  }

  lemma ChunkKeepsInv(p: Parser, ch: Byte)
    requires Inv(p, true)
    requires match p.state
             case ChunkSizeStart | ChunkSize | ChunkParameters | ChunkSizeAlmostDone | ChunkDataAlmostDone
                | ChunkDataDone => true
             case _ => false
    ensures GoodPass(SwitchChunk(p, ch))
  {
    match p.state {
      case ChunkSize => if Unhex(ch) != -1 { LengthIsExact(p.contentLength, 16, Unhex(ch)); }
      case _ =>
    }
  }

  predicate InRequestLine(s: State) {
    match s
    case Dead | StartReq | ReqMethod | ReqSpacesBeforeUrl | ReqSchema | ReqSchemaSlash | ReqSchemaSlashSlash
       | ReqServerStart | ReqServer | ReqServerWithAt | ReqPath | ReqQueryStringStart | ReqQueryString
       | ReqFragmentStart | ReqFragment | ReqHttpStart | ReqHttpH | ReqHttpHT | ReqHttpHTT | ReqHttpHTTP
       | ReqFirstHttpMajor | ReqHttpMajor | ReqFirstHttpMinor | ReqHttpMinor | ReqLineAlmostDone => true
    case _ => false
  }

  lemma RequestLineKeepsInv(p: Parser, ch: Byte)
    requires Inv(p, true) && InRequestLine(p.state)
    ensures GoodPass(Switch(p, ch))
  {
    match p.state {
      case Dead => QuietIsGood(SwitchDead(p, ch));
      case StartReq => StartKeepsInv(p, ch);
      case ReqMethod => MethodKeepsInv(p, ch);
      case ReqSpacesBeforeUrl => QuietIsGood(SwitchSpacesBeforeUrl(p, ch));
      case ReqSchema | ReqSchemaSlash | ReqSchemaSlashSlash | ReqServerStart | ReqServer | ReqServerWithAt
         | ReqPath | ReqQueryStringStart | ReqQueryString | ReqFragmentStart | ReqFragment =>
        UrlKeepsInv(p, ch);
        QuietIsGood(SwitchUrl(p, ch));
      case ReqHttpStart | ReqHttpH | ReqHttpHT | ReqHttpHTT | ReqHttpHTTP | ReqFirstHttpMajor | ReqHttpMajor
         | ReqFirstHttpMinor | ReqHttpMinor | ReqLineAlmostDone =>
        VersionKeepsInv(p, ch);
        QuietIsGood(SwitchVersion(p, ch));
    }
  }

  predicate InHeaderLine(s: State) {
    match s
    case HeaderFieldStart | HeaderField | HeaderValueDiscardWs | HeaderValueDiscardWsAlmostDone | HeaderValueDiscardLws
       | HeaderValueStart | HeaderValue | HeaderValueLws | HeaderAlmostDone => true
    case _ => false
  }

  lemma HeaderLineKeepsInv(p: Parser, ch: Byte)
    requires Inv(p, true) && InHeaderLine(p.state)
    ensures GoodPass(Switch(p, ch))
  {
    match p.state {
      case HeaderFieldStart => FieldStartKeepsInv(p, ch);
      case HeaderField => FieldKeepsInv(p, ch);
      case HeaderValueDiscardWs => DiscardWsKeepsInv(p, ch);
      case HeaderValueStart => ValueStartKeepsInv(p, ch);
      case HeaderValue => ValueKeepsInv(p, ch);
      case HeaderValueLws => LwsKeepsInv(p, ch);
      case HeaderValueDiscardLws =>
        LwsKeepsInv(p, ch);
        QuietIsGood(SwitchDiscardLws(p, ch));
      case HeaderValueDiscardWsAlmostDone => QuietIsGood(Expect(p, ch, LF, HeaderValueDiscardLws));
      case HeaderAlmostDone => QuietIsGood(Expect(p, ch, LF, HeaderValueLws));
    }
  }

  lemma BodyKeepsInv(p: Parser)
    requires Inv(p, true) && (p.state.ChunkData? || p.state.BodyIdentity?)
    ensures GoodPass(SwitchBody(p))
  {
  }

  /** No assertion of the source fails, and the invariant holds after the pass. */
  lemma SwitchKeepsInv(p: Parser, ch: Byte)
    requires Inv(p, true)
    ensures GoodPass(Switch(p, ch))
  {
    if InRequestLine(p.state) {
      RequestLineKeepsInv(p, ch);
    } else if InHeaderLine(p.state) {
      HeaderLineKeepsInv(p, ch);
    } else {
      match p.state {
        case HeadersAlmostDone | HeadersDone => HeadersEndKeepsInv(p, ch);
        case ChunkData | BodyIdentity => BodyKeepsInv(p);
        case MessageDone => QuietIsGood(Switch(p, ch));
        case ChunkSizeStart | ChunkSize | ChunkParameters | ChunkSizeAlmostDone | ChunkDataAlmostDone | ChunkDataDone =>
          ChunkKeepsInv(p, ch);
      }
    }
  }

  lemma {:induction false} PassesKeepInv(p: Parser, ch: Byte)
    requires Inv(p, true)
    ensures !EndsWith(Passes(p, ch), Some(ASSERTION))
    ensures Passes(p, ch).Running? ==> Inv(Passes(p, ch).p, false)
    decreases Rank(p.state)
  {
    SwitchKeepsInv(p, ch);
    match Switch(p, ch) {
      case Go(q, _, _, _, again) =>
        AgainGoesDown(p, ch);
        if again {
          PassesKeepInv(q, ch);
        }
      case _ =>
    }
  }

  /** In every run from a good state no assertion of the source fails, the counters keep within their widths,
      and a length is never the sentinel while a body is read. */
  lemma {:induction false} RunKeepsInv(p: Parser, d: seq<Byte>)
    requires Inv(p, false)
    ensures !EndsWith(Run(p, d), Some(ASSERTION))
    ensures Run(p, d).Running? ==> Inv(Run(p, d).p, false)
    decreases |d|
  {
    if d != [] {
      RunKeepsInv(p, d[..|d| - 1]);
      match Run(p, d[..|d| - 1]) {
        case Running(q, _) =>
          if !(IsHeaderState(q.state) && q.nread + 1 > MAX_HEADER_SIZE) {
            PassesKeepInv(Counted(q), d[|d| - 1]);
          }
        case _ =>
      }
    }
  }

  /** `http_parser_init` for requests. */
  function Init(): (p: Parser)
    ensures Inv(p, false)
  {
    Parser(StartReq, HGeneral, 0, 0, 0, NO_FLAGS, 0, 0, DELETE, false)
  }
}
