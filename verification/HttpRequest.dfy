/**
 Whole requests: what the parser of lib/crow/include/crow/http_parser_merged.h tells of a request line, any header
 lines and a body, told by the text alone, and whether it then takes another request.
 */
module HttpRequest {
  import opened Bytes
  import opened Common
  import opened HttpChunks
  import opened HttpMachine
  import opened HttpNames
  import opened HttpParser
  import opened HttpSwitch
  import opened HttpUrl
  import opened HttpValues

  // ---------------------------------------------------------------- the method

  /** The method the parser takes it for after i letters of the name of m. */
  function VerbAfter(m: Method, i: nat): Method {
    match m
    case CHECKOUT => if i <= 1 then CONNECT else m
    case COPY => if i <= 2 then CONNECT else m
    case MOVE => if i <= 1 then MKCOL else m
    case MERGE => if i <= 1 then MKCOL else m
    case MSEARCH => if i <= 1 then MKCOL else m
    case MKACTIVITY => if i <= 2 then MKCOL else m
    case MKCALENDAR => if i <= 3 then MKCOL else m
    case SEARCH => if i <= 1 then SUBSCRIBE else m
    case PROPFIND => if i <= 1 then POST else m
    case PUT => if i <= 1 then POST else m
    case PATCH => if i <= 1 then POST else m
    case PURGE => if i <= 1 then POST else if i == 2 then PUT else m
    case UNSUBSCRIBE => if i <= 2 then UNLOCK else m
    case PROPPATCH => if i <= 1 then POST else if i <= 4 then PROPFIND else m
    case _ => m
  }

  lemma VerbStarts(m: Method)
    ensures |MethodName(m)| >= 3 && VerbAfter(m, |MethodName(m)|) == m
    ensures MethodName(m)[0] as int < 256 && FirstMethod(MethodName(m)[0]) == Some(VerbAfter(m, 1))
    ensures IsAlpha(MethodName(m)[0])
  {
  }

  predicate IsNameLetter(c: char) { 'A' <= c <= 'Z' || c == '-' }

  lemma NameLetters(m: Method, i: nat)
    requires i < |MethodName(m)|
    ensures IsNameLetter(MethodName(m)[i])
  {
    hide MethodName, IsNameLetter;
    if FromMkcol(m) || FromPost(m) {
      SomeLetters(m, i);
    } else {
      OtherLetters(m, i);
    }
  }

  lemma SomeLetters(m: Method, i: nat)
    requires i < |MethodName(m)| && (FromMkcol(m) || FromPost(m))
    ensures IsNameLetter(MethodName(m)[i])
  {
  }

  lemma OtherLetters(m: Method, i: nat)
    requires i < |MethodName(m)| && !FromMkcol(m) && !FromPost(m)
    ensures IsNameLetter(MethodName(m)[i])
  {
  }

  ghost predicate GoesOn(m: Method, i: nat)
    requires i < |MethodName(m)| && MethodName(m)[i] as int < 256
  {
    var v, ch := VerbAfter(m, i), MethodName(m)[i];
    && i <= |MethodName(v)|
    && if CharAt(MethodName(v), i) == ch then VerbAfter(m, i + 1) == v
       else OtherMethod(v, i, ch) == Some(VerbAfter(m, i + 1))
  }

  predicate FromMkcol(m: Method) { m.MOVE? || m.MERGE? || m.MSEARCH? || m.MKACTIVITY? || m.MKCALENDAR? }

  predicate FromPost(m: Method) { m.PROPFIND? || m.PUT? || m.PATCH? || m.PURGE? || m.PROPPATCH? }

  lemma MkcolGoesOn(m: Method, i: nat)
    requires FromMkcol(m) && 1 <= i < |MethodName(m)| && MethodName(m)[i] as int < 256
    ensures GoesOn(m, i)
  {
  }

  lemma PostGoesOn(m: Method, i: nat)
    requires FromPost(m) && 1 <= i < |MethodName(m)| && MethodName(m)[i] as int < 256
    ensures GoesOn(m, i)
  {
  }

  /** The next letter of the name is the one expected, or leads from one method to the other. */
  lemma VerbGoesOn(m: Method, i: nat)
    requires 1 <= i < |MethodName(m)|
    ensures MethodName(m)[i] as int < 256 && MethodName(m)[i] != '\0' && MethodName(m)[i] != ' '
    ensures GoesOn(m, i)
  {
    NameLetters(m, i);
    if FromMkcol(m) {
      MkcolGoesOn(m, i);
    } else if FromPost(m) {
      PostGoesOn(m, i);
    } else {
      OthersGoOn(m, i);
    }
  }

  lemma OthersGoOn(m: Method, i: nat)
    requires !FromMkcol(m) && !FromPost(m) && 1 <= i < |MethodName(m)| && MethodName(m)[i] as int < 256
    ensures GoesOn(m, i)
  {
  }

  /** After some letters of the method. */
  function InMethod(p: Parser, m: Method, i: nat): Parser {
    p.(flags := NO_FLAGS, contentLength := ULLONG_MAX, verb := VerbAfter(m, i), index := i, state := ReqMethod,
       nread := p.nread + i)
  }

  /** The parser behind the method and its space. */
  function AfterMethod(p: Parser, m: Method): Parser {
    var n := |MethodName(m)| + 1;
    p.(flags := NO_FLAGS, contentLength := ULLONG_MAX, verb := m, index := n, state := ReqSpacesBeforeUrl,
       nread := p.nread + n)
  }

  lemma FirstLetterStep(p: Parser, m: Method, ch: Byte)
    requires p.state.StartReq? && p.nread < MAX_HEADER_SIZE && MethodName(m)[..1] == [ch]
    ensures Step(p, ch) == Running(InMethod(p, m, 1), [MessageBegin])
  {
    hide VerbAfter, MethodName, IsAlpha, FirstMethod;
    VerbStarts(m);
    assert MethodName(m)[..1][0] == MethodName(m)[0];
    assert !IsAlpha(CR) && !IsAlpha(LF) by { NoLetters(); }
    var c := p.(nread := p.nread + 1);
    HeadByte(p, ch, InMethod(p, m, 1), [MessageBegin]);
    assert [] + [MessageBegin] == [MessageBegin];
  }

  lemma NoLetters()
    ensures !IsAlpha(CR) && !IsAlpha(LF)
  {
  }

  lemma NextLetterStep(p: Parser, m: Method, i: nat, ch: Byte)
    requires 1 <= i < |MethodName(m)| && MethodName(m)[i] == ch && p.nread + i < MAX_HEADER_SIZE
    ensures Step(InMethod(p, m, i), ch) == Running(InMethod(p, m, i + 1), [])
  {
    hide VerbAfter, MethodName, OtherMethod, CharAt;
    VerbGoesOn(m, i);
    HeadByte(InMethod(p, m, i), ch, InMethod(p, m, i + 1), []);
  }

  lemma {:induction false} RunLetters(p: Parser, m: Method, w: seq<Byte>)
    requires p.state.StartReq? && w != [] && w <= MethodName(m) && p.nread + |w| <= MAX_HEADER_SIZE
    ensures Run(p, w) == Running(InMethod(p, m, |w|), [MessageBegin])
    decreases |w|
  {
    hide Step, MethodName, InMethod;
    var w0, ch := w[..|w| - 1], w[|w| - 1];
    assert w == w0 + [ch] && ch == MethodName(m)[|w0|] && w0 == MethodName(m)[..|w0|];
    if w0 == [] {
      assert w == [ch] == MethodName(m)[..1];
      FirstLetterStep(p, m, ch);
      RunOne(p, ch);
    } else {
      RunLetters(p, m, w0);
      NextLetterStep(p, m, |w0|, ch);
      RunMore(p, w0, InMethod(p, m, |w0|), [MessageBegin], ch, InMethod(p, m, |w|), []);
      assert [MessageBegin] + [] == [MessageBegin];
    }
  }

  lemma SpaceStep(p: Parser, m: Method)
    requires p.nread + |MethodName(m)| < MAX_HEADER_SIZE
    ensures Step(InMethod(p, m, |MethodName(m)|), ' ') == Running(AfterMethod(p, m), [])
  {
    hide VerbAfter, MethodName, OtherMethod;
    VerbStarts(m);
    HeadByte(InMethod(p, m, |MethodName(m)|), ' ', AfterMethod(p, m), []);
  }

  /** Every method's name is read as that method. */
  lemma RunMethod(p: Parser, m: Method, w: seq<Byte>)
    requires p.state.StartReq? && w == MethodName(m) && p.nread + |w| < MAX_HEADER_SIZE
    ensures Run(p, w + [' ']) == Running(AfterMethod(p, m), [MessageBegin])
  {
    hide Step, MethodName, InMethod, AfterMethod;
    VerbStarts(m);
    RunLetters(p, m, w);
    SpaceStep(p, m);
    RunMore(p, w, InMethod(p, m, |w|), [MessageBegin], ' ', AfterMethod(p, m), []);
    assert [MessageBegin] + [] == [MessageBegin];
  }

  // ---------------------------------------------------------------- the version

  const HTTP_SLASH: seq<Byte> := ['H', 'T', 'T', 'P', '/']

  /** The state after some letters of the word in front of the version. */
  function InWord(p: Parser, i: nat): Parser
    requires i <= 5
  {
    p.(state := [ReqHttpStart, ReqHttpH, ReqHttpHT, ReqHttpHTT, ReqHttpHTTP, ReqFirstHttpMajor][i],
      nread := p.nread + i)
  }

  lemma WordStep(p: Parser, i: nat)
    requires p.state.ReqHttpStart? && i < 5 && p.nread + i < MAX_HEADER_SIZE
    ensures Step(InWord(p, i), HTTP_SLASH[i]) == Running(InWord(p, i + 1), [])
  {
    HeadByte(InWord(p, i), HTTP_SLASH[i], InWord(p, i + 1), []);
  }

  lemma {:induction false} RunWord(p: Parser, i: nat)
    requires p.state.ReqHttpStart? && i <= 5 && p.nread + i <= MAX_HEADER_SIZE
    ensures Run(p, HTTP_SLASH[..i]) == Running(InWord(p, i), [])
  {
    hide Step;
    if i > 0 {
      RunWord(p, i - 1);
      WordStep(p, i - 1);
      RunMore(p, HTTP_SLASH[..i - 1], InWord(p, i - 1), [], HTTP_SLASH[i - 1], InWord(p, i), []);
      assert HTTP_SLASH[..i] == HTTP_SLASH[..i - 1] + [HTTP_SLASH[i - 1]];
    } else {
      assert InWord(p, 0) == p;
    }
  }

  predicate AllDigits(w: seq<Byte>) { w != [] && forall k :: 0 <= k < |w| ==> IsNum(w[k]) }

  /** The two numbers of a version. */
  predicate GoodMajor(w: seq<Byte>) { AllDigits(w) && w[0] != '0' && NumberIn(w) <= 999 }

  predicate GoodMinor(w: seq<Byte>) { AllDigits(w) && NumberIn(w) <= 999 }

  lemma DigitsMore(w: seq<Byte>, ch: Byte)
    requires w != [] && AllDigits(w + [ch])
    ensures AllDigits(w) && IsNum(ch) && NumberIn(w + [ch]) == 10 * NumberIn(w) + (ch as int - '0' as int)
    ensures (w + [ch])[0] == w[0]
  {
    var v := w + [ch];
    assert v[..|v| - 1] == w && v[|w|] == ch && forall k :: 0 <= k < |w| ==> v[k] == w[k];
  }

  lemma MajorStep(p: Parser, ch: Byte)
    requires IsNum(ch) && p.nread < MAX_HEADER_SIZE
    ensures p.state.ReqFirstHttpMajor? && ch != '0' ==>
              Step(p, ch) == Running(p.(state := ReqHttpMajor, major := ch as int - '0' as int, nread := p.nread + 1),
                [])
    ensures p.state.ReqHttpMajor? && 10 * p.major + (ch as int - '0' as int) <= 999 ==>
              Step(p, ch) == Running(p.(major := 10 * p.major + (ch as int - '0' as int), nread := p.nread + 1), [])
  {
    var c, d := p.(nread := p.nread + 1), ch as int - '0' as int;
    if p.state.ReqFirstHttpMajor? && ch != '0' {
      HeadByte(p, ch, c.(state := ReqHttpMajor, major := d), []);
    } else if p.state.ReqHttpMajor? && 10 * p.major + d <= 999 {
      HeadByte(p, ch, c.(major := 10 * p.major + d), []);
    }
  }

  lemma MinorStep(p: Parser, ch: Byte)
    requires IsNum(ch) && p.nread < MAX_HEADER_SIZE
    ensures p.state.ReqFirstHttpMinor? ==>
              Step(p, ch) == Running(p.(state := ReqHttpMinor, minor := ch as int - '0' as int, nread := p.nread + 1),
                [])
    ensures p.state.ReqHttpMinor? && 10 * p.minor + (ch as int - '0' as int) <= 999 ==>
              Step(p, ch) == Running(p.(minor := 10 * p.minor + (ch as int - '0' as int), nread := p.nread + 1), [])
  {
    var c, d := p.(nread := p.nread + 1), ch as int - '0' as int;
    if p.state.ReqFirstHttpMinor? {
      HeadByte(p, ch, c.(state := ReqHttpMinor, minor := d), []);
    } else if p.state.ReqHttpMinor? && 10 * p.minor + d <= 999 {
      HeadByte(p, ch, c.(minor := 10 * p.minor + d), []);
    }
  }

  lemma {:induction false} RunMajor(p: Parser, w: seq<Byte>)
    requires p.state.ReqFirstHttpMajor? && GoodMajor(w) && p.nread + |w| <= MAX_HEADER_SIZE
    ensures Run(p, w) == Running(p.(state := ReqHttpMajor, major := NumberIn(w), nread := p.nread + |w|), [])
    decreases |w|
  {
    hide Step;
    var w0, ch := w[..|w| - 1], w[|w| - 1];
    assert w == w0 + [ch];
    if w0 == [] {
      assert w == [ch];
      NumberOfOne(ch);
      MajorStep(p, ch);
      RunOne(p, ch);
    } else {
      DigitsMore(w0, ch);
      RunMajor(p, w0);
      var q := p.(state := ReqHttpMajor, major := NumberIn(w0), nread := p.nread + |w0|);
      MajorStep(q, ch);
      RunMore(p, w0, q, [], ch, q.(major := NumberIn(w), nread := p.nread + |w|), []);
    }
  }

  lemma {:induction false} RunMinor(p: Parser, w: seq<Byte>)
    requires p.state.ReqFirstHttpMinor? && GoodMinor(w) && p.nread + |w| <= MAX_HEADER_SIZE
    ensures Run(p, w) == Running(p.(state := ReqHttpMinor, minor := NumberIn(w), nread := p.nread + |w|), [])
    decreases |w|
  {
    hide Step;
    var w0, ch := w[..|w| - 1], w[|w| - 1];
    assert w == w0 + [ch];
    if w0 == [] {
      assert w == [ch];
      NumberOfOne(ch);
      MinorStep(p, ch);
      RunOne(p, ch);
    } else {
      DigitsMore(w0, ch);
      RunMinor(p, w0);
      var q := p.(state := ReqHttpMinor, minor := NumberIn(w0), nread := p.nread + |w0|);
      MinorStep(q, ch);
      RunMore(p, w0, q, [], ch, q.(minor := NumberIn(w), nread := p.nread + |w|), []);
    }
  }

  lemma DotStep(p: Parser)
    requires p.state.ReqHttpMajor? && p.nread < MAX_HEADER_SIZE
    ensures Step(p, '.') == Running(p.(state := ReqFirstHttpMinor, nread := p.nread + 1), [])
  {
    HeadByte(p, '.', p.(state := ReqFirstHttpMinor, nread := p.nread + 1), []);
  }

  lemma LineStep(p: Parser, e: Eol)
    requires p.state.ReqHttpMinor? && p.nread + |End(e)| <= MAX_HEADER_SIZE
    ensures Run(p, End(e)) == Running(p.(state := HeaderFieldStart, nread := p.nread + |End(e)|), [])
  {
    hide Step;
    match e {
      case Crlf =>
        var q := p.(state := ReqLineAlmostDone, nread := p.nread + 1);
        CrStep(p);
        LfStep(q);
        RunOne(p, CR);
        RunMore(p, [CR], q, [], LF, p.(state := HeaderFieldStart, nread := p.nread + 2), []);
        assert CRLF == [CR] + [LF];
      case Lf =>
        LfStep(p);
        RunOne(p, LF);
    }
  }

  lemma CrStep(p: Parser)
    requires p.state.ReqHttpMinor? && p.nread < MAX_HEADER_SIZE
    ensures Step(p, CR) == Running(p.(state := ReqLineAlmostDone, nread := p.nread + 1), [])
  {
    HeadByte(p, CR, p.(state := ReqLineAlmostDone, nread := p.nread + 1), []);
  }

  lemma LfStep(p: Parser)
    requires (p.state.ReqLineAlmostDone? || p.state.ReqHttpMinor?) && p.nread < MAX_HEADER_SIZE
    ensures Step(p, LF) == Running(p.(state := HeaderFieldStart, nread := p.nread + 1), [])
  {
    HeadByte(p, LF, p.(state := HeaderFieldStart, nread := p.nread + 1), []);
  }

  function VersionText(major: seq<Byte>, minor: seq<Byte>, e: Eol): seq<Byte> {
    HTTP_SLASH + (major + (['.'] + (minor + End(e))))
  }

  /** The rest of the request line. */
  lemma RunVersion(p: Parser, major: seq<Byte>, minor: seq<Byte>, e: Eol)
    requires p.state.ReqHttpStart? && GoodMajor(major) && GoodMinor(minor)
    requires p.nread + |VersionText(major, minor, e)| <= MAX_HEADER_SIZE
    ensures Run(p, VersionText(major, minor, e)) ==
            Running(p.(state := HeaderFieldStart, major := NumberIn(major), minor := NumberIn(minor),
                       nread := p.nread + |VersionText(major, minor, e)|), [])
  {
    hide Step, Run, NumberIn;
    RunWord(p, 5);
    assert HTTP_SLASH[..5] == HTTP_SLASH;
    var a := InWord(p, 5);
    RunMajor(a, major);
    var b := a.(state := ReqHttpMajor, major := NumberIn(major), nread := a.nread + |major|);
    DotStep(b);
    RunOne(b, '.');
    var c := b.(state := ReqFirstHttpMinor, nread := b.nread + 1);
    RunMinor(c, minor);
    var d := c.(state := ReqHttpMinor, minor := NumberIn(minor), nread := c.nread + |minor|);
    LineStep(d, e);
    var q := d.(state := HeaderFieldStart, nread := d.nread + |End(e)|);
    RunBehind(c, minor, d, [], End(e), q, []);
    RunBehind(b, ['.'], c, [], minor + End(e), q, [] + []);
    RunBehind(a, major, b, [], ['.'] + (minor + End(e)), q, [] + ([] + []));
    RunBehind(p, HTTP_SLASH, a, [], major + (['.'] + (minor + End(e))), q, [] + ([] + ([] + [])));
    NothingTold();
  }

  // ---------------------------------------------------------------- the empty line

  /** A pass that goes on with the same byte. */
  lemma PassWith(c: Parser, ch: Byte, s: Parser, notes: seq<Event>)
    requires var pass := Switch(c, ch); pass.Go? && pass.p == s && pass.again && pass.notes == notes
    requires Carried(c.state, ch) == []
    ensures Passes(c, ch) == Prepend(notes, Passes(s, ch))
  {
    hide Switch;
    var o := Passes(s, ch);
    assert Passes(c, ch) == Prepend([] + notes, o);
    assert [] + notes == notes;
  }

  predicate Upgrades(p: Parser) { p.flags.upgrade || p.verb == CONNECT }

  predicate Bodyless(p: Parser) { !p.flags.chunked && (p.contentLength == 0 || p.contentLength == ULLONG_MAX) }

  /** The parser behind the head of a message that is not an upgrade. */
  function Begun(p: Parser): Parser {
    var q := p.(nread := 0, upgrade := false);
    if p.flags.chunked then q.(state := ChunkSizeStart)
    else if Bodyless(p) then q.(state := NewMessage(p))
    else q.(state := BodyIdentity)
  }

  function BodylessEnd(p: Parser): seq<Event> { if Bodyless(p) then [MessageComplete] else [] }

  lemma DonePass(c: Parser)
    requires c.state.HeadersDone?
    ensures Passes(c, LF) ==
            if c.upgrade then Upgraded([MessageComplete])
            else
              var q := c.(nread := 0);
              Running(q.(state := if c.flags.chunked then ChunkSizeStart else if Bodyless(c) then NewMessage(c)
                                  else BodyIdentity), BodylessEnd(c))
  {
    hide NewMessage, Switch;
    DoneSwitch(c);
    SameMessage(c, c.(nread := 0));
    NothingTold();
    assert [] + [MessageComplete] + [] == [MessageComplete];
  }

  lemma DoneSwitch(c: Parser)
    requires c.state.HeadersDone?
    ensures Switch(c, LF) == SwitchHeadersDone(c, LF) && Carried(c.state, LF) == []
  {
  }

  lemma EmptyLineEnds(p: Parser)
    requires p.state.HeadersAlmostDone? && !p.flags.trailing && p.nread < MAX_HEADER_SIZE
    ensures Step(p, LF) == if Upgrades(p) then Upgraded([HeadersComplete] + [MessageComplete])
                           else Running(Begun(p), [HeadersComplete] + BodylessEnd(p))
  {
    hide Passes, NewMessage;
    var c := p.(nread := p.nread + 1);
    var d := c.(state := HeadersDone, upgrade := Upgrades(p));
    assert Switch(c, LF) == Go(d, None, None, [HeadersComplete], true);
    PassWith(c, LF, d, [HeadersComplete]);
    DonePass(d);
    SameMessage(p, d);
  }

  lemma SameMessage(p: Parser, d: Parser)
    requires d.flags == p.flags && d.major == p.major && d.minor == p.minor
    ensures NewMessage(d) == NewMessage(p)
  {
  }

  lemma EmptyLineStarts(p: Parser)
    requires p.state.HeaderFieldStart? && p.nread < MAX_HEADER_SIZE
    ensures Step(p, CR) == Running(p.(state := HeadersAlmostDone, nread := p.nread + 1), [])
  {
    HeadByte(p, CR, p.(state := HeadersAlmostDone, nread := p.nread + 1), []);
  }

  lemma BareLineEnds(p: Parser)
    requires p.state.HeaderFieldStart? && p.nread < MAX_HEADER_SIZE
    ensures Step(p, LF) == Step(p.(state := HeadersAlmostDone), LF)
  {
    hide Switch, Passes;
    var c := p.(nread := p.nread + 1);
    BareStart(c);
    PassOn(c, LF, c.(state := HeadersAlmostDone));
  }

  lemma BareStart(c: Parser)
    requires c.state.HeaderFieldStart?
    ensures Switch(c, LF) == Go(c.(state := HeadersAlmostDone), None, None, [], true) && Carried(c.state, LF) == []
  {
  }

  /** What the end of a head tells, and where it leads. */
  function HeadOver(p: Parser): Outcome {
    if Upgrades(p) then Upgraded([HeadersComplete] + [MessageComplete])
    else Running(Begun(p), [HeadersComplete] + BodylessEnd(p))
  }

  /** The empty line ends the head, and with it a message without a body. */
  lemma RunEmptyLine(p: Parser, e: Eol)
    requires p.state.HeaderFieldStart? && !p.flags.trailing && p.nread + |End(e)| <= MAX_HEADER_SIZE
    ensures Run(p, End(e)) == HeadOver(p)
  {
    hide Step, NewMessage;
    match e {
      case Crlf =>
        EmptyLineStarts(p);
        var q := p.(state := HeadersAlmostDone, nread := p.nread + 1);
        EmptyLineEnds(q);
        SameMessage(p, q);
        RunOne(p, CR);
        RunSnoc(p, [CR], LF);
        assert CRLF == [CR] + [LF];
        assert [] + Step(q, LF).events == Step(q, LF).events;
      case Lf =>
        BareLineEnds(p);
        EmptyLineEnds(p.(state := HeadersAlmostDone));
        SameMessage(p, p.(state := HeadersAlmostDone));
        RunOne(p, LF);
    }
  }

  // ---------------------------------------------------------------- a whole request

  /** A request as it is sent: its request line, its header lines, and a body in one or more parts. */
  datatype Request = Request(verb: Method, target: seq<Byte>, major: seq<Byte>, minor: seq<Byte>, lineEnd: Eol,
                             fields: seq<Field>, headEnd: Eol, parts: seq<seq<Byte>>)

  function MethodText(m: Method): (w: seq<Byte>)
    ensures w == MethodName(m)
  {
    NameIsBytes(m);
    MethodName(m)
  }

  lemma NameIsBytes(m: Method)
    ensures forall i :: 0 <= i < |MethodName(m)| ==> MethodName(m)[i] as int < 256
  {
    hide MethodName;
    forall i | 0 <= i < |MethodName(m)|
      ensures MethodName(m)[i] as int < 256
    {
      NameLetters(m, i);
    }
  }

  function RequestLine(r: Request): seq<Byte> {
    (MethodText(r.verb) + [' ']) + ((r.target + [' ']) + VersionText(r.major, r.minor, r.lineEnd))
  }

  function Head(r: Request): seq<Byte> { RequestLine(r) + (Lines(r.fields) + End(r.headEnd)) }

  function Body(r: Request): seq<Byte> { Concat(r.parts) }

  ghost predicate IsChunked(r: Request) { exists f :: f in r.fields && AsksChunked(f) }

  ghost predicate IsUpgrade(r: Request) { r.verb == CONNECT || exists f :: f in r.fields && AsksUpgrade(f) }

  /** Whether the connection is meant to go on: by default from HTTP/1.1 on, and before that on demand. */
  ghost predicate KeepsAlive(r: Request) {
    if NumberIn(r.minor) > 0 then !exists f :: f in r.fields && AsksClose(f)
    else exists f :: f in r.fields && AsksKeepAlive(f)
  }

  /** The last content length that is given; none is as good as 0. */
  function BodyLength(r: Request): nat { LengthFrom(r.fields, 0) }

  ghost predicate GoodHead(r: Request) {
    && Target(r.verb == CONNECT, r.target) && GoodMajor(r.major) && GoodMinor(r.minor)
    && forall k :: 0 <= k < |r.fields| ==> GoodField(r.fields[k])
  }

  /** The body is as long as the head says. */
  ghost predicate GoodBody(r: Request) {
    if IsChunked(r) then forall k :: 0 <= k < |r.parts| ==> 0 < |r.parts[k]| <= ULLONG_MAX - 16
    else |Body(r)| == BodyLength(r)
  }

  /** The bytes of a request: a chunked body is sent in its chunks. */
  ghost function Wire(r: Request): seq<Byte> { Head(r) + if IsChunked(r) then Encode(r.parts) else Body(r) }

  function ToldHead(r: Request): seq<Event> {
    ([MessageBegin] + Tagged(URL, r.target)) + (ToldAll(r.fields) + [HeadersComplete])
  }

  function ToldBody(r: Request): seq<Event> { Tagged(BODY, Body(r)) + [MessageComplete] }

  lemma {:induction false} LengthOrNone(fs: seq<Field>)
    requires forall k :: 0 <= k < |fs| ==> GoodField(fs[k])
    ensures LengthFrom(fs, 0) == (if LengthFrom(fs, ULLONG_MAX) == ULLONG_MAX then 0 else LengthFrom(fs, ULLONG_MAX))
    ensures LengthFrom(fs, 0) < ULLONG_MAX
    decreases |fs|
  {
    if fs != [] {
      LengthOrNone(fs[..|fs| - 1]);
      assert GoodField(fs[|fs| - 1]);
    }
  }

  lemma TargetIsSome(connect: bool, u: seq<Byte>)
    requires Target(connect, u)
    ensures u != []
  {
    UrlFits(connect, u);
  }

  /** A target holds no space and no line end. */
  lemma {:induction false} TargetIsVisible(connect: bool, u: seq<Byte>)
    requires !UrlState(connect, u).Dead?
    ensures ' ' !in u && CR !in u && LF !in u
    decreases |u|
  {
    hide ParseUrlChar;
    if u != [] {
      var u0, c := u[..|u| - 1], u[|u| - 1];
      DeadStays(UrlState(connect, u0), c);
      ParsedIsVisible(UrlState(connect, u0), c);
      TargetIsVisible(connect, u0);
      assert u == u0 + [c];
    }
  }

  /** The parser behind the request line. */
  function AfterLine(p: Parser, r: Request): Parser {
    p.(state := HeaderFieldStart, flags := NO_FLAGS, contentLength := ULLONG_MAX, verb := r.verb,
       index := |MethodName(r.verb)| + 1, major := NumberIn(r.major), minor := NumberIn(r.minor),
       nread := p.nread + |RequestLine(r)|)
  }

  lemma LineLengths(r: Request)
    ensures |RequestLine(r)| == |MethodName(r.verb)| + 1 + |r.target| + 1 + |VersionText(r.major, r.minor, r.lineEnd)|
    ensures |Head(r)| == |RequestLine(r)| + |Lines(r.fields)| + |End(r.headEnd)|
    ensures |VersionText(r.major, r.minor, r.lineEnd)| >= 7
  {
  }

  lemma RunRequestLine(p: Parser, r: Request)
    requires p.state.StartReq? && GoodHead(r) && p.nread + |RequestLine(r)| <= MAX_HEADER_SIZE
    ensures Run(p, RequestLine(r)) == Running(AfterLine(p, r), [MessageBegin] + Tagged(URL, r.target))
  {
    hide Run, NumberIn, Target, UrlState, MethodName, VersionText, GoodMajor, GoodMinor, GoodField;
    var connect := r.verb == CONNECT;
    LineLengths(r);
    var a := AfterMethod(p, r.verb);
    RunMethod(p, r.verb, MethodText(r.verb));
    TargetIsSome(connect, r.target);
    TargetLives(connect, r.target);
    TargetIsVisible(connect, r.target);
    TargetIff(a, r.target);
    var b := a.(state := ReqHttpStart, nread := a.nread + |r.target| + 1);
    RunVersion(b, r.major, r.minor, r.lineEnd);
    RunBehind(a, r.target + [' '], b, Tagged(URL, r.target), VersionText(r.major, r.minor, r.lineEnd), AfterLine(p, r),
      []);
    assert Tagged(URL, r.target) + [] == Tagged(URL, r.target);
    RunBehind(p, MethodText(r.verb) + [' '], a, [MessageBegin],
      (r.target + [' ']) + VersionText(r.major, r.minor, r.lineEnd), AfterLine(p, r), Tagged(URL, r.target));
  }

  /** What the parser knows of a request when it stands behind its header lines. */
  ghost predicate Knows(q: Parser, r: Request) {
    && q.verb == r.verb && q.major == NumberIn(r.major) && q.minor == NumberIn(r.minor)
    && (q.flags.chunked <==> IsChunked(r)) && (Upgrades(q) <==> IsUpgrade(r))
    && (ShouldKeepAlive(q) <==> KeepsAlive(r)) && !q.flags.trailing
    && q.contentLength == LengthFrom(r.fields, ULLONG_MAX)
  }

  lemma KnowsHead(q: Parser, s: Parser, r: Request)
    requires GoodMajor(r.major) && q.verb == r.verb && q.major == NumberIn(r.major) && q.minor == NumberIn(r.minor)
    requires q.flags == NO_FLAGS && q.contentLength == ULLONG_MAX
    requires SteeredBy(q, r.fields, s) && s.verb == q.verb && s.major == q.major && s.minor == q.minor
    ensures Knows(s, r)
  {
    hide AsksChunked, AsksKeepAlive, AsksClose, AsksUpgrade, GivesLength, LengthFrom;
    MajorIsPositive(r.major);
  }

  lemma {:induction false} MajorIsPositive(w: seq<Byte>)
    requires AllDigits(w) && w[0] != '0'
    ensures NumberIn(w) > 0
    decreases |w|
  {
    var w0, ch := w[..|w| - 1], w[|w| - 1];
    assert w == w0 + [ch];
    if w0 == [] {
      assert w == [ch];
      NumberOfOne(ch);
    } else {
      DigitsMore(w0, ch);
      MajorIsPositive(w0);
    }
  }

  /** The head of a request: up to the empty line everything is told, and what follows is known. */
  lemma RunHead(p: Parser, r: Request, rest: seq<Byte>) returns (q: Parser)
    requires p.state.StartReq? && GoodHead(r) && p.nread + |Head(r)| <= MAX_HEADER_SIZE && Inv(p, false)
    ensures q.state.HeaderFieldStart? && q.nread + |End(r.headEnd)| <= MAX_HEADER_SIZE && Knows(q, r) && Inv(q, false)
    ensures Run(p, Head(r) + rest)
         == Prepend([MessageBegin] + Tagged(URL, r.target), Prepend(ToldAll(r.fields), Run(q, End(r.headEnd) + rest)))
  {
    hide Run, GoodField, SteeredBy, Knows, Target, MethodName, VersionText, Inv;
    LineLengths(r);
    RunRequestLine(p, r);
    RunKeepsInv(p, RequestLine(r));
    var a := AfterLine(p, r);
    q := RunLines(a, r.fields, End(r.headEnd) + rest);
    KnowsHead(a, q, r);
    RunConcat(p, RequestLine(r), Lines(r.fields) + (End(r.headEnd) + rest));
    assert Head(r) + rest == RequestLine(r) + (Lines(r.fields) + (End(r.headEnd) + rest));
  }

  /** Joining what was told. */
  lemma Join4(a: seq<Event>, b: seq<Event>, c: seq<Event>, d: seq<Event>)
    ensures a + (b + (c + d)) == (a + (b + c)) + d
  {
    assert a + (b + (c + d)) == a + ((b + c) + d);
  }

  lemma HeadOutcome(p: Parser, r: Request, rest: seq<Byte>, o: Outcome, more: seq<Event>)
    requires o.events == [HeadersComplete] + more
    ensures Prepend([MessageBegin] + Tagged(URL, r.target), Prepend(ToldAll(r.fields), o)).events == ToldHead(r) + more
  {
    Join4([MessageBegin] + Tagged(URL, r.target), ToldAll(r.fields), [HeadersComplete], more);
  }

  /** An upgrade ends with the head: whatever follows is not read. */
  lemma UpgradeEnds(p: Parser, r: Request, rest: seq<Byte>)
    requires p.state.StartReq? && GoodHead(r) && IsUpgrade(r) && p.nread + |Head(r)| <= MAX_HEADER_SIZE && Inv(p, false)
    ensures Run(p, Head(r) + rest) == Upgraded(ToldHead(r) + [MessageComplete])
  {
    hide Run, GoodHead, Knows, IsUpgrade, Head;
    var q := RunHead(p, r, rest);
    assert Upgrades(q) && !q.flags.trailing by { KnowsMeans(q, r); }
    RunEmptyLine(q, r.headEnd);
    RunConcat(q, End(r.headEnd), rest);
    HeadOutcome(p, r, rest, Run(q, End(r.headEnd) + rest), [MessageComplete]);
  }

  lemma KnowsMeans(q: Parser, r: Request)
    requires Knows(q, r)
    ensures !q.flags.trailing && (q.flags.chunked <==> IsChunked(r)) && (Upgrades(q) <==> IsUpgrade(r))
    ensures NewMessage(q) == if KeepsAlive(r) then StartReq else Dead
    ensures q.contentLength == LengthFrom(r.fields, ULLONG_MAX)
    ensures q.verb == r.verb && q.major == NumberIn(r.major) && q.minor == NumberIn(r.minor)
  {
  }

  /** The parser behind a request: ready for another one, or closed. */
  ghost predicate Finished(q: Parser, r: Request) {
    && q.state == (if KeepsAlive(r) then StartReq else Dead) && q.nread <= 2
    && q.verb == r.verb && q.major == NumberIn(r.major) && q.minor == NumberIn(r.minor)
  }

  /** What the body adds behind the empty line. */
  lemma BodyIsRead(s: Parser, r: Request) returns (e: Parser)
    requires s.state.HeaderFieldStart? && Knows(s, r) && s.nread + |End(r.headEnd)| <= MAX_HEADER_SIZE && Inv(s, false)
    requires !IsUpgrade(r) && GoodBody(r) && forall k :: 0 <= k < |r.fields| ==> GoodField(r.fields[k])
    ensures Finished(e, r)
    ensures Run(s, End(r.headEnd) + if IsChunked(r) then Encode(r.parts) else Body(r))
         == Running(e, [HeadersComplete] + ToldBody(r))
  {
    hide Run, Knows, GoodField, IsUpgrade, IsChunked, KeepsAlive, NumberIn, Inv;
    KnowsMeans(s, r);
    RunEmptyLine(s, r.headEnd);
    LengthOrNone(r.fields);
    if IsChunked(r) {
      e := ChunksAreRead(s, r);
    } else if Body(r) == [] {
      e := Begun(s);
      assert End(r.headEnd) + Body(r) == End(r.headEnd);
      assert ToldBody(r) == [MessageComplete];
    } else {
      e := PlainIsRead(s, r);
    }
  }

  lemma ChunksAreRead(s: Parser, r: Request) returns (e: Parser)
    requires s.flags.chunked && !Upgrades(s) && Inv(s, false) && IsChunked(r) && GoodBody(r)
    requires Run(s, End(r.headEnd)) == Running(Begun(s), [HeadersComplete])
    requires NewMessage(s) == if KeepsAlive(r) then StartReq else Dead
    requires s.verb == r.verb && s.major == NumberIn(r.major) && s.minor == NumberIn(r.minor)
    ensures Finished(e, r)
    ensures Run(s, End(r.headEnd) + Encode(r.parts)) == Running(e, [HeadersComplete] + ToldBody(r))
  {
    hide Run, IsChunked, KeepsAlive, NumberIn, Encode;
    var b := Begun(s);
    ChunkedBodyDelivered(b, r.parts);
    e := AfterLast(b);
    RunBehind(s, End(r.headEnd), b, [HeadersComplete], Encode(r.parts), e, ToldBody(r));
  }

  lemma PlainIsRead(s: Parser, r: Request) returns (e: Parser)
    requires !s.flags.chunked && !Upgrades(s) && Inv(s, false) && Body(r) != []
    requires s.contentLength == |Body(r)| < ULLONG_MAX
    requires Run(s, End(r.headEnd)) == Running(Begun(s), [HeadersComplete])
    requires NewMessage(s) == if KeepsAlive(r) then StartReq else Dead
    requires s.verb == r.verb && s.major == NumberIn(r.major) && s.minor == NumberIn(r.minor)
    ensures Finished(e, r)
    ensures Run(s, End(r.headEnd) + Body(r)) == Running(e, [HeadersComplete] + ToldBody(r))
  {
    hide Run, KeepsAlive, NumberIn;
    var b := Begun(s);
    RunWholeBody(b, Body(r));
    e := AfterBulk(b, |Body(r)|).0;
    RunBehind(s, End(r.headEnd), b, [HeadersComplete], Body(r), e, ToldBody(r));
  }

  /** A whole request: its method, target, header lines and body are told exactly, in their order, and the parser
      then takes another request exactly if the connection is meant to go on. */
  lemma RequestDelivered(p: Parser, r: Request) returns (q: Parser)
    requires p.state.StartReq? && Inv(p, false) && p.nread + |Head(r)| <= MAX_HEADER_SIZE
    requires GoodHead(r) && GoodBody(r) && !IsUpgrade(r)
    ensures Run(p, Wire(r)) == Running(q, ToldHead(r) + ToldBody(r)) && Finished(q, r) && Inv(q, false)
  {
    hide Run, Knows, GoodBody, IsUpgrade, IsChunked, Head, Inv, Finished, Encode, ToldBody;
    var rest := if IsChunked(r) then Encode(r.parts) else Body(r);
    var s := RunHead(p, r, rest);
    q := BodyIsRead(s, r);
    HeadOutcome(p, r, rest, Run(s, End(r.headEnd) + rest), ToldBody(r));
    RunKeepsInv(p, Wire(r));
  }

  // ---------------------------------------------------------------- chunk extensions and trailers

  /** What may follow the size of a chunk: nothing, or a text that starts with a semicolon or a space. */
  predicate IsExtension(ext: seq<Byte>) { CR !in ext && (ext != [] ==> ext[0] == ';' || ext[0] == ' ') }

  lemma ExtensionByte(p: Parser, ch: Byte)
    requires p.flags.chunked && p.nread < MAX_HEADER_SIZE && ch != CR
    ensures p.state.ChunkParameters? ==> Step(p, ch) == Running(p.(nread := p.nread + 1), [])
    ensures p.state.ChunkSize? && (ch == ';' || ch == ' ') ==>
              Step(p, ch) == Running(p.(state := ChunkParameters, nread := p.nread + 1), [])
  {
    var c := p.(nread := p.nread + 1);
    if p.state.ChunkParameters? {
      HeadByte(p, ch, c, []);
    } else if p.state.ChunkSize? && (ch == ';' || ch == ' ') {
      HeadByte(p, ch, c.(state := ChunkParameters), []);
    }
  }

  lemma ExtensionPrefix(e: seq<Byte>, ch: Byte)
    requires IsExtension(e + [ch])
    ensures IsExtension(e) && ch != CR && (e == [] ==> ch == ';' || ch == ' ')
  {
    assert ch in e + [ch] && (e + [ch])[0] == if e == [] then ch else e[0];
    assert forall c :: c in e ==> c in e + [ch];
  }

  lemma {:induction false} RunExtension(p: Parser, ext: seq<Byte>)
    requires p.state.ChunkSize? && p.flags.chunked && IsExtension(ext) && ext != []
    requires p.nread + |ext| <= MAX_HEADER_SIZE
    ensures Run(p, ext) == Running(p.(state := ChunkParameters, nread := p.nread + |ext|), [])
    decreases |ext|
  {
    hide Step, Run, IsExtension, AtChunk;
    var e0, ch := ext[..|ext| - 1], ext[|ext| - 1];
    assert ext == e0 + [ch];
    ExtensionPrefix(e0, ch);
    if e0 == [] {
      assert ext == [ch];
      ExtensionByte(p, ch);
      RunOne(p, ch);
    } else {
      RunExtension(p, e0);
      var q := p.(state := ChunkParameters, nread := p.nread + |e0|);
      ExtensionByte(q, ch);
      RunMore(p, e0, q, [], ch, q.(nread := q.nread + 1), []);
    }
  }

  lemma ExtensionEnds(p: Parser)
    requires p.state.ChunkParameters? && p.flags.chunked && p.nread < MAX_HEADER_SIZE
    ensures Step(p, CR) == Running(p.(state := ChunkSizeAlmostDone, nread := p.nread + 1), [])
  {
    HeadByte(p, CR, p.(state := ChunkSizeAlmostDone, nread := p.nread + 1), []);
  }

  /** An extension changes nothing. */
  lemma ExtensionIgnored(p: Parser, n: nat, ext: seq<Byte>)
    requires AtChunk(p) && n <= ULLONG_MAX - 16 && IsExtension(ext) && |Hex(n)| + |ext| + 2 <= MAX_HEADER_SIZE
    ensures Run(p, Hex(n) + ext + CRLF) == Run(p, Hex(n) + CRLF)
  {
    hide Run, Step, Hex;
    RunHex(p, n);
    var k := |Hex(n)|;
    var q := InSize(p, n, k);
    SizeLineEnds(p, n, k);
    var a := q.(state := ChunkSizeAlmostDone, nread := k + 1);
    var done := Step(a, LF).p;
    NothingTold();
    RunTwo(p, Hex(n), q, [], a, done, [], CR, LF);
    if ext != [] {
      RunExtension(q, ext);
      var x := q.(state := ChunkParameters, nread := k + |ext|);
      ExtensionEnds(x);
      SizeLineEnds(p, n, k + |ext|);
      RunBehind(p, Hex(n), q, [], ext, x, []);
      RunTwo(p, Hex(n) + ext, x, [], x.(state := ChunkSizeAlmostDone, nread := k + |ext| + 1), done, [], CR, LF);
      assert (Hex(n) + ext) + [CR, LF] == Hex(n) + ext + CRLF;
    } else {
      assert Hex(n) + ext == Hex(n);
    }
    assert Hex(n) + [CR, LF] == Hex(n) + CRLF;
  }

  function Chunks(parts: seq<seq<Byte>>): seq<Byte> { if parts == [] then [] else Chunk(parts[0]) + Chunks(parts[1..]) }

  lemma {:induction false} RunChunks(p: Parser, parts: seq<seq<Byte>>)
    requires AtChunk(p) && forall k :: 0 <= k < |parts| ==> 0 < |parts[k]| <= ULLONG_MAX - 16
    ensures Run(p, Chunks(parts)) ==
        Running(if parts == [] then p else p.(contentLength := 0), Tagged(BODY, Concat(parts)))
    decreases |parts|
  {
    hide Run, Chunk;
    if parts == [] {
      RunNothing(p);
    } else {
      var q := p.(contentLength := 0);
      RunChunk(p, parts[0]);
      RunChunks(q, parts[1..]);
      RunBehind(p, Chunk(parts[0]), q, Tagged(BODY, parts[0]), Chunks(parts[1..]), q, Tagged(BODY, Concat(parts[1..])));
      TaggedConcat(parts[0], Concat(parts[1..]));
    }
  }

  lemma RunNothing(p: Parser)
    ensures Run(p, []) == Running(p, [])
  {
  }

  /** The empty line behind a trailer ends the message. */
  lemma RunTrailerEnd(p: Parser)
    requires p.state.HeaderFieldStart? && p.flags.trailing && p.nread + 2 <= MAX_HEADER_SIZE
    ensures Run(p, CRLF) == Running(p.(state := NewMessage(p), nread := p.nread + 2), [MessageComplete])
  {
    hide Step, NewMessage;
    EmptyLineStarts(p);
    var q := p.(state := HeadersAlmostDone, nread := p.nread + 1);
    TrailerLast(q);
    SameMessage(p, q);
    RunOne(p, CR);
    RunMore(p, [CR], q, [], LF, Step(q, LF).p, [MessageComplete]);
    assert CRLF == [CR] + [LF] && [] + [MessageComplete] == [MessageComplete];
  }

  lemma TrailerLast(p: Parser)
    requires p.state.HeadersAlmostDone? && p.flags.trailing && p.nread < MAX_HEADER_SIZE
    ensures Step(p, LF) == Running(p.(state := NewMessage(p), nread := p.nread + 1), [MessageComplete])
  {
    hide NewMessage;
    var c := p.(nread := p.nread + 1);
    SameMessage(p, c);
    HeadByte(p, LF, c.(state := NewMessage(p)), [MessageComplete]);
    assert [] + [MessageComplete] == [MessageComplete];
  }

  /** A chunked body with a trailer: the data, the trailer's lines, and one end of message; what the trailer asks for
      counts for the connection as if it stood in the head. */
  lemma TrailersDelivered(p: Parser, parts: seq<seq<Byte>>, fs: seq<Field>) returns (s: Parser, q: Parser)
    requires AtChunk(p) && (forall k :: 0 <= k < |parts| ==> 0 < |parts[k]| <= ULLONG_MAX - 16)
    requires (forall k :: 0 <= k < |fs| ==> GoodField(fs[k])) && |Lines(fs)| + 2 <= MAX_HEADER_SIZE
    ensures SteeredBy(InTrailer(p), fs, s) && q.state == NewMessage(s) && s.major == p.major && s.minor == p.minor
    ensures Run(p, Chunks(parts) + ((Hex(0) + CRLF) + (Lines(fs) + CRLF)))
         == Running(q, Tagged(BODY, Concat(parts)) + (ToldAll(fs) + [MessageComplete]))
  {
    hide Run, Hex, GoodField, NewMessage, SteeredBy;
    RunChunks(p, parts);
    var b := if parts == [] then p else p.(contentLength := 0);
    RunLastSize(b);
    var t := InTrailer(b);
    assert t == InTrailer(p);
    s := RunLines(t, fs, CRLF);
    assert s.flags.trailing by { TrailingStays(t, fs, s); }
    RunTrailerEnd(s);
    q := s.(state := NewMessage(s), nread := s.nread + 2);
    RunBehind(b, Hex(0) + CRLF, t, [], Lines(fs) + CRLF, q, ToldAll(fs) + [MessageComplete]);
    assert [] + (ToldAll(fs) + [MessageComplete]) == ToldAll(fs) + [MessageComplete];
    RunBehind(p, Chunks(parts), b, Tagged(BODY, Concat(parts)), (Hex(0) + CRLF) + (Lines(fs) + CRLF), q,
      ToldAll(fs) + [MessageComplete]);
  }

  lemma TrailingStays(p: Parser, fs: seq<Field>, s: Parser)
    requires SteeredBy(p, fs, s)
    ensures s.flags.trailing == p.flags.trailing
  {
  }

  // ---------------------------------------------------------------- between requests

  predicate BlankLines(d: seq<Byte>) { forall k :: 0 <= k < |d| ==> d[k] == CR || d[k] == LF }

  lemma BlankByte(p: Parser, ch: Byte)
    requires (p.state.StartReq? || p.state.Dead?) && p.nread < MAX_HEADER_SIZE
    ensures ch == CR || ch == LF ==> Step(p, ch) == Running(p.(nread := p.nread + 1), [])
    ensures ch != CR && ch != LF && p.state.Dead? ==> Step(p, ch) == Halted(CLOSED_CONNECTION, [], None)
  {
    var c := p.(nread := p.nread + 1);
    if ch == CR || ch == LF {
      HeadByte(p, ch, c, []);
    }
  }

  /** Empty lines between requests are skipped. */
  lemma {:induction false} BlankSkipped(p: Parser, d: seq<Byte>)
    requires (p.state.StartReq? || p.state.Dead?) && BlankLines(d) && p.nread + |d| <= MAX_HEADER_SIZE
    ensures Run(p, d) == Running(p.(nread := p.nread + |d|), [])
    decreases |d|
  {
    hide Step;
    if d == [] {
      assert p.(nread := p.nread) == p;
    } else {
      var d0, ch := d[..|d| - 1], d[|d| - 1];
      assert d == d0 + [ch];
      BlankSkipped(p, d0);
      var q := p.(nread := p.nread + |d0|);
      BlankByte(q, ch);
      RunMore(p, d0, q, [], ch, q.(nread := q.nread + 1), []);
    }
  }

  /** A closed connection takes nothing else. */
  lemma ClosedRefuses(p: Parser, d: seq<Byte>, ch: Byte)
    requires p.state.Dead? && BlankLines(d) && p.nread + |d| < MAX_HEADER_SIZE && ch != CR && ch != LF
    ensures Run(p, d + [ch]) == Halted(CLOSED_CONNECTION, [], None)
  {
    hide Step;
    BlankSkipped(p, d);
    BlankByte(p.(nread := p.nread + |d|), ch);
    RunSnoc(p, d, ch);
  }

  // ---------------------------------------------------------------- one request behind another

  ghost predicate Good(r: Request) { GoodHead(r) && GoodBody(r) && !IsUpgrade(r) && |Head(r)| + 2 <= MAX_HEADER_SIZE }

  ghost function WireAll(rs: seq<Request>): seq<Byte> { if rs == [] then [] else Wire(rs[0]) + WireAll(rs[1..]) }

  function Told(r: Request): seq<Event> { ToldHead(r) + ToldBody(r) }

  function ToldRequests(rs: seq<Request>): seq<Event> { if rs == [] then [] else Told(rs[0]) + ToldRequests(rs[1..]) }

  /** Between two requests. */
  ghost predicate Ready(p: Parser) { p.state.StartReq? && p.nread <= 2 && Inv(p, false) }

  /** Requests on one connection, each but the last of which means it to go on: all are told, one after the other. */
  lemma {:induction false} PipelineDelivered(p: Parser, rs: seq<Request>) returns (q: Parser)
    requires Ready(p) && rs != [] && (forall k :: 0 <= k < |rs| ==> Good(rs[k]))
    requires forall k :: 0 <= k < |rs| - 1 ==> KeepsAlive(rs[k])
    ensures Run(p, WireAll(rs)) == Running(q, ToldRequests(rs)) && Finished(q, rs[|rs| - 1])
    decreases |rs|
  {
    hide Run, GoodHead, GoodBody, IsUpgrade, Wire, Told, Inv, KeepsAlive, Head;
    q := OneDelivered(p, rs[0]);
    if |rs| == 1 {
      assert rs[1..] == [] && WireAll([]) == [] && ToldRequests([]) == [];
      assert Wire(rs[0]) + [] == Wire(rs[0]) && Told(rs[0]) + [] == Told(rs[0]);
    } else {
      var e := PipelineDelivered(q, rs[1..]);
      RunBehind(p, Wire(rs[0]), q, Told(rs[0]), WireAll(rs[1..]), e, ToldRequests(rs[1..]));
      q := e;
    }
  }

  lemma OneDelivered(p: Parser, r: Request) returns (q: Parser)
    requires Ready(p) && Good(r)
    ensures Run(p, Wire(r)) == Running(q, Told(r)) && Finished(q, r) && (KeepsAlive(r) ==> Ready(q))
  {
    hide Run, GoodHead, GoodBody, IsUpgrade, Wire, Inv, KeepsAlive, Head;
    q := RequestDelivered(p, r);
  }

  /** The same through http_parser_execute, with the bytes cut up in any way. */
  method FeedRequests(parser: RequestParser, ghost rs: seq<Request>, pieces: seq<seq<Byte>>) returns (ok: bool)
    requires Ready(parser.st) && parser.errno == None && rs != [] && (forall k :: 0 <= k < |rs| ==> Good(rs[k]))
    requires forall k :: 0 <= k < |rs| - 1 ==> KeepsAlive(rs[k])
    requires (forall k :: 0 <= k < |pieces| ==> pieces[k] != []) && Concat(pieces) == WireAll(rs)
    modifies parser
    ensures ok && Finished(parser.st, rs[|rs| - 1])
    ensures Expand(parser.calls) == Expand(old(parser.calls)) + ToldRequests(rs)
  {
    hide Run, Good, KeepsAlive, Finished, WireAll, ToldRequests, Expand;
    ghost var q := PipelineDelivered(parser.st, rs);
    ok := parser.Feed(pieces);
  }
}
