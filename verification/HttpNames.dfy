/**
 What the letter-by-letter matching in the request parser recognises: the method is the text of the request
 line, and the five header names that steer the parser are recognised exactly, in any letter case.
 */
module HttpNames {
  import opened Bytes
  import opened Common
  import opened HttpSwitch
  import opened HttpMachine

  // ---------------------------------------------------------------- methods

  lemma FirstLetter(ch: Byte)
    ensures FirstMethod(ch).Some? ==> MethodName(FirstMethod(ch).value)[0] == ch
  {
  }

  lemma OtherMethodHasLetter(m: Method, index: nat, ch: Byte)
    requires OtherMethod(m, index, ch).Some? && index <= |MethodName(m)|
    ensures var n := MethodName(OtherMethod(m, index, ch).value); index < |n| && n[index] == ch
  {
    match m
    case CONNECT | SUBSCRIBE =>
    case MKCOL =>
    case POST | PUT | UNLOCK =>
    case _ =>
  }

  lemma OtherMethodSharesStart(m: Method, index: nat, ch: Byte)
    requires OtherMethod(m, index, ch).Some? && index <= |MethodName(m)|
    ensures var n := MethodName(OtherMethod(m, index, ch).value);
            forall j :: 0 <= j < index && j < |n| ==> n[j] == MethodName(m)[j]
  {
    match m
    case CONNECT | SUBSCRIBE =>
    case MKCOL =>
    case POST | PUT | UNLOCK =>
    case _ =>
  }

  /** One pass for the letter the method at hand expects. */
  lemma ExpectedLetter(p: Parser, w: seq<Byte>, ch: Byte)
    requires p.index == |w| && w <= MethodName(p.verb) && |w| < |MethodName(p.verb)| && ch == MethodName(p.verb)[|w|]
    requires SwitchReqMethod(p, ch).Go? && p.state.ReqMethod?
    ensures var q := SwitchReqMethod(p, ch).p;
            ch != ' ' && q.state.ReqMethod? && q.index == |w| + 1 && w + [ch] <= MethodName(q.verb)
  {
    NoSpaces(p.verb);
    assert w + [ch] == MethodName(p.verb)[..|w| + 1];
  }

  /** One pass for a letter that turns it into another method. */
  lemma OtherLetterGoes(p: Parser, ch: Byte)
    requires p.state.ReqMethod? && SwitchReqMethod(p, ch).Go? && p.index <= |MethodName(p.verb)|
    requires p.index < |MethodName(p.verb)| ==> ch != MethodName(p.verb)[p.index]
    requires ch != ' ' || p.index < |MethodName(p.verb)|
    ensures var q, other := SwitchReqMethod(p, ch).p, OtherMethod(p.verb, p.index, ch);
            other.Some? && q.state.ReqMethod? && q.index == p.index + 1 && q.verb == other.value
  {
  }

  lemma OtherLetter(p: Parser, w: seq<Byte>, ch: Byte)
    requires p.index == |w| && w <= MethodName(p.verb) && SwitchReqMethod(p, ch).Go? && p.state.ReqMethod?
    requires |w| < |MethodName(p.verb)| ==> ch != MethodName(p.verb)[|w|]
    requires ch != ' ' || |w| < |MethodName(p.verb)|
    ensures var q := SwitchReqMethod(p, ch).p;
            ch != ' ' && q.state.ReqMethod? && q.index == |w| + 1 && w + [ch] <= MethodName(q.verb)
  {
    hide SwitchReqMethod, OtherMethod, MethodName;
    OtherLetterGoes(p, ch);
    var other := OtherMethod(p.verb, |w|, ch).value;
    OtherMethodHasLetter(p.verb, |w|, ch);
    OtherMethodSharesStart(p.verb, |w|, ch);
    NoSpaces(other);
    assert w + [ch] == MethodName(other)[..|w| + 1];
  }

  /** One pass for a letter of the method, or the space behind it. */
  lemma MethodPass(p: Parser, w: seq<Byte>, ch: Byte)
    requires p.index == |w| && w <= MethodName(p.verb) && SwitchReqMethod(p, ch).Go? && p.state.ReqMethod?
    ensures var q := SwitchReqMethod(p, ch).p;
            if ch == ' ' then q.state.ReqSpacesBeforeUrl? && q.verb == p.verb && w == MethodName(p.verb)
            else q.state.ReqMethod? && q.index == |w| + 1 && w + [ch] <= MethodName(q.verb)
  {
    var name := MethodName(p.verb);
    if |w| < |name| && ch == name[|w|] {
      ExpectedLetter(p, w, ch);
    } else if ch != ' ' || |w| < |name| {
      OtherLetter(p, w, ch);
    }
  }

  lemma MethodByte(p: Parser, w: seq<Byte>, ch: Byte)
    requires p.state.ReqMethod? && p.index == |w| && w <= MethodName(p.verb) && Step(p, ch).Running?
    ensures var q := Step(p, ch).p;
            if ch == ' ' then q.state.ReqSpacesBeforeUrl? && q.verb == p.verb && w == MethodName(p.verb)
            else q.state.ReqMethod? && q.index == |w| + 1 && w + [ch] <= MethodName(q.verb)
  {
    MethodPass(Counted(p), w, ch);
  }

  lemma NoSpaces(m: Method)
    ensures ' ' !in MethodName(m)
  {
  }

  lemma FirstMethodByte(p: Parser, ch: Byte)
    requires p.state.StartReq? && ch != CR && ch != LF && Step(p, ch).Running?
    ensures var q := Step(p, ch).p; q.state.ReqMethod? && q.index == 1 && [ch] <= MethodName(q.verb)
  {
    var c := Counted(p);
    assert SwitchStartReq(c, ch).Go?;
    FirstLetter(ch);
  }

  /** While the letters of the method are read, they are a prefix of the name of the method at hand. */
  lemma {:induction false} MethodIsText(p: Parser, w: seq<Byte>)
    requires p.state.StartReq? && w != [] && w[0] != CR && w[0] != LF && ' ' !in w && Run(p, w).Running?
    ensures var q := Run(p, w).p; q.state.ReqMethod? && q.index == |w| && w <= MethodName(q.verb)
    decreases |w|
  {
    hide MethodName, Step;
    var w0, ch := w[..|w| - 1], w[|w| - 1];
    assert w == w0 + [ch];
    RunSnoc(p, w0, ch);
    if w0 == [] {
      FirstMethodByte(p, ch);
      assert w == [ch];
    } else {
      assert w0[0] == w[0];
      MethodIsText(p, w0);
      MethodByte(Run(p, w0).p, w0, ch);
    }
  }

  /** The method that the parser ends up with is the one whose name was sent. */
  lemma MethodRecognised(p: Parser, w: seq<Byte>)
    requires p.state.StartReq? && w != [] && w[0] != CR && w[0] != LF && ' ' !in w && Run(p, w + [' ']).Running?
    ensures var q := Run(p, w + [' ']).p; q.state.ReqSpacesBeforeUrl? && MethodName(q.verb) == w
  {
    RunSnoc(p, w, ' ');
    MethodIsText(p, w);
    MethodByte(Run(p, w).p, w, ' ');
  }

  // ---------------------------------------------------------------- header names

  function LowerAll(w: seq<Byte>): seq<Byte> { seq(|w|, i requires 0 <= i < |w| => TokenOf(w[i])) }

  const CONNECTION := "connection"
  const PROXY_CONNECTION := "proxy-connection"
  const CONTENT_LENGTH := "content-length"
  const TRANSFER_ENCODING := "transfer-encoding"
  const UPGRADE := "upgrade"

  /** The state of the matching after the lower-case name w. */
  function Recognised(w: string): HeaderState {
    if w == CONNECTION || w == PROXY_CONNECTION then HConnection
    else if w == CONTENT_LENGTH then HContentLength
    else if w == TRANSFER_ENCODING then HTransferEncoding
    else if w == UPGRADE then HUpgrade
    else if w == "c" then HC
    else if w == "co" then HCO
    else if w == "con" then HCON
    else if w <= CONNECTION then MatchingConnection
    else if w <= PROXY_CONNECTION then MatchingProxyConnection
    else if w <= CONTENT_LENGTH then MatchingContentLength
    else if w <= TRANSFER_ENCODING then MatchingTransferEncoding
    else if w <= UPGRADE then MatchingUpgrade
    else HGeneral
  }

  lemma PrefixStep(w: string, c: char, word: string)
    ensures w + [c] <= word <==> w <= word && |w| < |word| && word[|w|] == c
  {
    if w <= word && |w| < |word| && word[|w|] == c {
      assert w + [c] == word[..|w| + 1];
    }
    if w + [c] <= word {
      assert (w + [c])[|w|] == word[|w|];
      assert w == (w + [c])[..|w|] == word[..|w|];
    }
  }

  lemma WholeIsPrefix(w: string, word: string)
    ensures w == word <==> w <= word && |w| == |word|
  {
  }

  ghost predicate Relevant(h: HeaderState) {
    h.HConnection? || h.HContentLength? || h.HTransferEncoding? || h.HUpgrade?
  }

  /** The matching state fits the name read so far. */
  ghost predicate MatchedSoFar(p: Parser, w: string) {
    p.state.HeaderField? && p.headerState == Recognised(w) && w != ""
    && (!Relevant(p.headerState) && !p.headerState.HGeneral? ==> p.index == |w| - 1)
  }

  lemma Apart(w: string, a: string, b: string, k: nat)
    requires k < |a| && k < |b| && a[k] != b[k] && |w| > k
    ensures !(w <= a && w <= b)
  {
    assert w <= a ==> w[k] == a[k];
    assert w <= b ==> w[k] == b[k];
  }

  /** A name of four letters or more is the beginning of at most one of the five; a shorter one may be the
      beginning of both names in con. */
  lemma AtMostOneWord(w: string)
    requires w != ""
    ensures w <= CONNECTION ==> !(w <= PROXY_CONNECTION) && !(w <= TRANSFER_ENCODING) && !(w <= UPGRADE)
    ensures w <= CONTENT_LENGTH ==> !(w <= PROXY_CONNECTION) && !(w <= TRANSFER_ENCODING) && !(w <= UPGRADE)
    ensures w <= PROXY_CONNECTION ==> !(w <= TRANSFER_ENCODING) && !(w <= UPGRADE)
    ensures w <= TRANSFER_ENCODING ==> !(w <= UPGRADE)
    ensures |w| > 3 && w <= CONNECTION ==> !(w <= CONTENT_LENGTH)
    ensures |w| <= 3 ==> (w <= CONNECTION <==> w <= CONTENT_LENGTH)
    ensures w <= CONNECTION ==> (w == "c" <==> |w| == 1) && (w == "co" <==> |w| == 2) && (w == "con" <==> |w| == 3)
    ensures w == "c" || w == "co" || w == "con" ==> w <= CONNECTION
  {
    Apart(w, CONNECTION, PROXY_CONNECTION, 0);
    Apart(w, CONNECTION, TRANSFER_ENCODING, 0);
    Apart(w, CONNECTION, UPGRADE, 0);
    Apart(w, CONTENT_LENGTH, PROXY_CONNECTION, 0);
    Apart(w, CONTENT_LENGTH, TRANSFER_ENCODING, 0);
    Apart(w, CONTENT_LENGTH, UPGRADE, 0);
    Apart(w, PROXY_CONNECTION, TRANSFER_ENCODING, 0);
    Apart(w, PROXY_CONNECTION, UPGRADE, 0);
    Apart(w, TRANSFER_ENCODING, UPGRADE, 0);
    if |w| > 3 {
      Apart(w, CONNECTION, CONTENT_LENGTH, 3);
    } else {
      assert CONNECTION[..|w|] == CONTENT_LENGTH[..|w|];
      assert w <= CONNECTION <==> w == CONNECTION[..|w|];
      assert w <= CONTENT_LENGTH <==> w == CONTENT_LENGTH[..|w|];
      assert CONNECTION[..1] == "c" && CONNECTION[..2] == "co" && CONNECTION[..3] == "con";
    }
  }

  /** How far the name is: where the state of the matching stands among the five names. */
  lemma RecognisedMeans(w: string)
    requires w != ""
    ensures var h := Recognised(w);
            && (h.HC? <==> |w| == 1 && w <= CONNECTION)
            && (h.HCO? <==> |w| == 2 && w <= CONNECTION)
            && (h.HCON? <==> |w| == 3 && w <= CONNECTION)
            && (h.MatchingConnection? <==> 3 < |w| < |CONNECTION| && w <= CONNECTION)
            && (h.MatchingContentLength? <==> 3 < |w| < |CONTENT_LENGTH| && w <= CONTENT_LENGTH)
            && (h.MatchingProxyConnection? <==> |w| < |PROXY_CONNECTION| && w <= PROXY_CONNECTION)
            && (h.MatchingTransferEncoding? <==> |w| < |TRANSFER_ENCODING| && w <= TRANSFER_ENCODING)
            && (h.MatchingUpgrade? <==> |w| < |UPGRADE| && w <= UPGRADE)
            && (h.HConnection? <==> (w <= CONNECTION && |w| == |CONNECTION|)
                                    || (w <= PROXY_CONNECTION && |w| == |PROXY_CONNECTION|))
            && (h.HContentLength? <==> w <= CONTENT_LENGTH && |w| == |CONTENT_LENGTH|)
            && (h.HTransferEncoding? <==> w <= TRANSFER_ENCODING && |w| == |TRANSFER_ENCODING|)
            && (h.HUpgrade? <==> w <= UPGRADE && |w| == |UPGRADE|)
            && (h.HGeneral? <==> !(w <= CONNECTION) && !(w <= PROXY_CONNECTION) && !(w <= CONTENT_LENGTH)
                                 && !(w <= TRANSFER_ENCODING) && !(w <= UPGRADE))
  {
    AtMostOneWord(w);
    WholeIsPrefix(w, CONNECTION);
    WholeIsPrefix(w, PROXY_CONNECTION);
    WholeIsPrefix(w, CONTENT_LENGTH);
    WholeIsPrefix(w, TRANSFER_ENCODING);
    WholeIsPrefix(w, UPGRADE);
  }

  lemma NextPrefixes(w: string, c: char)
    requires w != ""
    ensures forall word :: word == CONNECTION || word == PROXY_CONNECTION || word == CONTENT_LENGTH
                           || word == TRANSFER_ENCODING || word == UPGRADE ==>
              (w + [c] <= word <==> w <= word && |w| < |word| && word[|w|] == c)
  {
    PrefixStep(w, c, CONNECTION);
    PrefixStep(w, c, PROXY_CONNECTION);
    PrefixStep(w, c, CONTENT_LENGTH);
    PrefixStep(w, c, TRANSFER_ENCODING);
    PrefixStep(w, c, UPGRADE);
  }

  /** Once the name is none of the five, or is complete, one more letter makes it none of them. */
  lemma SettledFieldByte(p: Parser, w: string, ch: Byte, c: Byte)
    requires MatchedSoFar(p, w) && ch != ' ' && (Relevant(p.headerState) || p.headerState.HGeneral?)
    ensures MatchedSoFar(FieldChar(p, ch, c), w + [c])
  {
    RecognisedMeans(w);
    AtMostOneWord(w);
    NextPrefixes(w, c);
    RecognisedMeans(w + [c]);
  }

  lemma MatchingFieldByte(p: Parser, w: string, ch: Byte, c: Byte)
    requires MatchedSoFar(p, w) && !Relevant(p.headerState) && !p.headerState.HGeneral?
    ensures MatchedSoFar(FieldChar(p, ch, c), w + [c])
  {
    if p.headerState.HC? || p.headerState.HCO? || p.headerState.HCON? {
      FirstFieldBytes(p, w, ch, c);
    } else {
      LaterFieldByte(p, w, ch, c);
    }
  }

  /** The same as one value. */
  lemma RecognisedIs(w: string)
    requires w != ""
    ensures Recognised(w) ==
      if w <= CONNECTION then
        if |w| == 1 then HC else if |w| == 2 then HCO else if |w| == 3 then HCON
        else if |w| < |CONNECTION| then MatchingConnection else HConnection
      else if w <= PROXY_CONNECTION then if |w| < |PROXY_CONNECTION| then MatchingProxyConnection else HConnection
      else if w <= CONTENT_LENGTH then if |w| < |CONTENT_LENGTH| then MatchingContentLength else HContentLength
      else if w <= TRANSFER_ENCODING then
        if |w| < |TRANSFER_ENCODING| then MatchingTransferEncoding else HTransferEncoding
      else if w <= UPGRADE then if |w| < |UPGRADE| then MatchingUpgrade else HUpgrade
      else HGeneral
  {
    hide Recognised;
    RecognisedMeans(w);
    AtMostOneWord(w);
  }

  lemma OneWordGoesOn(w: string, c: char)
    requires w != "" && w <= CONNECTION
    ensures !(w + [c] <= PROXY_CONNECTION) && !(w + [c] <= TRANSFER_ENCODING) && !(w + [c] <= UPGRADE)
    ensures |w| <= 3 ==> w <= CONTENT_LENGTH
  {
    AtMostOneWord(w);
    NextPrefixes(w, c);
  }

  lemma FirstFieldBytes(p: Parser, w: string, ch: Byte, c: Byte)
    requires MatchedSoFar(p, w) && (p.headerState.HC? || p.headerState.HCO? || p.headerState.HCON?)
    ensures MatchedSoFar(FieldChar(p, ch, c), w + [c])
  {
    hide Recognised;
    RecognisedIs(w);
    OneWordGoesOn(w, c);
    PrefixStep(w, c, CONNECTION);
    PrefixStep(w, c, CONTENT_LENGTH);
    RecognisedIs(w + [c]);
  }

  lemma LaterFieldByte(p: Parser, w: string, ch: Byte, c: Byte)
    requires MatchedSoFar(p, w) && !Relevant(p.headerState) && !p.headerState.HGeneral?
    requires !p.headerState.HC? && !p.headerState.HCO? && !p.headerState.HCON?
    ensures MatchedSoFar(FieldChar(p, ch, c), w + [c])
  {
    hide Recognised;
    RecognisedMeans(w);
    RecognisedMeans(w + [c]);
    AtMostOneWord(w);
    NextPrefixes(w, c);
  }

  lemma FieldByte(p: Parser, w: string, ch: Byte, c: Byte)
    requires MatchedSoFar(p, w) && ch != ' '
    ensures MatchedSoFar(FieldChar(p, ch, c), w + [c])
  {
    if Relevant(p.headerState) || p.headerState.HGeneral? {
      SettledFieldByte(p, w, ch, c);
    } else {
      MatchingFieldByte(p, w, ch, c);
    }
  }

  ghost predicate AllTokens(w: seq<Byte>) { forall i :: 0 <= i < |w| ==> TokenOf(w[i]) != '\0' }

  lemma FirstFieldByte(p: Parser, ch: Byte)
    requires p.state.HeaderFieldStart? && TokenOf(ch) != '\0' && Step(p, ch).Running?
    ensures MatchedSoFar(Step(p, ch).p, [TokenOf(ch)])
  {
    var c := TokenOf(ch);
    RecognisedMeans([c]);
    AtMostOneWord([c]);
    assert [c] <= CONNECTION <==> c == 'c';
    assert [c] <= CONTENT_LENGTH <==> c == 'c';
    assert [c] <= PROXY_CONNECTION <==> c == 'p';
    assert [c] <= TRANSFER_ENCODING <==> c == 't';
    assert [c] <= UPGRADE <==> c == 'u';
    assert ch != CR && ch != LF;
  }

  lemma NextFieldByte(p: Parser, w: string, ch: Byte)
    requires MatchedSoFar(p, w) && TokenOf(ch) != '\0' && Step(p, ch).Running?
    ensures MatchedSoFar(Step(p, ch).p, w + [TokenOf(ch)])
  {
    hide Recognised;
    var c := Counted(p);
    assert MatchedSoFar(c, w);
    FieldByte(c, w, ch, TokenOf(ch));
    assert SwitchField(c, ch) == Plain(FieldChar(c, ch, TokenOf(ch)));
  }

  lemma {:induction false} NameMatched(p: Parser, w: seq<Byte>)
    requires p.state.HeaderFieldStart? && w != [] && AllTokens(w) && Run(p, w).Running?
    ensures MatchedSoFar(Run(p, w).p, LowerAll(w))
    decreases |w|
  {
    hide MatchedSoFar, Step, TokenOf;
    var w0, ch := w[..|w| - 1], w[|w| - 1];
    assert w == w0 + [ch];
    RunSnoc(p, w0, ch);
    assert LowerAll(w) == LowerAll(w0) + [TokenOf(ch)];
    if w0 == [] {
      FirstFieldByte(p, ch);
      assert LowerAll(w) == [TokenOf(ch)];
    } else {
      NameMatched(p, w0);
      NextFieldByte(Run(p, w0).p, LowerAll(w0), ch);
    }
  }

  lemma ColonByte(p: Parser)
    requires p.state.HeaderField? && Step(p, ':').Running?
    ensures Step(p, ':').p.state.HeaderValueDiscardWs? && Step(p, ':').p.headerState == p.headerState
  {
    var c := Counted(p);
    assert SwitchField(c, ':') == Go(c.(state := HeaderValueDiscardWs), None, Some(FIELD), [], false);
  }

  /** A header line is taken for one that steers the parser exactly when its name, in any letter case, is that
      header's whole name. */
  lemma HeaderNameRecognised(p: Parser, w: seq<Byte>)
    requires p.state.HeaderFieldStart? && w != [] && AllTokens(w) && Run(p, w + [':']).Running?
    ensures var q, name := Run(p, w + [':']).p, LowerAll(w);
            && q.state.HeaderValueDiscardWs?
            && (q.headerState.HConnection? <==> name == "connection" || name == "proxy-connection")
            && (q.headerState.HContentLength? <==> name == "content-length")
            && (q.headerState.HTransferEncoding? <==> name == "transfer-encoding")
            && (q.headerState.HUpgrade? <==> name == "upgrade")
  {
    RunSnoc(p, w, ':');
    NameMatched(p, w);
    ColonByte(Run(p, w).p);
  }
}
