/**
 What the value of a header line does to the request parser: the words chunked, keep-alive and close in any letter
 case, the decimal number of a content length, and what whole lines add up to.
 */
module HttpValues {
  import opened Bytes
  import opened Common
  import opened HttpSwitch
  import opened HttpMachine
  import opened HttpParser
  import opened HttpNames

  const CRLF: seq<Byte> := [CR, LF]

  // ---------------------------------------------------------------- bytes of the head

  /** A byte of the head that takes one pass. */
  lemma HeadByte(p: Parser, ch: Byte, q: Parser, notes: seq<Event>)
    requires IsHeaderState(p.state) && p.nread < MAX_HEADER_SIZE
    requires var pass := Switch(p.(nread := p.nread + 1), ch);
             pass.Go? && !pass.again && pass.p == q && pass.notes == notes
    ensures Step(p, ch) == Running(q, Carried(p.state, ch) + notes)
  {
    hide Switch;
    var c := Counted(p);
    assert Passes(c, ch) == Prepend(Carried(p.state, ch) + notes, Running(q, []));
    assert (Carried(p.state, ch) + notes) + [] == Carried(p.state, ch) + notes;
  }

  /** One more byte at the end of a run. */
  lemma RunMore(p: Parser, d: seq<Byte>, q: Parser, events: seq<Event>, ch: Byte, r: Parser, more: seq<Event>)
    requires Run(p, d) == Running(q, events) && Step(q, ch) == Running(r, more)
    ensures Run(p, d + [ch]) == Running(r, events + more)
  {
    hide Run, Step;
    RunSnoc(p, d, ch);
  }

  /** One run behind another. */
  lemma RunBehind(p: Parser, a: seq<Byte>, q: Parser, events: seq<Event>, b: seq<Byte>, r: Parser, more: seq<Event>)
    requires Run(p, a) == Running(q, events) && Run(q, b) == Running(r, more)
    ensures Run(p, a + b) == Running(r, events + more)
  {
    hide Run;
    RunConcat(p, a, b);
  }

  /** What lines that do not steer the parser leave alone. */
  predicate SameRequest(p: Parser, q: Parser) {
    && q.verb == p.verb && q.major == p.major && q.minor == p.minor && q.upgrade == p.upgrade
    && q.flags == p.flags && q.contentLength == p.contentLength
  }

  // ---------------------------------------------------------------- names

  lemma NameByte(p: Parser, w: seq<Byte>, ch: Byte)
    requires TokenOf(ch) != '\0' && p.nread < MAX_HEADER_SIZE
    requires if w == [] then p.state.HeaderFieldStart? else p.state.HeaderField? && IsFieldHeaderState(p.headerState)
    ensures Step(p, ch).Running? && Step(p, ch).events == [Data(FIELD, ch)]
    ensures var q := Step(p, ch).p; q.state.HeaderField? && SameRequest(p, q) && q.nread == p.nread + 1
  {
    hide FieldChar, TokenOf;
    TokenIsNoEnd(ch);
    var c := p.(nread := p.nread + 1);
    if w == [] {
      assert SwitchFieldStart(c, ch).Go?;
      HeadByte(p, ch, SwitchFieldStart(c, ch).p, []);
    } else {
      FieldCharChanges(c, ch, TokenOf(ch));
      HeadByte(p, ch, FieldChar(c, ch, TokenOf(ch)), []);
    }
    assert Carried(p.state, ch) + [] == [Data(FIELD, ch)];
  }

  lemma TokenIsNoEnd(ch: Byte)
    requires TokenOf(ch) != '\0'
    ensures ch != CR && ch != LF && ch != ' ' && ch != '\t' && ch != ':'
  {
  }

  lemma FieldCharChanges(p: Parser, ch: Byte, c: Byte)
    ensures var q := FieldChar(p, ch, c); q == p.(index := q.index, headerState := q.headerState)
  {
  }

  lemma RecognisedIsField(w: string)
    requires w != ""
    ensures IsFieldHeaderState(Recognised(w))
  {
  }

  /** A name is reported whole, and the parser then knows which of the names that steer it this is. */
  lemma {:induction false} RunName(p: Parser, w: seq<Byte>)
    requires p.state.HeaderFieldStart? && w != [] && AllTokens(w) && p.nread + |w| <= MAX_HEADER_SIZE
    ensures Run(p, w).Running? && Run(p, w).events == Tagged(FIELD, w)
    ensures var q := Run(p, w).p;
            && q.state.HeaderField? && SameRequest(p, q) && q.nread == p.nread + |w|
            && q.headerState == Recognised(LowerAll(w))
    decreases |w|
  {
    hide Step, TokenOf, Recognised;
    var w0, ch := w[..|w| - 1], w[|w| - 1];
    assert w == w0 + [ch];
    TaggedOneMore(FIELD, w);
    if w0 == [] {
      NameByte(p, [], ch);
      RunOne(p, ch);
      assert w == [ch];
    } else {
      RunName(p, w0);
      var q := Run(p, w0).p;
      RecognisedIsField(LowerAll(w0));
      NameByte(q, w0, ch);
      RunMore(p, w0, q, Tagged(FIELD, w0), ch, Step(q, ch).p, [Data(FIELD, ch)]);
    }
    assert MatchedSoFar(Run(p, w).p, LowerAll(w)) by {
      NameMatched(p, w);
    }
  }

  // ---------------------------------------------------------------- words

  /** The same character, or its capital. */
  predicate Folds(c: Byte, l: char) { c == l || ('a' <= l <= 'z' && c as int == l as int - 32) }

  predicate IsWord(word: string) { |word| > 1 && forall k :: 0 <= k < |word| ==>
      'a' <= word[k] <= 'z' || word[k] == '-' }

  /** A proper beginning of the word, in any letter case. */
  predicate Begins(w: seq<Byte>, word: string) {
    |w| < |word| && forall k :: 0 <= k < |w| ==> Folds(w[k], word[k])
  }

  /** The word in any letter case, and nothing behind it but spaces. */
  predicate Says(w: seq<Byte>, word: string) {
    && |w| >= |word| && (forall k :: 0 <= k < |word| ==> Folds(w[k], word[k]))
    && forall k :: |word| <= k < |w| ==> w[k] == ' '
  }

  lemma TheWords()
    ensures IsWord("chunked") && IsWord("keep-alive") && IsWord("close")
    ensures "chunked"[0] == 'c' && "keep-alive"[0] == 'k' && "close"[0] == 'c'
  {
  }

  lemma LowerFolds(c: Byte, l: char)
    requires c != CR && ('a' <= l <= 'z' || l == '-')
    ensures Lower(c) == l <==> Folds(c, l)
  {
  }

  lemma BeginsMore(w: seq<Byte>, ch: Byte, word: string)
    ensures Begins(w + [ch], word) <==> Begins(w, word) && |w| + 1 < |word| && Folds(ch, word[|w|])
    ensures Says(w + [ch], word) <==>
            if |w| < |word| then |w| + 1 == |word| && Begins(w, word) && Folds(ch, word[|w|])
              else Says(w, word) && ch == ' '
  {
    var v := w + [ch];
    assert v[|w|] == ch && forall k :: 0 <= k < |w| ==> v[k] == w[k];
    if Begins(v, word) || Says(v, word) {
      if |w| < |word| {
        assert Folds(v[|w|], word[|w|]);
      }
      assert forall k :: 0 <= k < |w| && k < |word| ==> Folds(v[k], word[k]);
    }
  }

  /** How far the matching of a value with one word is. */
  function WordState(w: seq<Byte>, word: string, matching: HeaderState, matched: HeaderState): HeaderState {
    if Says(w, word) then matched else if Begins(w, word) then matching else HGeneral
  }

  predicate IsMatching(h: HeaderState) { h.MatchingChunked? || h.MatchingKeepAlive? || h.MatchingClose? }

  predicate IsMatched(h: HeaderState) { h.HChunked? || h.HKeepAlive? || h.HClose? }

  lemma WordByte(p: Parser, w: seq<Byte>, ch: Byte, word: string, matching: HeaderState, matched: HeaderState)
    requires IsWord(word) && ch != CR && w != [] && IsMatching(matching) && IsMatched(matched)
    requires p.headerState == WordState(w, word, matching, matched)
    requires p.headerState == matching ==> p.index == |w| - 1
    ensures var q := if p.headerState == matching then Matching(p, Lower(ch), word, matched)
                     else if p.headerState == matched && ch != ' ' then p.(headerState := HGeneral) else p;
            && q == p.(index := q.index, headerState := WordState(w + [ch], word, matching, matched))
            && (q.headerState == matching ==> q.index == |w|)
  {
    hide Begins, Says, Folds, Lower;
    BeginsMore(w, ch, word);
    BeginsOrSays(w, word);
    if |w| < |word| {
      LowerFolds(ch, word[|w|]);
    }
  }

  lemma BeginsOrSays(w: seq<Byte>, word: string)
    ensures (Begins(w, word) ==> |w| < |word|) && (Says(w, word) ==> |w| >= |word|)
  {
  }

  lemma WordStarts(ch: Byte, word: string, matching: HeaderState, matched: HeaderState)
    requires IsWord(word) && ch != CR
    ensures WordState([ch], word, matching, matched) == if Lower(ch) == word[0] then matching else HGeneral
  {
    hide Lower;
    LowerFolds(ch, word[0]);
  }

  // ---------------------------------------------------------------- values

  /** The number that the digits of a text spell; the spaces between them are skipped. */
  function NumberIn(w: seq<Byte>): nat {
    if w == [] then 0
    else
      var before, c := NumberIn(w[..|w| - 1]), w[|w| - 1];
      if IsNum(c) then 10 * before + (c as int - '0' as int) else before
  }

  /** What the matching of a value has come to, by the kind of its header. */
  function ValueState(h: HeaderState, w: seq<Byte>): HeaderState
    requires w != []
  {
    match h
    case HTransferEncoding => WordState(w, "chunked", MatchingChunked, HChunked)
    case HConnection =>
      if Folds(w[0], 'k') then WordState(w, "keep-alive", MatchingKeepAlive, HKeepAlive)
      else WordState(w, "close", MatchingClose, HClose)
    case HContentLength => HContentLength
    case _ => HGeneral
  }

  predicate LineBytes(w: seq<Byte>) { CR !in w && LF !in w }

  /** A value that is not refused: not empty, in one line, and for a content length a number in the range. */
  predicate GoodValue(h: HeaderState, w: seq<Byte>) {
    && w != [] && w[0] != ' ' && w[0] != '\t' && LineBytes(w)
    && (h.HContentLength? ==>
          IsNum(w[0]) && (forall k :: 0 <= k < |w| ==> IsNum(w[k]) || w[k] == ' ') && NumberIn(w) <= ULLONG_MAX - 10)
  }

  lemma ValuePrefix(h: HeaderState, w: seq<Byte>, ch: Byte)
    requires w != [] && GoodValue(h, w + [ch])
    ensures GoodValue(h, w) && ch != CR && ch != LF
    ensures h.HContentLength? ==> IsNum(ch) || ch == ' '
    ensures NumberIn(w + [ch]) == if IsNum(ch) then 10 * NumberIn(w) + (ch as int - '0' as int) else NumberIn(w)
  {
    var v := w + [ch];
    assert v[..|v| - 1] == w && v[|w|] == ch && v[0] == w[0];
    assert forall k :: 0 <= k < |w| ==> w[k] == v[k];
    assert forall c :: c in w ==> c in v;
    assert ch in v;
  }

  /** The parser that stands at p before a value, after the bytes w of it. */
  ghost predicate InValue(p: Parser, w: seq<Byte>, q: Parser)
    requires w != []
  {
    && q.state.HeaderValue? && q.headerState == ValueState(p.headerState, w)
    && q.verb == p.verb && q.major == p.major && q.minor == p.minor && q.upgrade == p.upgrade
    && q.flags == (if p.headerState.HUpgrade? then p.flags.(upgrade := true) else p.flags)
    && q.contentLength == (if p.headerState.HContentLength? then NumberIn(w) else p.contentLength)
    && (IsMatching(q.headerState) ==> q.index == |w| - 1)
    && q.nread == p.nread + |w|
  }

  lemma FirstValueByte(p: Parser, ch: Byte)
    requires p.state.HeaderValueDiscardWs? && p.nread < MAX_HEADER_SIZE && GoodValue(p.headerState, [ch])
    ensures Step(p, ch).Running? && Step(p, ch).events == [Data(VALUE, ch)] && InValue(p, [ch], Step(p, ch).p)
  {
    hide Switch, GoodValue, InValue;
    var c := p.(nread := p.nread + 1);
    StartPass(p, c, ch);
    HeadByte(p, ch, SwitchDiscardWs(c, ch).p, []);
    assert Carried(p.state, ch) + [] == [Data(VALUE, ch)];
  }

  lemma ValueSwitch(c: Parser, ch: Byte)
    ensures c.state.HeaderValueDiscardWs? ==> Switch(c, ch) == SwitchDiscardWs(c, ch)
    ensures c.state.HeaderValue? ==> Switch(c, ch) == SwitchValue(c, ch)
  {
  }

  lemma StartPass(p: Parser, c: Parser, ch: Byte)
    requires p.state.HeaderValueDiscardWs? && c == p.(nread := p.nread + 1) && GoodValue(p.headerState, [ch])
    ensures ch != ' ' && ch != '\t' && ch != CR && ch != LF
    ensures Switch(c, ch) == SwitchDiscardWs(c, ch) && ValuePass(p, [ch], SwitchDiscardWs(c, ch))
  {
    hide Switch, IsWord, Lower, Folds, WordState;
    assert Switch(c, ch) == SwitchDiscardWs(c, ch) by { ValueSwitch(c, ch); }
    ValueLine(ch);
    TheWords();
    WordStarts(ch, "chunked", MatchingChunked, HChunked);
    WordStarts(ch, "keep-alive", MatchingKeepAlive, HKeepAlive);
    WordStarts(ch, "close", MatchingClose, HClose);
    LowerFolds(ch, 'k');
    NumberOfOne(ch);
  }

  lemma ValueLine(ch: Byte)
    requires LineBytes([ch])
    ensures ch != CR && ch != LF
  {
    assert ch in [ch];
  }

  lemma NumberOfOne(ch: Byte)
    ensures NumberIn([ch]) == if IsNum(ch) then ch as int - '0' as int else 0
  {
    assert [ch][..0] == [];
  }

  lemma NextValueByte(p: Parser, w: seq<Byte>, q: Parser, ch: Byte)
    requires w != [] && InValue(p, w, q) && q.nread < MAX_HEADER_SIZE && GoodValue(p.headerState, w + [ch])
    ensures Step(q, ch).Running? && Step(q, ch).events == [Data(VALUE, ch)] && InValue(p, w + [ch], Step(q, ch).p)
  {
    hide WordState, Lower, Folds, Matching, NumberIn, GoodValue, Accumulate;
    var c := q.(nread := q.nread + 1);
    ValuePrefix(p.headerState, w, ch);
    assert (w + [ch])[0] == w[0];
    assert SwitchValue(c, ch).Go? && InValue(p, w + [ch], SwitchValue(c, ch).p) && !SwitchValue(c, ch).again
           && SwitchValue(c, ch).notes == [] by {
      if p.headerState.HContentLength? {
        LengthByte(p, w, c, ch);
      } else {
        WordsByte(p, w, c, ch);
      }
    }
    HeadByte(q, ch, SwitchValue(c, ch).p, []);
    assert Carried(q.state, ch) + [] == [Data(VALUE, ch)];
  }

  ghost predicate ValuePass(p: Parser, w: seq<Byte>, pass: Pass)
    requires w != []
  {
    pass.Go? && InValue(p, w, pass.p) && !pass.again && pass.notes == []
  }

  lemma LengthByte(p: Parser, w: seq<Byte>, c: Parser, ch: Byte)
    requires w != [] && c.nread > 0 && InValue(p, w, c.(nread := c.nread - 1)) && p.headerState.HContentLength?
    requires GoodValue(p.headerState, w + [ch])
    ensures ValuePass(p, w + [ch], SwitchValue(c, ch))
  {
    ValuePrefix(p.headerState, w, ch);
    if IsNum(ch) {
      LengthIsExact(c.contentLength, 10, ch as int - '0' as int);
    }
  }

  lemma WordsByte(p: Parser, w: seq<Byte>, c: Parser, ch: Byte)
    requires w != [] && c.nread > 0 && InValue(p, w, c.(nread := c.nread - 1)) && !p.headerState.HContentLength?
    requires ch != CR && ch != LF
    ensures ValuePass(p, w + [ch], SwitchValue(c, ch))
  {
    hide IsWord, Begins, Says, Lower, Folds, Matching;
    assert (w + [ch])[0] == w[0];
    match p.headerState {
      case HTransferEncoding => EncodingByte(p, w, c, ch);
      case HConnection => ConnectionByte(p, w, c, ch);
      case _ =>
    }
  }

  lemma EncodingByte(p: Parser, w: seq<Byte>, c: Parser, ch: Byte)
    requires w != [] && c.nread > 0 && InValue(p, w, c.(nread := c.nread - 1)) && p.headerState.HTransferEncoding?
    requires ch != CR && ch != LF
    ensures ValuePass(p, w + [ch], SwitchValue(c, ch))
  {
    hide IsWord, Begins, Says, Lower, Folds, Matching;
    TheWords();
    WordByte(c, w, ch, "chunked", MatchingChunked, HChunked);
  }

  lemma ConnectionByte(p: Parser, w: seq<Byte>, c: Parser, ch: Byte)
    requires w != [] && c.nread > 0 && InValue(p, w, c.(nread := c.nread - 1)) && p.headerState.HConnection?
    requires ch != CR && ch != LF
    ensures ValuePass(p, w + [ch], SwitchValue(c, ch))
  {
    hide IsWord, Begins, Says, Lower, Folds, Matching;
    assert (w + [ch])[0] == w[0];
    TheWords();
    if Folds(w[0], 'k') {
      WordByte(c, w, ch, "keep-alive", MatchingKeepAlive, HKeepAlive);
    } else {
      WordByte(c, w, ch, "close", MatchingClose, HClose);
    }
  }

  /** A value is reported whole, and the parser then knows whether it is one of the words, or the number. */
  lemma {:induction false} RunValue(p: Parser, w: seq<Byte>)
    requires p.state.HeaderValueDiscardWs? && GoodValue(p.headerState, w) && p.nread + |w| <= MAX_HEADER_SIZE
    ensures Run(p, w).Running? && Run(p, w).events == Tagged(VALUE, w) && InValue(p, w, Run(p, w).p)
    decreases |w|
  {
    hide Step, GoodValue, InValue;
    GoodIsSome(p.headerState, w);
    var w0, ch := w[..|w| - 1], w[|w| - 1];
    assert w == w0 + [ch];
    TaggedOneMore(VALUE, w);
    if w0 == [] {
      assert w == [ch];
      FirstValueByte(p, ch);
      RunOne(p, ch);
    } else {
      ValuePrefix(p.headerState, w0, ch);
      RunValue(p, w0);
      var q := Run(p, w0).p;
      InValueCounts(p, w0, q);
      NextValueByte(p, w0, q, ch);
      RunMore(p, w0, q, Tagged(VALUE, w0), ch, Step(q, ch).p, [Data(VALUE, ch)]);
    }
  }

  lemma GoodIsSome(h: HeaderState, w: seq<Byte>)
    requires GoodValue(h, w)
    ensures w != []
  {
  }

  lemma InValueCounts(p: Parser, w: seq<Byte>, q: Parser)
    requires w != [] && InValue(p, w, q)
    ensures q.nread == p.nread + |w| && q.state.HeaderValue?
  {
  }

  // ---------------------------------------------------------------- lines

  predicate Blanks(g: seq<Byte>) { forall k :: 0 <= k < |g| ==> g[k] == ' ' || g[k] == '\t' }

  lemma {:induction false} RunGap(p: Parser, g: seq<Byte>)
    requires p.state.HeaderValueDiscardWs? && Blanks(g) && p.nread + |g| <= MAX_HEADER_SIZE
    ensures Run(p, g) == Running(p.(nread := p.nread + |g|), [])
    decreases |g|
  {
    hide Step;
    if g == [] {
      assert p.(nread := p.nread) == p;
    } else {
      var g0, ch := g[..|g| - 1], g[|g| - 1];
      assert g == g0 + [ch] && Blanks(g0);
      RunGap(p, g0);
      GapByte(p.(nread := p.nread + |g0|), ch);
      RunMore(p, g0, p.(nread := p.nread + |g0|), [], ch, p.(nread := p.nread + |g|), []);
    }
  }

  lemma GapByte(p: Parser, ch: Byte)
    requires p.state.HeaderValueDiscardWs? && (ch == ' ' || ch == '\t') && p.nread < MAX_HEADER_SIZE
    ensures Step(p, ch) == Running(p.(nread := p.nread + 1), [])
  {
    var c := p.(nread := p.nread + 1);
    assert Switch(c, ch) == Plain(c);
    HeadByte(p, ch, c, []);
  }

  lemma ColonStep(p: Parser)
    requires p.state.HeaderField? && p.nread < MAX_HEADER_SIZE
    ensures Step(p, ':') == Running(p.(state := HeaderValueDiscardWs, nread := p.nread + 1), [])
  {
    var c := p.(nread := p.nread + 1);
    assert Switch(c, ':') == Go(c.(state := HeaderValueDiscardWs), None, Some(FIELD), [], false);
    HeadByte(p, ':', c.(state := HeaderValueDiscardWs), []);
  }

  /** A pass that tells nothing and goes on with the same byte. */
  lemma PassOn(c: Parser, ch: Byte, s: Parser)
    requires var pass := Switch(c, ch); pass.Go? && pass.p == s && pass.again && pass.notes == []
    requires Carried(c.state, ch) == []
    ensures Passes(c, ch) == Passes(s, ch)
  {
    hide Switch;
    var o := Passes(s, ch);
    assert Passes(c, ch) == Prepend([] + [], o);
    assert ([] + []) + o.events == o.events;
  }

  /** A line ends with CR and LF, or with LF alone. */
  datatype Eol = Crlf | Lf

  function End(e: Eol): seq<Byte> { match e case Crlf => CRLF case Lf => [LF] }

  /** The state behind the end of a line, after a value or where none came. */
  function Ended(p: Parser, e: Eol): Parser {
    p.(state := if p.state.HeaderValue? then HeaderValueLws else HeaderValueDiscardLws, nread := p.nread + |End(e)|)
  }

  lemma LineEnds(p: Parser, e: Eol)
    requires (p.state.HeaderValue? || p.state.HeaderValueDiscardWs?) && p.nread + |End(e)| <= MAX_HEADER_SIZE
    ensures Run(p, End(e)) == Running(Ended(p, e), [])
  {
    hide Step;
    match e {
      case Crlf =>
        EndBytes(p);
        var mid := if p.state.HeaderValue? then HeaderAlmostDone else HeaderValueDiscardWsAlmostDone;
        var q := p.(state := mid, nread := p.nread + 1);
        RunOne(p, CR);
        RunMore(p, [CR], q, [], LF, Step(q, LF).p, []);
        assert CRLF == [CR] + [LF];
      case Lf =>
        BareEnd(p);
        RunOne(p, LF);
    }
  }

  lemma BareEnd(p: Parser)
    requires (p.state.HeaderValue? || p.state.HeaderValueDiscardWs?) && p.nread < MAX_HEADER_SIZE
    ensures Step(p, LF) == Running(Ended(p, Lf), [])
  {
    hide Switch;
    var c := p.(nread := p.nread + 1);
    BarePass(c);
    if p.state.HeaderValue? {
      var mid := c.(state := HeaderAlmostDone);
      PassOn(c, LF, mid);
      LfPass(mid);
      assert Passes(mid, LF) == Prepend([] + [], Running(Ended(p, Lf), []));
    } else {
      HeadByte(p, LF, Ended(p, Lf), []);
    }
  }

  lemma BarePass(c: Parser)
    requires c.state.HeaderValue? || c.state.HeaderValueDiscardWs?
    ensures var pass := Switch(c, LF);
            && pass.Go? && pass.again == c.state.HeaderValue? && pass.notes == []
            && pass.p == c.(state := if c.state.HeaderValue? then HeaderAlmostDone else HeaderValueDiscardLws)
    ensures Carried(c.state, LF) == []
  {
  }

  lemma EndBytes(p: Parser)
    requires (p.state.HeaderValue? || p.state.HeaderValueDiscardWs?) && p.nread + 2 <= MAX_HEADER_SIZE
    ensures var mid := if p.state.HeaderValue? then HeaderAlmostDone else HeaderValueDiscardWsAlmostDone;
            var q := p.(state := mid, nread := p.nread + 1);
            && Step(p, CR) == Running(q, [])
            && Step(q, LF) == Running(Ended(p, Crlf), [])
  {
    hide Switch, Step;
    var c := p.(nread := p.nread + 1);
    var mid := if p.state.HeaderValue? then HeaderAlmostDone else HeaderValueDiscardWsAlmostDone;
    CrPass(c);
    HeadByte(p, CR, c.(state := mid), []);
    LfPass(c.(state := mid, nread := c.nread + 1));
    HeadByte(c.(state := mid), LF, Ended(p, Crlf), []);
  }

  lemma CrPass(c: Parser)
    requires c.state.HeaderValue? || c.state.HeaderValueDiscardWs?
    ensures var pass := Switch(c, CR);
            && pass.Go? && !pass.again && pass.notes == []
            && pass.p == c.(state := if c.state.HeaderValue? then HeaderAlmostDone else HeaderValueDiscardWsAlmostDone)
  {
  }

  lemma LfPass(c: Parser)
    requires c.state.HeaderAlmostDone? || c.state.HeaderValueDiscardWsAlmostDone?
    ensures var pass := Switch(c, LF);
            && pass.Go? && !pass.again && pass.notes == []
            && pass.p == c.(state := if c.state.HeaderAlmostDone? then HeaderValueLws else HeaderValueDiscardLws)
  {
  }

  /** What the byte behind a line finds: the words are noted, and a new line begins. */
  function Settled(p: Parser): Parser {
    if !p.state.HeaderValueLws? then p.(state := HeaderFieldStart)
    else
      p.(state := HeaderFieldStart,
         flags := match p.headerState
           case HKeepAlive => p.flags.(keepAlive := true)
           case HClose => p.flags.(close := true)
           case HChunked => p.flags.(chunked := true)
           case _ => p.flags)
  }

  lemma SettleByte(p: Parser, ch: Byte)
    requires (p.state.HeaderValueLws? || p.state.HeaderValueDiscardLws?) && ch != ' ' && ch != '\t'
    ensures Step(p, ch) == Step(Settled(p), ch)
  {
    hide Switch, Passes;
    var c := Counted(p);
    SettlePass(c, ch);
    PassOn(c, ch, Settled(c));
  }

  lemma SettlePass(c: Parser, ch: Byte)
    requires (c.state.HeaderValueLws? || c.state.HeaderValueDiscardLws?) && ch != ' ' && ch != '\t'
    ensures var pass := Switch(c, ch);
            && pass.Go? && pass.p == Settled(c) && pass.again && pass.notes == [] && Carried(c.state, ch) == []
  {
  }

  lemma Settle(p: Parser, d: seq<Byte>)
    requires p.state.HeaderValueLws? || p.state.HeaderValueDiscardLws?
    requires d != [] && d[0] != ' ' && d[0] != '\t'
    ensures Run(p, d) == Run(Settled(p), d)
  {
    hide Step, Settled;
    SettleByte(p, d[0]);
    RunOne(p, d[0]);
    RunOne(Settled(p), d[0]);
    assert d == [d[0]] + d[1..];
    RunConcat(p, [d[0]], d[1..]);
    RunConcat(Settled(p), [d[0]], d[1..]);
  }

  /** A header line: a name, white space, a value and a line end. */
  datatype Field = Field(name: seq<Byte>, gap: seq<Byte>, value: seq<Byte>, end: Eol)

  function Line(f: Field): seq<Byte> { f.name + [':'] + f.gap + f.value + End(f.end) }

  /** What is told of a line. */
  function Told(f: Field): seq<Event> { Tagged(FIELD, f.name) + Tagged(VALUE, f.value) }

  /** The line has one of the names that steer the parser, in any letter case. */
  predicate Named(f: Field, name: string) { LowerAll(f.name) == name }

  predicate NamesConnection(f: Field) { Named(f, "connection") || Named(f, "proxy-connection") }

  /** A line that is not refused; a value may be missing. */
  predicate GoodField(f: Field) {
    && f.name != [] && (forall k :: 0 <= k < |f.name| ==> TokenOf(f.name[k]) != '\0') && Blanks(f.gap)
    && (f.value != [] ==>
          && f.value[0] != ' ' && f.value[0] != '\t' && LineBytes(f.value)
          && (Named(f, "content-length") ==> GoodLength(f.value)))
  }

  /** Digits, with spaces between them at most, that spell a number in the range. */
  predicate GoodLength(w: seq<Byte>) {
    && w != [] && IsNum(w[0]) && (forall k :: 0 <= k < |w| ==> IsNum(w[k]) || w[k] == ' ')
    && NumberIn(w) <= ULLONG_MAX - 10
  }

  predicate AsksChunked(f: Field) { Named(f, "transfer-encoding") && Says(f.value, "chunked") }

  predicate AsksKeepAlive(f: Field) { NamesConnection(f) && Says(f.value, "keep-alive") }

  predicate AsksClose(f: Field) { NamesConnection(f) && Says(f.value, "close") }

  predicate AsksUpgrade(f: Field) { Named(f, "upgrade") && f.value != [] }

  predicate GivesLength(f: Field) { Named(f, "content-length") && f.value != [] }

  /** What one line makes of the flags and the length. */
  ghost predicate Steered(p: Parser, f: Field, r: Parser) {
    && r.flags.chunked == (p.flags.chunked || AsksChunked(f))
    && r.flags.keepAlive == (p.flags.keepAlive || AsksKeepAlive(f))
    && r.flags.close == (p.flags.close || AsksClose(f))
    && r.flags.upgrade == (p.flags.upgrade || AsksUpgrade(f))
    && r.flags.trailing == p.flags.trailing
    && r.contentLength == (if GivesLength(f) then NumberIn(f.value) else p.contentLength)
  }

  /** The parser at the start of a line, some bytes of the head later. */
  ghost predicate Onward(p: Parser, n: nat, r: Parser) {
    && r.state.HeaderFieldStart? && r.nread == p.nread + n
    && r.verb == p.verb && r.major == p.major && r.minor == p.minor && r.upgrade == p.upgrade
  }

  lemma NameKind(f: Field)
    requires f.name != []
    ensures var h := Recognised(LowerAll(f.name));
            && (h.HConnection? <==> NamesConnection(f)) && (h.HContentLength? <==> Named(f, "content-length"))
            && (h.HTransferEncoding? <==> Named(f, "transfer-encoding")) && (h.HUpgrade? <==> Named(f, "upgrade"))
  {
  }

  /** A value that says one word does not say the other. */
  lemma OneWordSaid(w: seq<Byte>)
    requires w != []
    ensures Says(w, "keep-alive") ==> Folds(w[0], 'k')
    ensures Says(w, "close") ==> !Folds(w[0], 'k')
    ensures Says([], "close") == Says([], "keep-alive") == Says([], "chunked") == false
  {
    assert Says(w, "keep-alive") ==> Folds(w[0], "keep-alive"[0]);
    assert Says(w, "close") ==> Folds(w[0], "close"[0]);
  }

  /** The parser behind a value, settled, has been steered. */
  lemma ValueSteers(p: Parser, p1: Parser, f: Field, q: Parser, e: Parser)
    requires f.name != [] && p1.headerState == Recognised(LowerAll(f.name)) && SameRequest(p, p1) && f.value != []
    requires InValue(p1, f.value, q) && e == q.(state := HeaderValueLws, nread := e.nread) && e.nread >= p.nread
    ensures Steered(p, f, Settled(e)) && Onward(p, e.nread - p.nread, Settled(e))
  {
    hide Recognised, Says, Begins, Named, Folds, LowerAll;
    NameKind(f);
    OneWordSaid(f.value);
  }

  lemma NoValueSteers(p: Parser, p1: Parser, f: Field, e: Parser)
    requires f.value == [] && SameRequest(p, p1)
    requires e == p1.(state := HeaderValueDiscardLws, nread := e.nread) && e.nread >= p.nread
    ensures Steered(p, f, Settled(e)) && Onward(p, e.nread - p.nread, Settled(e))
  {
    hide Named;
    OneWordSaid([' ']);
  }

  /** Up to the value: the name, the colon and the white space. */
  lemma RunFieldName(p: Parser, f: Field) returns (p1: Parser)
    requires p.state.HeaderFieldStart? && GoodField(f) && p.nread + |f.name| + 1 + |f.gap| <= MAX_HEADER_SIZE
    ensures Run(p, f.name + [':'] + f.gap) == Running(p1, Tagged(FIELD, f.name))
    ensures p1.state.HeaderValueDiscardWs? && p1.headerState == Recognised(LowerAll(f.name)) && SameRequest(p, p1)
    ensures p1.nread == p.nread + |f.name| + 1 + |f.gap|
  {
    hide Step, Recognised, LowerAll;
    RunName(p, f.name);
    var q := Run(p, f.name).p;
    ColonStep(q);
    var r := q.(state := HeaderValueDiscardWs, nread := q.nread + 1);
    RunMore(p, f.name, q, Tagged(FIELD, f.name), ':', r, []);
    RunGap(r, f.gap);
    p1 := r.(nread := r.nread + |f.gap|);
    RunBehind(p, f.name + [':'], r, Tagged(FIELD, f.name) + [], f.gap, p1, []);
    assert (Tagged(FIELD, f.name) + []) + [] == Tagged(FIELD, f.name);
  }

  lemma GoodFieldValue(f: Field)
    requires GoodField(f) && f.value != []
    ensures GoodValue(Recognised(LowerAll(f.name)), f.value)
  {
    hide Recognised;
    NameKind(f);
  }

  lemma LineLength(f: Field)
    ensures |Line(f)| == |f.name| + 1 + |f.gap| + |f.value| + |End(f.end)|
    ensures Line(f) == (f.name + [':'] + f.gap + f.value) + End(f.end)
  {
  }

  /** The value of a line and the line's end. */
  lemma RunFieldValue(p: Parser, p1: Parser, f: Field) returns (e: Parser)
    requires GoodField(f) && SameRequest(p, p1) && p1.state.HeaderValueDiscardWs?
    requires p1.headerState == Recognised(LowerAll(f.name))
    requires p.nread <= p1.nread && p1.nread + |f.value| + |End(f.end)| <= MAX_HEADER_SIZE
    ensures Run(p1, f.value + End(f.end)) == Running(e, Tagged(VALUE, f.value))
    ensures (e.state.HeaderValueLws? || e.state.HeaderValueDiscardLws?)
        && e.nread == p1.nread + |f.value| + |End(f.end)|
    ensures Steered(p, f, Settled(e)) && Onward(p, e.nread - p.nread, Settled(e))
  {
    hide Run, Recognised, GoodValue, Settled, InValue, LowerAll, Steered, Onward;
    if f.value != [] {
      GoodFieldValue(f);
      RunValue(p1, f.value);
      var q := Run(p1, f.value).p;
      InValueCounts(p1, f.value, q);
      LineEnds(q, f.end);
      e := Ended(q, f.end);
      RunBehind(p1, f.value, q, Tagged(VALUE, f.value), End(f.end), e, []);
      assert Tagged(VALUE, f.value) + [] == Tagged(VALUE, f.value);
      ValueSteers(p, p1, f, q, e);
    } else {
      LineEnds(p1, f.end);
      e := Ended(p1, f.end);
      assert f.value + End(f.end) == End(f.end) && Tagged(VALUE, f.value) == [];
      NoValueSteers(p, p1, f, e);
    }
  }

  /** One line: it is told whole, and steers the parser when the next line begins. */
  lemma RunLine(p: Parser, f: Field, rest: seq<Byte>) returns (r: Parser)
    requires p.state.HeaderFieldStart? && GoodField(f) && p.nread + |Line(f)| <= MAX_HEADER_SIZE && Inv(p, false)
    requires rest != [] && rest[0] != ' ' && rest[0] != '\t'
    ensures Onward(p, |Line(f)|, r) && Steered(p, f, r) && Inv(r, false)
    ensures Run(p, Line(f) + rest) == Prepend(Told(f), Run(r, rest))
  {
    hide Run, Recognised, GoodField, Settled, LowerAll, Steered, Onward, Inv;
    LineLength(f);
    var p1 := RunFieldName(p, f);
    var e := RunFieldValue(p, p1, f);
    RunBehind(p, f.name + [':'] + f.gap, p1, Tagged(FIELD, f.name), f.value + End(f.end), e, Tagged(VALUE, f.value));
    assert Line(f) == (f.name + [':'] + f.gap) + (f.value + End(f.end));
    RunConcat(p, Line(f), rest);
    Settle(e, rest);
    r := Settled(e);
    RunKeepsInv(p, Line(f));
    SettledInv(e);
  }

  lemma SettledInv(e: Parser)
    requires Inv(e, false)
    ensures Inv(Settled(e), false)
  {
  }

  // ---------------------------------------------------------------- all lines of a head

  function Lines(fs: seq<Field>): seq<Byte> { if fs == [] then [] else Line(fs[0]) + Lines(fs[1..]) }

  function ToldAll(fs: seq<Field>): seq<Event> { if fs == [] then [] else Told(fs[0]) + ToldAll(fs[1..]) }

  /** The last content length wins. */
  function LengthFrom(fs: seq<Field>, length: nat): nat
    decreases |fs|
  {
    if fs == [] then length
    else if GivesLength(fs[|fs| - 1]) then NumberIn(fs[|fs| - 1].value)
    else LengthFrom(fs[..|fs| - 1], length)
  }

  /** What all lines make of the flags and the length. */
  ghost predicate SteeredBy(p: Parser, fs: seq<Field>, r: Parser) {
    && (r.flags.chunked <==> p.flags.chunked || exists f :: f in fs && AsksChunked(f))
    && (r.flags.keepAlive <==> p.flags.keepAlive || exists f :: f in fs && AsksKeepAlive(f))
    && (r.flags.close <==> p.flags.close || exists f :: f in fs && AsksClose(f))
    && (r.flags.upgrade <==> p.flags.upgrade || exists f :: f in fs && AsksUpgrade(f))
    && r.flags.trailing == p.flags.trailing
    && r.contentLength == LengthFrom(fs, p.contentLength)
  }

  lemma {:induction false} LengthFirst(f: Field, fs: seq<Field>, length: nat)
    ensures LengthFrom([f] + fs, length)
         == LengthFrom(fs, if GivesLength(f) then NumberIn(f.value) else length)
    decreases |fs|
  {
    hide GivesLength, NumberIn;
    var all := [f] + fs;
    if fs == [] {
      assert all[..0] == [] && all[0] == f;
    } else {
      LengthFirst(f, fs[..|fs| - 1], length);
      assert all[..|all| - 1] == [f] + fs[..|fs| - 1] && all[|all| - 1] == fs[|fs| - 1];
    }
  }

  lemma SteeredFirst(p: Parser, f: Field, fs: seq<Field>, q: Parser, r: Parser)
    requires Steered(p, f, q) && SteeredBy(q, fs, r)
    ensures SteeredBy(p, [f] + fs, r)
  {
    hide AsksChunked, AsksKeepAlive, AsksClose, AsksUpgrade, GivesLength, NumberIn, LengthFrom;
    LengthFirst(f, fs, p.contentLength);
    assert forall g :: g in [f] + fs <==> g == f || g in fs;
  }

  lemma LineIsLonger(f: Field)
    requires GoodField(f)
    ensures Line(f) != [] && TokenOf(Line(f)[0]) != '\0' && Line(f)[0] != ' ' && Line(f)[0] != '\t'
  {
    assert Line(f)[0] == f.name[0];
    TokenIsNoEnd(f.name[0]);
  }

  /** All header lines, told one after the other. */
  lemma {:induction false} RunLines(p: Parser, fs: seq<Field>, rest: seq<Byte>) returns (r: Parser)
    requires p.state.HeaderFieldStart? && (forall k :: 0 <= k < |fs| ==> GoodField(fs[k]))
    requires p.nread + |Lines(fs)| <= MAX_HEADER_SIZE && rest != [] && rest[0] != ' ' && rest[0] != '\t'
    requires Inv(p, false)
    ensures Onward(p, |Lines(fs)|, r) && SteeredBy(p, fs, r) && Inv(r, false)
    ensures Run(p, Lines(fs) + rest) == Prepend(ToldAll(fs), Run(r, rest))
    decreases |fs|
  {
    hide Run, GoodField, Steered, SteeredBy, Line, Told, Inv;
    if fs == [] {
      r := p;
      assert Lines(fs) + rest == rest && [] + Run(r, rest).events == Run(r, rest).events;
      NothingSteers(p);
    } else {
      var more := Lines(fs[1..]) + rest;
      if |fs| > 1 {
        LineIsLonger(fs[1]);
      }
      var q := RunLine(p, fs[0], more);
      r := RunLines(q, fs[1..], rest);
      assert Lines(fs) + rest == Line(fs[0]) + more;
      PrependTwice(Told(fs[0]), ToldAll(fs[1..]), Run(r, rest));
      SteeredFirst(p, fs[0], fs[1..], q, r);
      assert [fs[0]] + fs[1..] == fs;
    }
  }

  lemma NothingSteers(p: Parser)
    ensures SteeredBy(p, [], p)
  {
  }
}
