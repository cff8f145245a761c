/**
 The request targets that the parser accepts, given by a grammar: a path or a full URL with a query and a fragment
 behind it, or for CONNECT what follows the two slashes of a full URL.
 */
module HttpUrl {
  import opened Bytes
  import opened Common
  import opened HttpSwitch
  import opened HttpMachine
  import opened HttpParser
  import opened HttpValues

  type Url = seq<Byte>

  // ---------------------------------------------------------------- the grammar

  predicate IsLetter(c: Byte) { 'a' <= c <= 'z' || 'A' <= c <= 'Z' }

  /** Visible characters but the two that start a query and a fragment. */
  predicate IsPathChar(c: Byte) { 0x21 <= c as int <= 0x7E && c != '?' && c != '#' }

  predicate IsServerChar(c: Byte) {
    IsLetter(c) || IsDigit(c) || c in "-_.!~*'()%;:&=+$," || c == '[' || c == ']'
  }

  /** Something that starts as P has it, and goes on with characters of one class. */
  ghost predicate Star(P: Url -> bool, C: Byte -> bool, u: Url) {
    exists v: Url, w: Url :: P(v) && AllIn(C, w) && u == v + w
  }

  ghost predicate AllIn(C: Byte -> bool, w: Url) { forall k :: 0 <= k < |w| ==> C(w[k]) }

  ghost predicate Scheme(connect: bool, u: Url) { !connect && u != [] && forall k :: 0 <= k < |u| ==> IsLetter(u[k]) }

  ghost predicate AfterColon(connect: bool, u: Url) { exists v: Url :: Scheme(connect, v) && u == v + [':'] }

  ghost predicate AfterSlash(connect: bool, u: Url) { exists v: Url :: Scheme(connect, v) && u == v + [':', '/'] }

  ghost predicate AtServer(connect: bool, u: Url) {
    if connect then u == [] else exists v: Url :: Scheme(connect, v) && u == v + [':', '/', '/']
  }

  /** No two `@` in a row. */
  predicate ServerText(w: Url) {
    && w != [] && (forall k :: 0 <= k < |w| ==> IsServerChar(w[k]) || w[k] == '@')
    && forall k :: 0 < k < |w| && w[k] == '@' ==> w[k - 1] != '@'
  }

  ghost predicate Server(connect: bool, u: Url) {
    exists v: Url, w: Url :: AtServer(connect, v) && ServerText(w) && u == v + w
  }

  ghost predicate PathStart(connect: bool, u: Url) {
    || (!connect && (u == ['/'] || u == ['*']))
    || exists v: Url :: (AtServer(connect, v) || Server(connect, v)) && u == v + ['/']
  }

  ghost predicate Path(connect: bool, u: Url) { Star((v: Url) => PathStart(connect, v), (c: Byte) => IsPathChar(c), u) }

  ghost predicate QueryStart(connect: bool, u: Url) {
    exists v: Url :: (AtServer(connect, v) || Server(connect, v) || Path(connect, v)) && u == v + ['?']
  }

  ghost predicate Query(connect: bool, u: Url) {
    Star((v: Url) => QueryStart(connect, v), (c: Byte) => IsPathChar(c) || c == '?', u)
  }

  ghost predicate FragmentStart(connect: bool, u: Url) {
    exists v: Url :: (Path(connect, v) || Query(connect, v)) && u == v + ['#']
  }

  ghost predicate Fragment(connect: bool, u: Url) {
    Star((v: Url) => FragmentStart(connect, v), (c: Byte) => IsPathChar(c) || c == '?' || c == '#', u)
  }

  /** A whole target. */
  ghost predicate Target(connect: bool, u: Url) {
    Server(connect, u) || Path(connect, u) || Query(connect, u) || Fragment(connect, u)
  }

  lemma Letters(c: Byte)
    ensures IsAlpha(c) <==> IsLetter(c)
    ensures IsUrlChar(c) <==> IsPathChar(c)
    ensures IsUserinfoChar(c) || c == '[' || c == ']' <==> IsServerChar(c)
  {
  }

  lemma Visible(c: Byte)
    ensures IsPathChar(c) || IsServerChar(c) || IsLetter(c) || c == '?' || c == '#' || c == '@' ==>
              !(c == ' ' || c == CR || c == LF || c == '\t' || c as int == 12)
  {
  }

  lemma Signs()
    ensures !IsLetter(':') && !IsLetter('/') && !IsLetter('*')
    ensures !IsServerChar('/') && !IsServerChar('?') && !IsServerChar('@') && !IsServerChar('#')
    ensures IsPathChar('/') && IsPathChar('*') && !IsPathChar('?') && !IsPathChar('#')
  {
  }

  // ---------------------------------------------------------------- one more character

  /** The last character of a text in two parts. */
  lemma LastPart(v: Url, w: Url, u: Url)
    requires w != [] && u == v + w
    ensures u != [] && u[|u| - 1] == w[|w| - 1] && u[..|u| - 1] == v + w[..|w| - 1]
  {
    assert u[|u| - 1] == w[|u| - 1 - |v|];
  }

  lemma StarMore(P: Url -> bool, C: Byte -> bool, u: Url, c: Byte)
    ensures Star(P, C, u + [c]) <==> P(u + [c]) || (Star(P, C, u) && C(c))
  {
    if Star(P, C, u + [c]) && !P(u + [c]) {
      var v, w :| P(v) && AllIn(C, w) && u + [c] == v + w;
      assert w == [] ==> v + w == v;
      assert w != [];
      LastPart(v, w, u + [c]);
      assert (u + [c])[..|u + [c]| - 1] == u;
      assert AllIn(C, w[..|w| - 1]);
    }
    if P(u + [c]) {
      assert u + [c] == (u + [c]) + [] && AllIn(C, []);
    }
    if Star(P, C, u) && C(c) {
      var v, w :| P(v) && AllIn(C, w) && u == v + w;
      assert u + [c] == v + (w + [c]) && AllIn(C, w + [c]);
    }
  }

  /** Taking the last character away. */
  lemma LastIs(u: Url, c: Byte, v: Url, d: Byte)
    ensures u + [c] == v + [d] <==> u == v && c == d
  {
    assert (u + [c])[|u|] == c && (v + [d])[|v|] == d;
    assert (u + [c])[..|u|] == u && (v + [d])[..|v|] == v;
  }

  lemma SchemeMore(connect: bool, u: Url, c: Byte)
    ensures Scheme(connect, u + [c]) <==> !connect && IsLetter(c) && (u == [] || Scheme(connect, u))
    ensures Scheme(connect, u) ==> !connect
    ensures AfterColon(connect, u + [c]) <==> Scheme(connect, u) && c == ':'
    ensures AfterSlash(connect, u + [c]) <==> AfterColon(connect, u) && c == '/'
    ensures AtServer(connect, u + [c]) <==> AfterSlash(connect, u) && c == '/'
  {
    var t := u + [c];
    assert t[|u|] == c && forall k :: 0 <= k < |u| ==> t[k] == u[k];
    forall v: Url
      ensures t == v + [':'] <==> u == v && c == ':'
      ensures t == v + [':', '/'] <==> u == v + [':'] && c == '/'
      ensures t == v + [':', '/', '/'] <==> u == v + [':', '/'] && c == '/'
    {
      assert v + [':', '/'] == (v + [':']) + ['/'] && v + [':', '/', '/'] == (v + [':', '/']) + ['/'];
      LastIs(u, c, v, ':');
      LastIs(u, c, v + [':'], '/');
      LastIs(u, c, v + [':', '/'], '/');
    }
  }

  /** The languages that go on with one character behind a part. */
  lemma EndsMore(connect: bool, u: Url, c: Byte)
    ensures PathStart(connect, u + [c]) <==>
            || (!connect && u == [] && (c == '/' || c == '*'))
            || (c == '/' && (AtServer(connect, u) || Server(connect, u)))
    ensures QueryStart(connect, u + [c]) <==>
            c == '?' && (AtServer(connect, u) || Server(connect, u) || Path(connect, u))
    ensures FragmentStart(connect, u + [c]) <==> c == '#' && (Path(connect, u) || Query(connect, u))
  {
    hide AtServer, Server, Path, Query;
    forall v: Url, d: Byte
      ensures u + [c] == v + [d] <==> u == v && c == d
    {
      LastIs(u, c, v, d);
    }
    assert u + [c] == ['/'] <==> u == [] && c == '/' by { LastIs(u, c, [], '/'); }
    assert u + [c] == ['*'] <==> u == [] && c == '*' by { LastIs(u, c, [], '*'); }
  }

  lemma StarsMore(connect: bool, u: Url, c: Byte)
    ensures Path(connect, u + [c]) <==> PathStart(connect, u + [c]) || (Path(connect, u) && IsPathChar(c))
    ensures Query(connect, u + [c]) <==>
            QueryStart(connect, u + [c]) || (Query(connect, u) && (IsPathChar(c) || c == '?'))
    ensures Fragment(connect, u + [c]) <==>
            FragmentStart(connect, u + [c]) || (Fragment(connect, u) && (IsPathChar(c) || c == '?' || c == '#'))
  {
    StarMore((v: Url) => PathStart(connect, v), (x: Byte) => IsPathChar(x), u, c);
    StarMore((v: Url) => QueryStart(connect, v), (x: Byte) => IsPathChar(x) || x == '?', u, c);
    StarMore((v: Url) => FragmentStart(connect, v), (x: Byte) => IsPathChar(x) || x == '?' || x == '#', u, c);
  }

  predicate EndsWithAt(u: Url) { u != [] && u[|u| - 1] == '@' }

  lemma ServerMore(connect: bool, u: Url, c: Byte)
    ensures Server(connect, u + [c]) <==>
            || (AtServer(connect, u) && (IsServerChar(c) || c == '@'))
            || (Server(connect, u) && (IsServerChar(c) || (c == '@' && !EndsWithAt(u))))
  {
    hide AtServer, IsServerChar;
    Signs();
    if Server(connect, u + [c]) {
      var v, w: Url :| AtServer(connect, v) && ServerText(w) && u + [c] == v + w;
      LastPart(v, w, u + [c]);
      var w0 := w[..|w| - 1];
      assert u == (u + [c])[..|u + [c]| - 1] == v + w0;
      if w0 == [] {
        assert u == v;
      } else {
        assert ServerText(w0);
        assert Server(connect, u);
        LastPart(v, w0, u);
      }
    }
    if AtServer(connect, u) && (IsServerChar(c) || c == '@') {
      assert ServerText([c]);
    }
    if Server(connect, u) && (IsServerChar(c) || (c == '@' && !EndsWithAt(u))) {
      var v, w: Url :| AtServer(connect, v) && ServerText(w) && u == v + w;
      LastPart(v, w, u);
      var more := w + [c];
      assert more[|w|] == c && forall k :: 0 <= k < |w| ==> more[k] == w[k];
      assert ServerText(more);
      assert u + [c] == v + (w + [c]);
    }
  }

  // ---------------------------------------------------------------- the parser's states

  /** The state after some characters of a target. */
  function UrlState(connect: bool, u: Url): State
    decreases |u|
  {
    if u == [] then (if connect then ReqServerStart else ReqSpacesBeforeUrl)
    else ParseUrlChar(UrlState(connect, u[..|u| - 1]), u[|u| - 1])
  }

  /** Each state has its language. */
  ghost predicate Fits(connect: bool, u: Url, s: State) {
    && (s.ReqSpacesBeforeUrl? <==> !connect && u == [])
    && (s.ReqSchema? <==> Scheme(connect, u))
    && (s.ReqSchemaSlash? <==> AfterColon(connect, u))
    && (s.ReqSchemaSlashSlash? <==> AfterSlash(connect, u))
    && (s.ReqServerStart? <==> AtServer(connect, u))
    && (s.ReqServer? <==> Server(connect, u) && !EndsWithAt(u))
    && (s.ReqServerWithAt? <==> Server(connect, u) && EndsWithAt(u))
    && (s.ReqPath? <==> Path(connect, u))
    && (s.ReqQueryStringStart? || s.ReqQueryString? <==> Query(connect, u))
    && (s.ReqFragmentStart? || s.ReqFragment? <==> Fragment(connect, u))
  }

  /** One more character keeps each state with its language. */
  lemma FitsMore(connect: bool, u: Url, c: Byte, s: State)
    requires Fits(connect, u, s) && (u == [] ==> s == if connect then ReqServerStart else ReqSpacesBeforeUrl)
    requires s.Dead? || IsUrlState(s) || s.ReqSpacesBeforeUrl?
    ensures Fits(connect, u + [c], ParseUrlChar(s, c))
  {
    hide Scheme, AfterColon, AfterSlash, AtServer, Server, Path, Query, Fragment, PathStart, QueryStart, FragmentStart;
    hide IsAlpha, IsUrlChar, IsUserinfoChar, IsServerChar, IsLetter, IsPathChar;
    SchemeMore(connect, u, c);
    ServerMore(connect, u, c);
    EndsMore(connect, u, c);
    StarsMore(connect, u, c);
    Letters(c);
    Visible(c);
    Signs();
    assert EndsWithAt(u + [c]) <==> c == '@';
  }

  lemma {:induction false} UrlFits(connect: bool, u: Url)
    ensures Fits(connect, u, UrlState(connect, u))
    ensures u != [] ==> UrlState(connect, u).Dead? || IsUrlState(UrlState(connect, u))
    decreases |u|
  {
    if u == [] {
      NothingFits(connect);
    } else {
      var u0 := u[..|u| - 1];
      UrlFits(connect, u0);
      FitsMore(connect, u0, u[|u| - 1], UrlState(connect, u0));
      assert u0 + [u[|u| - 1]] == u;
    }
  }

  lemma NothingFits(connect: bool)
    ensures Fits(connect, [], if connect then ReqServerStart else ReqSpacesBeforeUrl)
  {
  }

  // ---------------------------------------------------------------- reading a target

  /** Between the method and the version, after some characters of the target. */
  ghost predicate InTarget(p: Parser, u: Url, q: Parser) {
    && q.state == UrlState(p.verb == CONNECT, u) && q == p.(state := q.state, nread := p.nread + |u|)
    && !q.state.Dead?
  }

  lemma TargetByte(p: Parser, u: Url, q: Parser, c: Byte)
    requires p.state.ReqSpacesBeforeUrl? && q.nread < MAX_HEADER_SIZE
    requires if u == [] then q == p else InTarget(p, u, q) && IsUrlState(q.state)
    requires !ParseUrlChar(UrlState(p.verb == CONNECT, u), c).Dead?
    ensures Step(q, c).Running? && Step(q, c).events == [Data(URL, c)] && InTarget(p, u + [c], Step(q, c).p)
  {
    hide ParseUrlChar;
    var s := ParseUrlChar(UrlState(p.verb == CONNECT, u), c);
    ParsedIsVisible(UrlState(p.verb == CONNECT, u), c);
    var k := q.(nread := q.nread + 1);
    assert (u + [c])[..|u|] == u;
    TargetPass(k, p.verb == CONNECT, u, c);
    HeadByte(q, c, k.(state := s), []);
    assert Carried(q.state, c) + [] == [Data(URL, c)];
  }

  lemma ParsedIsVisible(s: State, c: Byte)
    requires !ParseUrlChar(s, c).Dead?
    ensures c != ' ' && c != CR && c != LF
  {
  }

  lemma TargetPass(k: Parser, connect: bool, u: Url, c: Byte)
    requires connect == (k.verb == CONNECT) && !ParseUrlChar(UrlState(connect, u), c).Dead?
    requires if u == [] then k.state.ReqSpacesBeforeUrl? else k.state == UrlState(connect, u) && IsUrlState(k.state)
    ensures var pass := Switch(k, c);
            && pass.Go? && !pass.again && pass.notes == []
            && pass.p == k.(state := ParseUrlChar(UrlState(connect, u), c))
  {
    hide ParseUrlChar;
    ParsedIsVisible(UrlState(connect, u), c);
  }

  /** A target is reported whole, unless the parser stops inside it. */
  lemma {:induction false} RunTarget(p: Parser, u: Url)
    requires p.state.ReqSpacesBeforeUrl? && p.nread + |u| <= MAX_HEADER_SIZE && !UrlState(p.verb == CONNECT, u).Dead?
    requires u != []
    ensures Run(p, u).Running? && Run(p, u).events == Tagged(URL, u) && InTarget(p, u, Run(p, u).p)
    ensures IsUrlState(Run(p, u).p.state)
    decreases |u|
  {
    hide Step, ParseUrlChar;
    var u0, c := u[..|u| - 1], u[|u| - 1];
    assert u == u0 + [c];
    TaggedOneMore(URL, u);
    UrlFits(p.verb == CONNECT, u);
    DeadStays(UrlState(p.verb == CONNECT, u0), c);
    if u0 == [] {
      assert u == [c];
      TargetByte(p, [], p, c);
      RunOne(p, c);
    } else {
      RunTarget(p, u0);
      var q := Run(p, u0).p;
      TargetByte(p, u0, q, c);
      RunMore(p, u0, q, Tagged(URL, u0), c, Step(q, c).p, [Data(URL, c)]);
    }
  }

  lemma DeadStays(s: State, c: Byte)
    requires !ParseUrlChar(s, c).Dead?
    ensures !s.Dead?
  {
  }

  lemma DeadByte(p: Parser, u: Url, q: Parser, c: Byte)
    requires p.state.ReqSpacesBeforeUrl? && c != ' ' && c != CR && c != LF
    requires if u == [] then q == p else InTarget(p, u, q) && IsUrlState(q.state)
    requires ParseUrlChar(UrlState(p.verb == CONNECT, u), c).Dead?
    ensures !Step(q, c).Running?
  {
    hide ParseUrlChar;
    var k := Counted(q);
    assert Switch(k, c) == Stop(INVALID_URL);
  }

  lemma {:induction false} RunningIsParsed(p: Parser, u: Url)
    requires p.state.ReqSpacesBeforeUrl? && p.nread + |u| <= MAX_HEADER_SIZE && Run(p, u).Running? && u != []
    requires ' ' !in u && CR !in u && LF !in u
    ensures !UrlState(p.verb == CONNECT, u).Dead?
    decreases |u|
  {
    hide Step, ParseUrlChar;
    var u0, c := u[..|u| - 1], u[|u| - 1];
    assert u == u0 + [c] && c in u;
    RunSnoc(p, u0, c);
    if ParseUrlChar(UrlState(p.verb == CONNECT, u0), c).Dead? {
      if u0 != [] {
        assert forall d :: d in u0 ==> d in u;
        RunningIsParsed(p, u0);
        RunTarget(p, u0);
        DeadByte(p, u0, Run(p, u0).p, c);
      } else {
        DeadByte(p, [], p, c);
      }
    }
  }

  lemma SpaceBehind(q: Parser, connect: bool, u: Url)
    requires q.state == UrlState(connect, u) && IsUrlState(q.state) && q.nread < MAX_HEADER_SIZE
    ensures Target(connect, u) ==> Step(q, ' ') == Running(q.(state := ReqHttpStart, nread := q.nread + 1), [])
    ensures !Target(connect, u) ==> !Step(q, ' ').Running?
  {
    hide Server, Path, Query, Fragment, Scheme, AfterColon, AfterSlash, AtServer, UrlState;
    UrlFits(connect, u);
    var c := q.(nread := q.nread + 1);
    SpacePass(c);
    if Target(connect, u) {
      HeadByte(q, ' ', c.(state := ReqHttpStart), []);
    }
  }

  lemma SpacePass(c: Parser)
    requires IsUrlState(c.state)
    ensures var open := c.state.ReqSchema? || c.state.ReqSchemaSlash? || c.state.ReqSchemaSlashSlash?
                        || c.state.ReqServerStart?;
            Switch(c, ' ') == if open then Stop(INVALID_URL)
              else Go(c.(state := ReqHttpStart), None, Some(URL), [], false)
  {
  }

  /** Up to the space behind it, the parser goes on exactly when the text is a target; it then has told all of it. */
  lemma TargetIff(p: Parser, u: Url)
    requires p.state.ReqSpacesBeforeUrl? && p.nread + |u| < MAX_HEADER_SIZE && u != []
    requires ' ' !in u && CR !in u && LF !in u
    ensures Run(p, u + [' ']).Running? <==> Target(p.verb == CONNECT, u)
    ensures Target(p.verb == CONNECT, u) ==>
              Run(p, u + [' ']) == Running(p.(state := ReqHttpStart, nread := p.nread + |u| + 1), Tagged(URL, u))
  {
    hide Step, Target, UrlState;
    RunSnoc(p, u, ' ');
    if Run(p, u).Running? {
      RunningIsParsed(p, u);
    }
    if Target(p.verb == CONNECT, u) {
      TargetLives(p.verb == CONNECT, u);
    }
    if !UrlState(p.verb == CONNECT, u).Dead? {
      RunTarget(p, u);
      SpaceBehind(Run(p, u).p, p.verb == CONNECT, u);
      assert Tagged(URL, u) + [] == Tagged(URL, u);
    }
  }

  lemma TargetLives(connect: bool, u: Url)
    requires Target(connect, u)
    ensures !UrlState(connect, u).Dead?
  {
    UrlFits(connect, u);
  }
}
