/**
 What an escaped string of lib/crow/include/crow/json.h stands for, told without the unescaper: by the escapes of
 RFC 8259, section 7, and by the byte ranges of UTF-8 in RFC 3629, section 3.
 */
module JsonUnicode {
  import opened Bytes
  import opened Common
  import opened JsonText

  // ---------------------------------------------------------------- UTF-8

  predicate Continues(c: Byte) { 0x80 <= c as int < 0xC0 }

  function Low(c: Byte): int { c as int - 0x80 }

  /** The first character number of some bytes and how many bytes it takes, as the lead byte has it. */
  function FirstCode(s: Text): Option<(int, nat)> {
    if s == [] then None
    else
      var b := s[0] as int;
      if b < 0x80 then Some((b, 1))
      else if b < 0xC0 then None
      else if b < 0xE0 then
        if |s| >= 2 && Continues(s[1]) then Some(((b - 0xC0) * 0x40 + Low(s[1]), 2)) else None
      else if b < 0xF0 then
        if |s| >= 3 && Continues(s[1]) && Continues(s[2])
        then Some((((b - 0xE0) * 0x40 + Low(s[1])) * 0x40 + Low(s[2]), 3)) else None
      else if b < 0xF8 then
        if |s| >= 4 && Continues(s[1]) && Continues(s[2]) && Continues(s[3])
        then Some(((((b - 0xF0) * 0x40 + Low(s[1])) * 0x40 + Low(s[2])) * 0x40 + Low(s[3]), 4)) else None
      else None
  }

  /** These bytes decode to the number, and no fewer do. */
  ghost predicate IsUtf8(s: Text, code: int) {
    && FirstCode(s) == Some((code, |s|))
    && forall t: Text :: FirstCode(t) == Some((code, |t|)) ==> |s| <= |t|
  }

  /** The bytes written for a code decode to it, whatever is behind them, and there is no other way in as few. */
  lemma Utf8Decodes(code: nat, rest: Text)
    requires code < 0x10000
    ensures IsUtf8(Utf8(code), code) && FirstCode(Utf8(code) + rest) == Some((code, |Utf8(code)|))
    ensures forall t: Text :: IsUtf8(t, code) ==> t == Utf8(code)
  {
    hide Utf8, FirstCode;
    var u := Utf8(code);
    Utf8First(code, rest);
    Utf8First(code, []);
    assert u + [] == u;
    forall t: Text | FirstCode(t) == Some((code, |t|))
      ensures |u| <= |t| && (|t| == |u| ==> t == u)
    {
      Utf8IsShortest(code, t);
    }
    forall t: Text | IsUtf8(t, code)
      ensures t == u
    {
      assert |t| <= |u|;
    }
  }

  lemma Utf8First(code: nat, rest: Text)
    requires code < 0x10000
    ensures FirstCode(Utf8(code) + rest) == Some((code, |Utf8(code)|))
  {
    var u := Utf8(code);
    var v := u + rest;
    assert forall k :: 0 <= k < |u| ==> v[k] == u[k];
  }

  lemma Utf8IsShortest(code: nat, t: Text)
    requires code < 0x10000 && FirstCode(t) == Some((code, |t|))
    ensures |Utf8(code)| <= |t| && (|t| == |Utf8(code)| ==> t == Utf8(code))
  {
    if |t| == 3 {
      ThreeParts(t[0] as int - 0xE0, Low(t[1]), Low(t[2]));
    } else if |t| == 2 {
      ThreeParts(0, t[0] as int - 0xC0, Low(t[1]));
    }
  }

  lemma ThreeParts(x: nat, y: nat, z: nat)
    requires y < 0x40 && z < 0x40
    ensures var n := (x * 0x40 + y) * 0x40 + z;
            n / 0x1000 == x && n / 0x40 == x * 0x40 + y && (n / 0x40) % 0x40 == y && n % 0x40 == z
  {
  }

  // ---------------------------------------------------------------- escapes

  const LOWER: seq<Byte> := ['0', '1', '2', '3', '4', '5', '6', '7', '8', '9', 'a', 'b', 'c', 'd', 'e', 'f']
  const UPPER: seq<Byte> := ['0', '1', '2', '3', '4', '5', '6', '7', '8', '9', 'A', 'B', 'C', 'D', 'E', 'F']

  /** A digit in either letter case. */
  predicate IsDigitFor(c: Byte, d: nat) { d < 16 && (c == LOWER[d] || c == UPPER[d]) }

  lemma DigitIff(c: Byte, d: nat)
    ensures IsDigitFor(c, d) <==> IsHex(c) && FromHex(c) == d
  {
  }

  lemma HexIsDigit(c: Byte)
    requires IsHex(c)
    ensures 0 <= FromHex(c) < 16 && IsDigitFor(c, FromHex(c))
  {
    DigitIff(c, FromHex(c));
  }

  /** Four digits spell a number. */
  ghost predicate Spells(s: Text, n: int) {
    && |s| == 4
    && exists a: nat, b: nat, c: nat, d: nat ::
         && IsDigitFor(s[0], a) && IsDigitFor(s[1], b) && IsDigitFor(s[2], c) && IsDigitFor(s[3], d)
         && n == ((a * 16 + b) * 16 + c) * 16 + d
  }

  lemma SpellsIff(s: Text, n: int)
    requires |s| == 4
    ensures Spells(s, n) <==> FourHex(s, 0) && CodeOf(s, 0) == n
  {
    hide IsDigitFor, IsHex, FromHex;
    forall c: Byte, d: nat
      ensures IsDigitFor(c, d) <==> IsHex(c) && FromHex(c) == d
    {
      DigitIff(c, d);
    }
    if FourHex(s, 0) && CodeOf(s, 0) == n {
      var a, b, c, d := FromHex(s[0]), FromHex(s[1]), FromHex(s[2]), FromHex(s[3]);
      HexIsDigit(s[0]);
      HexIsDigit(s[1]);
      HexIsDigit(s[2]);
      HexIsDigit(s[3]);
      assert n == ((a * 16 + b) * 16 + c) * 16 + d;
    }
  }

  /** The letters behind a backslash, and the numbers of the characters they stand for. */
  const LETTERS: seq<Byte> := ['"', '\\', '/', 'b', 'f', 'n', 'r', 't']
  const CODES: seq<int> := [0x22, 0x5C, 0x2F, 0x08, 0x0C, 0x0A, 0x0D, 0x09]

  lemma LettersIff(c: Byte, b: Byte)
    ensures SimpleEscape(c) == Some(b) <==> exists k :: 0 <= k < 8 && LETTERS[k] == c && CODES[k] == b as int
  {
    var k := if c == '"' then 0 else if c == '\\' then 1 else if c == '/' then 2 else if c == 'b' then 3
             else if c == 'f' then 4 else if c == 'n' then 5 else if c == 'r' then 6 else 7;
    assert SimpleEscape(c) == Some(b) ==> LETTERS[k] == c && CODES[k] == b as int;
  }

  /** A piece of an escaped string: a byte by itself, a letter behind a backslash, or four digits behind `\u`. */
  datatype Piece = Plain(c: Byte) | Short(letter: Byte) | Code(digits: Text)

  function Spelled(p: Piece): Text {
    match p case Plain(c) => [c] case Short(letter) => ['\\', letter] case Code(digits) => ['\\', 'u'] + digits
  }

  ghost predicate Stands(p: Piece, t: Text) {
    match p
    case Plain(c) => c != '\\' && t == [c]
    case Short(letter) => |t| == 1 && exists k :: 0 <= k < 8 && LETTERS[k] == letter && CODES[k] == t[0] as int
    case Code(digits) => |digits| == 4 && exists code :: Spells(digits, code) && IsUtf8(t, code)
  }

  type Reading = seq<(Piece, Text)>

  ghost predicate Sound(ps: Reading) { forall k :: 0 <= k < |ps| ==> Stands(ps[k].0, ps[k].1) }

  function Written(ps: Reading): Text { if ps == [] then [] else Spelled(ps[0].0) + Written(ps[1..]) }

  function Meant(ps: Reading): Text { if ps == [] then [] else ps[0].1 + Meant(ps[1..]) }

  ghost predicate Reads(ps: Reading, raw: Text, t: Text) { Sound(ps) && Written(ps) == raw && Meant(ps) == t }

  /** The text consists of pieces, and what they stand for makes up t. */
  ghost predicate StandsFor(raw: Text, t: Text) { exists ps :: Reads(ps, raw, t) }

  lemma FourDigits(s: Text, i: nat)
    requires i + 4 <= |s|
    ensures FourHex(s, i) <==> FourHex(s[i..i + 4], 0)
    ensures FourHex(s, i) ==> CodeOf(s, i) == CodeOf(s[i..i + 4], 0)
  {
    var d := s[i..i + 4];
    assert d[0] == s[i] && d[1] == s[i + 1] && d[2] == s[i + 2] && d[3] == s[i + 3];
  }

  lemma CodeIsUnit(s: Text, digits: Text, t: Text)
    requires Stands(Code(digits), t) && |s| >= 6 && s[2..6] == digits
    ensures FourHex(s, 2) && Utf8(CodeOf(s, 2)) == t
  {
    hide IsUtf8, Utf8;
    var code :| Spells(digits, code) && IsUtf8(t, code);
    SpellsIff(digits, code);
    FourDigits(s, 2);
    Utf8Decodes(code, []);
  }

  /** A piece in front is the first unit. */
  lemma PieceIsUnit(p: Piece, t: Text, rest: Text)
    requires Stands(p, t)
    ensures UnitLength(Spelled(p) + rest, 0) == |Spelled(p)| && UnitValue(Spelled(p) + rest, 0) == t
    ensures (Spelled(p) + rest)[|Spelled(p)|..] == rest
  {
    hide Spells, IsUtf8, FirstCode, Utf8, SimpleEscape, CodeOf, FourHex;
    var s := Spelled(p) + rest;
    match p {
      case Plain(_) =>
      case Short(letter) =>
        LettersIff(letter, t[0]);
        LettersIff('u', t[0]);
      case Code(digits) =>
        assert s[1] == 'u' && s[2..6] == digits;
        CodeIsUnit(s, digits, t);
    }
  }

  lemma CodeStands(s: Text)
    requires FourHex(s, 2)
    ensures Stands(Code(s[2..6]), Utf8(CodeOf(s, 2)))
  {
    hide IsUtf8, Utf8;
    FourDigits(s, 2);
    SpellsIff(s[2..6], CodeOf(s, 2));
    Utf8Decodes(CodeOf(s, 2), []);
  }

  /** The first unit is a piece. */
  lemma UnitIsPiece(s: Text) returns (p: Piece)
    requires s != [] && UnitLength(s, 0) != 0
    ensures Stands(p, UnitValue(s, 0)) && Spelled(p) == s[..UnitLength(s, 0)]
  {
    hide Spells, IsUtf8, FirstCode, Utf8, SimpleEscape, CodeOf, FourHex;
    if s[0] != '\\' {
      p := Plain(s[0]);
    } else if s[1] == 'u' {
      p := Code(s[2..6]);
      CodeStands(s);
      assert s[..6] == ['\\', 'u'] + s[2..6];
    } else {
      p := Short(s[1]);
      LettersIff(s[1], UnitValue(s, 0)[0]);
      assert s[..2] == ['\\', s[1]];
    }
  }

  lemma {:induction false} ReadingIsUnescaped(ps: Reading)
    requires Sound(ps)
    ensures WellEscaped(Written(ps), 0) && Unescape(Written(ps), 0) == Meant(ps)
    decreases |ps|
  {
    if ps != [] {
      var rest := Written(ps[1..]);
      ReadingIsUnescaped(ps[1..]);
      PieceIsUnit(ps[0].0, ps[0].1, rest);
      WellEscapedSuffix(Spelled(ps[0].0) + rest, |Spelled(ps[0].0)|, rest);
    }
  }

  lemma {:induction false} OneMorePiece(p: Piece, value: Text, rest: Reading, raw: Text, t: Text)
    requires Stands(p, value) && Reads(rest, raw, t)
    ensures Reads([(p, value)] + rest, Spelled(p) + raw, value + t)
  {
    hide Stands, Spelled;
    var ps := [(p, value)] + rest;
    assert ps[1..] == rest;
    assert Sound(ps);
  }

  lemma {:induction false} UnescapedIsReading(raw: Text) returns (ps: Reading)
    requires WellEscaped(raw, 0)
    ensures Reads(ps, raw, Unescape(raw, 0))
    decreases |raw|
  {
    hide Stands, Spelled, UnitLength, UnitValue;
    if raw == [] {
      ps := [];
    } else {
      var n, value := UnitLength(raw, 0), UnitValue(raw, 0);
      var p := UnitIsPiece(raw);
      WellEscapedSuffix(raw, n, raw[n..]);
      var rest := UnescapedIsReading(raw[n..]);
      ps := [(p, value)] + rest;
      OneMorePiece(p, value, rest, raw[n..], Unescape(raw[n..], 0));
      assert raw == raw[..n] + raw[n..];
    }
  }

  /** The unescaper accepts exactly the strings that consist of pieces, and gives what they stand for. */
  lemma UnescapeIff(raw: Text, t: Text)
    ensures WellEscaped(raw, 0) && Unescape(raw, 0) == t <==> StandsFor(raw, t)
  {
    if WellEscaped(raw, 0) {
      var ps := UnescapedIsReading(raw);
    }
    if StandsFor(raw, t) {
      var ps :| Reads(ps, raw, t);
      ReadingIsUnescaped(ps);
    }
  }

  /** Four digits, in either letter case, become bytes that decode to the number they spell. */
  lemma DigitsDecode(digits: Text, code: int, rest: Text)
    requires Spells(digits, code) && WellEscaped(rest, 0)
    ensures var raw := ['\\', 'u'] + digits + rest;
            && WellEscaped(raw, 0)
              && FirstCode(Unescape(raw, 0)) == Some((code, |Unescape(raw, 0)| - |Unescape(rest, 0)|))
            && Unescape(raw, 0)[|Unescape(raw, 0)| - |Unescape(rest, 0)|..] == Unescape(rest, 0)
  {
    hide Utf8, IsUtf8, FirstCode;
    SpellsIff(digits, code);
    var u := Utf8(code);
    Utf8Decodes(code, Unescape(rest, 0));
    PieceIsUnit(Code(digits), u, rest);
    WellEscapedSuffix(['\\', 'u'] + digits + rest, 6, rest);
  }

  // ---------------------------------------------------------------- surrogates

  predicate IsSurrogate(code: int) { 0xD800 <= code < 0xE000 }

  /** What RFC 3629 admits: characters in as few bytes as they need, and no surrogates. */
  predicate ValidUtf8(s: Text)
    decreases |s|
  {
    s == []
    || match FirstCode(s)
       case None => false
       case Some((code, n)) =>
         n == MinimalSize(code) && code < 0x110000 && !IsSurrogate(code) && n <= |s| && ValidUtf8(s[n..])
  }

  function MinimalSize(code: int): (n: nat)
    ensures 1 <= n
  {
    if code < 0x80 then 1 else if code < 0x800 then 2 else if code < 0x10000 then 3 else 4
  }

  /** A piece that is a surrogate, as four digits. */
  ghost predicate SpellsSurrogate(p: Piece) { p.Code? && exists code :: Spells(p.digits, code) && IsSurrogate(code) }

  ghost predicate AnySurrogate(ps: Reading) { exists k :: 0 <= k < |ps| && SpellsSurrogate(ps[k].0) }

  predicate Ascii(ps: Reading) { forall k :: 0 <= k < |ps| && ps[k].0.Plain? ==> ps[k].0.c as int < 0x80 }

  lemma PieceDecodes(p: Piece, t: Text, rest: Text)
    requires Stands(p, t) && (p.Plain? ==> p.c as int < 0x80)
    ensures var r := FirstCode(t + rest);
            && r.Some? && r.value.1 == |t| == MinimalSize(r.value.0) && r.value.0 < 0x10000
            && (IsSurrogate(r.value.0) <==> SpellsSurrogate(p))
    ensures (t + rest)[|t|..] == rest
  {
    match p {
      case Plain(_) =>
      case Short(letter) =>
      case Code(digits) =>
        hide Utf8, FirstCode, IsUtf8;
        var code :| Spells(digits, code) && IsUtf8(t, code);
        SpellsIff(digits, code);
        Utf8Decodes(code, rest);
        Utf8HasSize(code);
        SpellOnce(digits, code);
    }
  }

  lemma SpellOnce(digits: Text, code: int)
    requires Spells(digits, code)
    ensures forall n :: Spells(digits, n) ==> n == code
  {
    hide FourHex, CodeOf;
    forall n | Spells(digits, n)
      ensures n == code
    {
      SpellsIff(digits, n);
      SpellsIff(digits, code);
    }
  }

  lemma Utf8HasSize(code: nat)
    requires code < 0x10000
    ensures |Utf8(code)| == MinimalSize(code)
  {
  }

  /** A string written with plain bytes below 0x80 and escapes becomes valid UTF-8 exactly when no escape is a
      surrogate: a pair of them is not joined to the one character it stands for. */
  lemma {:induction false} ValidIffNoSurrogate(ps: Reading)
    requires Sound(ps) && Ascii(ps)
    ensures ValidUtf8(Meant(ps)) <==> !AnySurrogate(ps)
    decreases |ps|
  {
    hide Stands, FirstCode, SpellsSurrogate;
    if ps != [] {
      var t, rest := ps[0].1, Meant(ps[1..]);
      PieceDecodes(ps[0].0, t, rest);
      ValidIffNoSurrogate(ps[1..]);
      if AnySurrogate(ps) && !SpellsSurrogate(ps[0].0) {
        var k :| 0 <= k < |ps| && SpellsSurrogate(ps[k].0);
        assert ps[1..][k - 1] == ps[k];
      }
    }
  }

  const GRINNING_FACE: Text := ['\\', 'u', 'd', '8', '3', 'd', '\\', 'u', 'd', 'e', '0', '0']

  /** RFC 8259, section 7, reads this pair as the one character 0x1F600. */
  lemma PairIsNotJoined()
    ensures WellEscaped(GRINNING_FACE, 0) && !ValidUtf8(Unescape(GRINNING_FACE, 0))
    ensures Unescape(GRINNING_FACE, 0) == Utf8(0xD83D) + Utf8(0xDE00)
  {
    var g := GRINNING_FACE;
    assert CodeOf(g, 2) == 0xD83D && CodeOf(g, 8) == 0xDE00;
    assert Unescape(g, 12) == [];
    assert Unescape(g, 6) == Utf8(0xDE00) + [];
    assert FirstCode(Unescape(g, 0)) == Some((0xD83D, 3)) by {
      Utf8Decodes(0xD83D, Utf8(0xDE00));
    }
  }

  // ---------------------------------------------------------------- printing

  /** No byte below 0x20 and no quote stands by itself. */
  predicate Tame(p: Piece) { p.Plain? ==> p.c as int >= 0x20 && p.c != '"' }

  predicate AllTame(ps: Reading) { forall k :: 0 <= k < |ps| ==> Tame(ps[k].0) }

  lemma {:induction false} EscapeParts(a: Text, b: Text)
    ensures Escape(a + b) == Escape(a) + Escape(b)
    decreases |a|
  {
    hide EscapeByte;
    if a == [] {
      assert a + b == b;
    } else {
      EscapeParts(a[1..], b);
      assert (a + b)[1..] == a[1..] + b;
    }
  }

  /** The escaped form of one piece's meaning is no longer than the piece. */
  lemma PieceIsLonger(p: Piece, t: Text)
    requires Stands(p, t) && Tame(p)
    ensures |Escape(t)| <= |Spelled(p)|
  {
    hide Spells, IsUtf8;
    if !p.Code? {
      EscapeOne(t[0]);
    } else {
      CodeSize(p.digits, t);
      if |t| == 1 {
        EscapeOne(t[0]);
      } else {
        NothingToEscape(t);
      }
    }
  }

  lemma EscapeOne(c: Byte)
    ensures Escape([c]) == EscapeByte(c)
  {
    hide EscapeByte;
    assert Escape([c]) == EscapeByte(c) + Escape([]);
  }

  lemma CodeSize(digits: Text, t: Text)
    requires Stands(Code(digits), t)
    ensures |digits| == 4 && (|t| == 1 || (2 <= |t| <= 3 && forall k :: 0 <= k < |t| ==> t[k] as int >= 0x80))
  {
    hide IsUtf8, Utf8, CodeOf;
    var code :| Spells(digits, code) && IsUtf8(t, code);
    SpellsIff(digits, code);
    assert t == Utf8(code) by {
      Utf8Decodes(code, []);
    }
    Utf8Size(code);
  }

  lemma Utf8Size(code: nat)
    requires code < 0x10000
    ensures |Utf8(code)| == 1
        || (2 <= |Utf8(code)| <= 3 && forall k :: 0 <= k < |Utf8(code)| ==> Utf8(code)[k] as int >= 0x80)
  {
  }

  lemma {:induction false} NothingToEscape(t: Text)
    requires forall k :: 0 <= k < |t| ==> t[k] as int >= 0x80
    ensures Escape(t) == t
    decreases |t|
  {
    if t != [] {
      NothingToEscape(t[1..]);
      assert [t[0]] + t[1..] == t;
    }
  }

  lemma {:induction false} ReadingIsLonger(ps: Reading)
    requires Sound(ps) && AllTame(ps)
    ensures |Escape(Meant(ps))| <= |Written(ps)|
    decreases |ps|
  {
    if ps != [] {
      ReadingIsLonger(ps[1..]);
      PieceIsLonger(ps[0].0, ps[0].1);
      EscapeParts(ps[0].1, Meant(ps[1..]));
    }
  }

  lemma EscapedIsPiece(c: Byte) returns (p: Piece)
    ensures Stands(p, [c]) && Spelled(p) == EscapeByte(c) && Tame(p)
  {
    hide Stands;
    var e := EscapeByte(c);
    OccursSlice(e, 0, e);
    EscapedUnit(e, 0, c);
    p := UnitIsPiece(e);
    assert e[..|e|] == e;
  }

  lemma {:induction false} EscapeIsReading(s: Text) returns (ps: Reading)
    ensures Reads(ps, Escape(s), s) && AllTame(ps)
    decreases |s|
  {
    hide Stands, Spelled, EscapeByte;
    if s == [] {
      ps := [];
    } else {
      var e := EscapeByte(s[0]);
      var rest := EscapeIsReading(s[1..]);
      var p := EscapedIsPiece(s[0]);
      ps := [(p, [s[0]])] + rest;
      OneMorePiece(p, [s[0]], rest, Escape(s[1..]), s[1..]);
      assert [s[0]] + s[1..] == s;
    }
  }

  /** Of all ways to write a string without bare control bytes and quotes, the printed one is the shortest. */
  lemma EscapeIsShortest(s: Text)
    ensures exists ps :: AllTame(ps) && Reads(ps, Escape(s), s)
    ensures forall ps, raw :: AllTame(ps) && Reads(ps, raw, s) ==> |Escape(s)| <= |raw|
  {
    var qs := EscapeIsReading(s);
    forall ps, raw | AllTame(ps) && Reads(ps, raw, s)
      ensures |Escape(s)| <= |raw|
    {
      ReadingIsLonger(ps);
    }
  }
}
