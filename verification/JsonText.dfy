/**
 JSON text in lib/crow/include/crow/json.h: escaping, the meaning of an escaped string, and the parser as a function
 from a text to a value.  Numbers are only recognised.
 */
module JsonText {
  import opened Bytes
  import opened Common

  type Text = seq<Byte>

  datatype Json =
    | JNull | JFalse | JTrue
    | JNumber(text: Text)
    | JString(s: Text)
    | JList(l: seq<Json>)
    | JObject(o: seq<(Text, Json)>)

  // ---------------------------------------------------------------- escaping

  function HexDigit(d: nat): (c: Byte)
    requires d < 16
    ensures IsHex(c) && FromHex(c) == d
  {
    if d < 10 then (d + '0' as int) as char else (d - 10 + 'a' as int) as char
  }

  predicate IsHex(c: Byte) { IsDigit(c) || 'a' <= c <= 'f' || 'A' <= c <= 'F' }

  function FromHex(c: Byte): int {
    if c >= 'a' then c as int - 'a' as int + 10
    else if c >= 'A' then c as int - 'A' as int + 10
    else c as int - '0' as int
  }

  const BACKSPACE: Byte := 8 as char
  const FORM_FEED: Byte := 12 as char

  function EscapeByte(c: Byte): Text {
    if c == '"' then ['\\', '"']
    else if c == '\\' then ['\\', '\\']
    else if c == '\n' then ['\\', 'n']
    else if c == BACKSPACE then ['\\', 'b']
    else if c == FORM_FEED then ['\\', 'f']
    else if c == '\r' then ['\\', 'r']
    else if c == '\t' then ['\\', 't']
    else if c as int < 0x20 then ['\\', 'u', '0', '0', HexDigit(c as int / 16), HexDigit(c as int % 16)]
    else [c]
  }

  function Escape(s: Text): Text { if s == [] then [] else EscapeByte(s[0]) + Escape(s[1..]) }

  // ---------------------------------------------------------------- unescaping

  /** The single-character escapes. */
  function SimpleEscape(c: Byte): Option<Byte> {
    if c == '"' || c == '\\' || c == '/' then Some(c)
    else if c == 'b' then Some(BACKSPACE)
    else if c == 'f' then Some(FORM_FEED)
    else if c == 'n' then Some('\n')
    else if c == 'r' then Some('\r')
    else if c == 't' then Some('\t')
    else None
  }

  predicate FourHex(s: Text, i: nat) {
    i + 4 <= |s| && IsHex(s[i]) && IsHex(s[i + 1]) && IsHex(s[i + 2]) && IsHex(s[i + 3])
  }

  function CodeOf(s: Text, i: nat): (code: nat)
    requires FourHex(s, i)
    ensures code < 0x10000
  {
    FromHex(s[i]) * 4096 + FromHex(s[i + 1]) * 256 + FromHex(s[i + 2]) * 16 + FromHex(s[i + 3])
  }

  /** The bytes written for a code: its UTF-8 form in one to three bytes. */
  function Utf8(code: nat): (r: Text)
    requires code < 0x10000
    ensures 1 <= |r| <= 3
  {
    if code >= 0x800 then
      [(0xE0 + code / 4096) as char, (0x80 + (code / 64) % 64) as char, (0x80 + code % 64) as char]
    else if code >= 0x80 then
      [(0xC0 + code / 64) as char, (0x80 + code % 64) as char]
    else
      [code as char]
  }

  /** How many bytes the escape or the plain byte at i takes; 0 if it is no escape the parser accepts. */
  function UnitLength(s: Text, i: nat): (n: nat)
    requires i < |s|
    ensures i + n <= |s| && n <= 6
  {
    if s[i] != '\\' then 1
    else if i + 1 == |s| then 0
    else if s[i + 1] == 'u' then (if FourHex(s, i + 2) then 6 else 0)
    else if SimpleEscape(s[i + 1]).Some? then 2
    else 0
  }

  function UnitValue(s: Text, i: nat): (r: Text)
    requires i < |s| && UnitLength(s, i) != 0
    ensures 1 <= |r| <= 3 && |r| <= UnitLength(s, i)
  {
    if s[i] != '\\' then [s[i]]
    else if s[i + 1] == 'u' then Utf8(CodeOf(s, i + 2))
    else [SimpleEscape(s[i + 1]).value]
  }

  /** The text from i on consists of plain bytes and accepted escapes. */
  predicate WellEscaped(s: Text, i: nat)
    requires i <= |s|
    decreases |s| - i
  {
    i == |s| || (UnitLength(s, i) != 0 && WellEscaped(s, i + UnitLength(s, i)))
  }

  /** What an escaped text means, from i on. */
  function Unescape(s: Text, i: nat): (r: Text)
    requires i <= |s| && WellEscaped(s, i)
    ensures |r| <= |s| - i
    decreases |s| - i
  {
    if i == |s| then [] else UnitValue(s, i) + Unescape(s, i + UnitLength(s, i))
  }

  /** Without a backslash the text means itself. */
  lemma {:induction false} PlainMeansItself(s: Text, i: nat)
    requires i <= |s| && forall j :: i <= j < |s| ==> s[j] != '\\'
    ensures WellEscaped(s, i) && Unescape(s, i) == s[i..]
    decreases |s| - i
  {
    if i < |s| {
      PlainMeansItself(s, i + 1);
      assert s[i..] == [s[i]] + s[i + 1..];
    }
  }

  /** A piece of text stands at a position. */
  predicate Occurs(text: Text, i: nat, s: Text)
    decreases |s|
  {
    s == [] || (i < |text| && text[i] == s[0] && Occurs(text, i + 1, s[1..]))
  }

  lemma {:induction false} OccursParts(text: Text, i: nat, a: Text, b: Text)
    ensures Occurs(text, i, a + b) <==> Occurs(text, i, a) && Occurs(text, i + |a|, b)
    decreases |a|
  {
    if a == [] {
      assert a + b == b;
    } else {
      OccursParts(text, i + 1, a[1..], b);
      assert (a + b)[1..] == a[1..] + b;
    }
  }

  lemma {:induction false} OccursAt(text: Text, i: nat, s: Text, j: nat)
    requires Occurs(text, i, s) && j < |s|
    ensures i + j < |text| && text[i + j] == s[j]
    decreases j
  {
    if j > 0 {
      OccursAt(text, i + 1, s[1..], j - 1);
    }
  }

  /** It stands there as a slice. */
  lemma {:induction false} OccursSlice(text: Text, i: nat, s: Text)
    requires i <= |text|
    ensures Occurs(text, i, s) <==> i + |s| <= |text| && text[i..i + |s|] == s
    decreases |s|
  {
    if s != [] && i < |text| {
      OccursSlice(text, i + 1, s[1..]);
      assert s == [s[0]] + s[1..];
      if i + |s| <= |text| {
        assert text[i..i + |s|] == [text[i]] + text[i + 1..i + |s|];
        assert text[i..i + |s|] == s ==> text[i + 1..i + |s|] == s[1..];
      }
    }
  }

  /** An escaped byte is one unit that means the byte. */
  lemma {:induction false} EscapedUnit(text: Text, i: nat, c: Byte)
    requires Occurs(text, i, EscapeByte(c))
    ensures UnitLength(text, i) == |EscapeByte(c)| && UnitValue(text, i) == [c]
    ensures text[i] != '"' && text[i] != NUL
  {
    var e := EscapeByte(c);
    OccursAt(text, i, e, 0);
    if |e| == 2 {
      OccursAt(text, i, e, 1);
    } else if |e| == 6 {
      OccursAt(text, i, e, 1);
      OccursAt(text, i, e, 2);
      OccursAt(text, i, e, 3);
      OccursAt(text, i, e, 4);
      OccursAt(text, i, e, 5);
      assert CodeOf(text, i + 2) == (c as int / 16) * 16 + c as int % 16;
    }
  }

  // ---------------------------------------------------------------- the grammar of the parser

  /** The buffer ends with a NUL. */
  function At(text: Text, i: nat): Byte { if i < |text| then text[i] else NUL }

  function WsSkip(text: Text, i: nat): (j: nat)
    requires i <= |text|
    ensures i <= j <= |text|
    decreases |text| - i
  {
    var c := At(text, i);
    if c == ' ' || c == '\t' || c == '\r' || c == '\n' then WsSkip(text, i + 1) else i
  }

  /** The position of the quote that ends a string whose content starts at i. */
  function StringEnd(text: Text, i: nat): (r: Option<nat>)
    requires i <= |text|
    ensures r.Some? ==> i <= r.value < |text| && text[r.value] == '"'
    decreases |text| - i
  {
    var c := At(text, i);
    if c == '"' then Some(i)
    else if c == NUL then None
    else if UnitLength(text, i) == 0 then None
    else StringEnd(text, i + UnitLength(text, i))
  }

  /** The content of an accepted string is well escaped. */
  lemma {:induction false} ContentIsWellEscaped(text: Text, i: nat)
    requires i <= |text| && StringEnd(text, i).Some?
    ensures WellEscaped(text[i..StringEnd(text, i).value], 0)
    decreases |text| - i
  {
    var end := StringEnd(text, i).value;
    if i < end {
      var n := UnitLength(text, i);
      ContentIsWellEscaped(text, i + n);
      UnitInside(text, i, end);
      WellEscapedSuffix(text[i..end], n, text[i + n..end]);
    }
  }

  lemma {:induction false} UnitInside(text: Text, i: nat, end: nat)
    requires i < end <= |text| && UnitLength(text, i) != 0 && i + UnitLength(text, i) <= end
    ensures UnitLength(text[i..end], 0) == UnitLength(text, i) && UnitValue(text[i..end], 0) == UnitValue(text, i)
    ensures text[i..end][UnitLength(text, i)..] == text[i + UnitLength(text, i)..end]
  {
    var s := text[i..end];
    assert forall k :: 0 <= k < |s| ==> s[k] == text[i + k];
  }

  lemma {:induction false} UnitShift(s: Text, n: nat, t: Text, i: nat)
    requires n <= |s| && s[n..] == t && i < |t|
    ensures UnitLength(s, n + i) == UnitLength(t, i)
    ensures UnitLength(t, i) != 0 ==> UnitValue(s, n + i) == UnitValue(t, i)
  {
    assert forall k :: 0 <= k < |t| ==> t[k] == s[n + k];
  }

  /** Reading from a position is reading the rest from its start. */
  lemma {:induction false} UnescapeShift(s: Text, n: nat, t: Text, i: nat)
    requires n <= |s| && s[n..] == t && i <= |t|
    ensures WellEscaped(s, n + i) <==> WellEscaped(t, i)
    ensures WellEscaped(t, i) ==> Unescape(s, n + i) == Unescape(t, i)
    decreases |t| - i
  {
    if i < |t| {
      UnitShift(s, n, t, i);
      if UnitLength(t, i) != 0 {
        UnescapeShift(s, n, t, i + UnitLength(t, i));
      }
    }
  }

  lemma {:induction false} WellEscapedSuffix(s: Text, n: nat, t: Text)
    requires s != [] && n == UnitLength(s, 0) != 0 && s[n..] == t
    ensures WellEscaped(s, 0) <==> WellEscaped(t, 0)
    ensures WellEscaped(t, 0) ==> Unescape(s, 0) == UnitValue(s, 0) + Unescape(t, 0)
  {
    UnescapeShift(s, n, t, 0);
  }

  /** The automaton for numbers: Minus, AfterMinus, ZeroFirst, Digits, DigitsAfterPoints, E, DigitsAfterE are 0 to
      6, and 7 is Invalid.  None is a character that ends the number. */
  function NumberStep(state: nat, c: Byte): (r: Option<nat>)
    requires state < 7
    ensures r.Some? ==> r.value <= 7
  {
    if c == '0' then Some([2, 2, 7, 3, 4, 6, 6][state])
    else if '1' <= c <= '9' then Some([3, 3, 7, 3, 4, 6, 6][state])
    else if c == '.' then Some([7, 7, 4, 4, 7, 7, 7][state])
    else if c == '-' then Some([1, 7, 7, 7, 7, 6, 7][state])
    else if c == '+' then Some([7, 7, 7, 7, 7, 6, 7][state])
    else if c == 'e' || c == 'E' then Some([7, 7, 7, 5, 5, 7, 7][state])
    else None
  }

  function NumberEnd(text: Text, i: nat, state: nat): (r: Option<nat>)
    requires i <= |text| && state <= 7
    ensures r.Some? ==> i <= r.value <= |text|
    decreases |text| - i
  {
    if state == 7 then None
    else
      match NumberStep(state, At(text, i))
      case None => if state == 2 || state == 3 || state == 4 || state == 6 then Some(i) else None
      case Some(next) => NumberEnd(text, i + 1, next)
  }

  /** A value and the position behind it. */
  type Parse = Option<(Json, nat)>

  /** A string with its quotes. */
  function ParseString(text: Text, i: nat): (r: Option<(Text, nat)>)
    requires i <= |text|
    ensures r.Some? ==> i < r.value.1 <= |text|
  {
    if At(text, i) != '"' then None
    else
      match StringEnd(text, i + 1)
      case None => None
      case Some(end) =>
        ContentIsWellEscaped(text, i + 1);
        Some((Unescape(text[i + 1..end], 0), end + 1))
  }

  function ParseValue(text: Text, i: nat): (r: Parse)
    requires i <= |text|
    ensures r.Some? ==> i <= r.value.1 <= |text|
    decreases |text| - i, 1
  {
    var c := At(text, i);
    if c == '[' then
      var j := WsSkip(text, i + 1);
      if At(text, j) == ']' then Some((JList([]), j + 1)) else ParseItems(text, j, [])
    else if c == '{' then
      var j := WsSkip(text, i + 1);
      if At(text, j) == '}' then Some((JObject([]), j + 1)) else ParseFields(text, j, [])
    else if c == '"' then
      match ParseString(text, i) case None => None case Some((s, end)) => Some((JString(s), end))
    else if c == 't' then
      if At(text, i + 1) == 'r' && At(text, i + 2) == 'u' && At(text, i + 3) == 'e' then Some((JTrue, i + 4)) else None
    else if c == 'f' then
      if At(text, i + 1) == 'a' && At(text, i + 2) == 'l' && At(text, i + 3) == 's' && At(text, i + 4) == 'e'
      then Some((JFalse, i + 5)) else None
    else if c == 'n' then
      if At(text, i + 1) == 'u' && At(text, i + 2) == 'l' && At(text, i + 3) == 'l' then Some((JNull, i + 4)) else None
    else
      match NumberEnd(text, i, 0) case None => None case Some(end) => Some((JNumber(text[i..end]), end))
  }

  /** The loop of decode_list, with the values so far. */
  function ParseItems(text: Text, i: nat, sofar: seq<Json>): (r: Parse)
    requires i <= |text|
    ensures r.Some? ==> i <= r.value.1 <= |text|
    decreases |text| - i, 2
  {
    match ParseValue(text, i)
    case None => None
    case Some((v, end)) =>
      var j := WsSkip(text, end);
      if At(text, j) == ']' then Some((JList(sofar + [v]), j + 1))
      else if At(text, j) != ',' then None
      else ParseItems(text, WsSkip(text, j + 1), sofar + [v])
  }

  /** A name and the colon behind it: the name, and where its value starts. */
  function NameEnd(text: Text, i: nat): (r: Option<(Text, nat)>)
    requires i <= |text|
    ensures r.Some? ==> i < r.value.1 <= |text|
  {
    match ParseString(text, i)
    case None => None
    case Some((key, end)) =>
      var colon := WsSkip(text, end);
      if At(text, colon) != ':' then None else Some((key, WsSkip(text, colon + 1)))
  }

  /** A name, a colon and a value. */
  function ParseField(text: Text, i: nat): (r: Option<((Text, Json), nat)>)
    requires i <= |text|
    ensures r.Some? ==> i < r.value.1 <= |text|
    decreases |text| - i, 2
  {
    match NameEnd(text, i)
    case None => None
    case Some((key, at)) =>
      (match ParseValue(text, at) case None => None case Some((v, end)) => Some(((key, v), end)))
  }

  /** The loop of decode_object. */
  function ParseFields(text: Text, i: nat, sofar: seq<(Text, Json)>): (r: Parse)
    requires i <= |text|
    ensures r.Some? ==> i <= r.value.1 <= |text|
    decreases |text| - i, 3
  {
    match ParseField(text, i)
    case None => None
    case Some((field, end)) =>
      var j := WsSkip(text, end);
      if At(text, j) == '}' then Some((JObject(sofar + [field]), j + 1))
      else if At(text, j) != ',' then None
      else ParseFields(text, WsSkip(text, j + 1), sofar + [field])
  }

  /** One turn of the loop of decode_object. */
  lemma {:induction false} FieldsTurnIs(text: Text, i: nat, sofar: seq<(Text, Json)>, closed: bool, more: bool,
      next: nat)
    requires i <= |text| && ParseField(text, i).Some?
    requires var j := WsSkip(text, ParseField(text, i).value.1);
             && closed == (At(text, j) == '}') && more == (At(text, j) == ',')
             && (closed ==> next == j + 1) && (more ==> next == WsSkip(text, j + 1))
    ensures more ==> next <= |text|
    ensures ParseFields(text, i, sofar)
         == (var all := sofar + [ParseField(text, i).value.0];
             if closed then Some((JObject(all), next)) else if more then ParseFields(text, next, all) else None)
  {
  }

  /** `parse`: one value with white space around it, up to the end of the text or its first NUL. */
  function Load(text: Text): Option<Json> {
    match ParseValue(text, WsSkip(text, 0))
    case None => None
    case Some((v, end)) => if At(text, WsSkip(text, end)) == NUL then Some(v) else None
  }
}
