/**
 The texts that the JSON parser of lib/crow/include/crow/json.h accepts, given by a grammar of their own: how a value
 may be written, with the white space in it.  The parser accepts exactly the texts that are written so, and what it
 makes of one is what the grammar says it means.
 */
module JsonGrammar {
  import opened Bytes
  import opened Common
  import opened JsonText

  // ---------------------------------------------------------------- the grammar

  /** A value as it is written. */
  datatype Syntax =
    | Word(v: Json)
    | Digits(text: Text)
    | Quoted(raw: Text)
    | Bracketed(space: Text, items: Items)
    | Braced(space: Text, fields: Fields)

  /** Values with commas between them; `space` is in front of the comma or the bracket, `gap` behind the comma. */
  datatype Items =
    | NoItems
    | LastItem(x: Syntax, space: Text)
    | MoreItems(x: Syntax, space: Text, gap: Text, rest: Items)

  /** A name and a value, with the white space around the colon. */
  datatype Field = Field(raw: Text, space: Text, gap: Text, x: Syntax)

  datatype Fields =
    | NoFields
    | LastField(f: Field, space: Text)
    | MoreFields(f: Field, space: Text, gap: Text, rest: Fields)

  predicate IsBlank(c: Byte) { c == ' ' || c == '\t' || c == '\r' || c == '\n' }

  predicate Blank(s: Text) { forall k :: 0 <= k < |s| ==> IsBlank(s[k]) }

  function Spell(x: Syntax): Text {
    match x
    case Word(v) => (match v case JTrue => ['t', 'r', 'u', 'e'] case JFalse => ['f', 'a', 'l', 's', 'e']
                             case _ => ['n', 'u', 'l', 'l'])
    case Digits(text) => text
    case Quoted(raw) => SpellQuoted(raw)
    case Bracketed(space, items) => ['['] + (space + (SpellItems(items) + [']']))
    case Braced(space, fields) => ['{'] + (space + (SpellFields(fields) + ['}']))
  }

  function SpellQuoted(raw: Text): Text { ['"'] + (raw + ['"']) }

  function SpellItems(items: Items): Text {
    match items
    case NoItems => []
    case LastItem(x, space) => Spell(x) + space
    case MoreItems(x, space, gap, rest) => Spell(x) + (space + ([','] + (gap + SpellItems(rest))))
  }

  function SpellField(f: Field): Text { SpellQuoted(f.raw) + (f.space + ([':'] + (f.gap + Spell(f.x)))) }

  function SpellFields(fields: Fields): Text {
    match fields
    case NoFields => []
    case LastField(f, space) => SpellField(f) + space
    case MoreFields(f, space, gap, rest) => SpellField(f) + (space + ([','] + (gap + SpellFields(rest))))
  }

  /** Plain bytes and accepted escapes, none of them a quote or a NUL. */
  predicate Content(raw: Text, i: nat)
    requires i <= |raw|
    ensures Content(raw, i) ==> WellEscaped(raw, i)
    decreases |raw| - i
  {
    || i == |raw|
    || (raw[i] != '"' && raw[i] != NUL && UnitLength(raw, i) != 0 && Content(raw, i + UnitLength(raw, i)))
  }

  /** No byte that goes on with a number. */
  predicate EndsNumber(c: Byte) { !IsDigit(c) && c != '.' && c != '-' && c != '+' && c != 'e' && c != 'E' }

  predicate Valid(x: Syntax) {
    match x
    case Word(v) => v.JNull? || v.JTrue? || v.JFalse?
    case Digits(text) => NumberEnd(text, 0, 0) == Some(|text|)
    case Quoted(raw) => Content(raw, 0)
    case Bracketed(space, items) => Blank(space) && ValidItems(items)
    case Braced(space, fields) => Blank(space) && ValidFields(fields)
  }

  predicate ValidItems(items: Items) {
    match items
    case NoItems => true
    case LastItem(x, space) => Valid(x) && Blank(space)
    case MoreItems(x, space, gap, rest) =>
      Valid(x) && Blank(space) && Blank(gap) && !rest.NoItems? && ValidItems(rest)
  }

  predicate ValidField(f: Field) { Content(f.raw, 0) && Blank(f.space) && Blank(f.gap) && Valid(f.x) }

  predicate ValidFields(fields: Fields) {
    match fields
    case NoFields => true
    case LastField(f, space) => ValidField(f) && Blank(space)
    case MoreFields(f, space, gap, rest) =>
      ValidField(f) && Blank(space) && Blank(gap) && !rest.NoFields? && ValidFields(rest)
  }

  function Meaning(x: Syntax): Json
    requires Valid(x)
  {
    match x
    case Word(v) => v
    case Digits(text) => JNumber(text)
    case Quoted(raw) => JString(Unescape(raw, 0))
    case Bracketed(_, items) => JList(ItemMeanings(items))
    case Braced(_, fields) => JObject(FieldMeanings(fields))
  }

  function ItemMeanings(items: Items): seq<Json>
    requires ValidItems(items)
  {
    match items
    case NoItems => []
    case LastItem(x, _) => [Meaning(x)]
    case MoreItems(x, _, _, rest) => [Meaning(x)] + ItemMeanings(rest)
  }

  function FieldMeaning(f: Field): (Text, Json)
    requires ValidField(f)
  {
    (Unescape(f.raw, 0), Meaning(f.x))
  }

  function FieldMeanings(fields: Fields): seq<(Text, Json)>
    requires ValidFields(fields)
  {
    match fields
    case NoFields => []
    case LastField(f, _) => [FieldMeaning(f)]
    case MoreFields(f, _, _, rest) => [FieldMeaning(f)] + FieldMeanings(rest)
  }

  /** A text: a value with white space around it, and whatever is behind a NUL. */
  predicate Document(text: Text, before: Text, x: Syntax, after: Text, rest: Text) {
    && Blank(before) && Valid(x) && Blank(after) && (rest != [] ==> rest[0] == NUL)
    && text == before + (Spell(x) + (after + rest))
  }

  // ---------------------------------------------------------------- white space, strings and numbers

  lemma {:induction false} SkipsBlank(text: Text, i: nat, space: Text)
    requires i <= |text| && Blank(space) && Occurs(text, i, space) && !IsBlank(At(text, i + |space|))
    ensures i + |space| <= |text| && WsSkip(text, i) == i + |space|
    decreases |space|
  {
    if space != [] {
      assert Blank(space[1..]);
      SkipsBlank(text, i + 1, space[1..]);
    }
  }

  lemma {:induction false} SkippedIsBlank(text: Text, i: nat) returns (space: Text)
    requires i <= |text|
    ensures Blank(space) && Occurs(text, i, space) && i + |space| == WsSkip(text, i)
    decreases |text| - i
  {
    space := [];
    if IsBlank(At(text, i)) {
      space := SkippedIsBlank(text, i + 1);
      space := [text[i]] + space;
    }
  }

  /** A unit of a piece of the text is a unit of the text. */
  lemma {:induction false} UnitOf(text: Text, i: nat, raw: Text, k: nat)
    requires i + |raw| <= |text| && text[i..i + |raw|] == raw && k < |raw| && UnitLength(raw, k) != 0
    ensures UnitLength(text, i + k) == UnitLength(raw, k) && text[i + k] == raw[k]
  {
    assert forall j :: 0 <= j < |raw| ==> raw[j] == text[i + j];
  }

  lemma {:induction false} ContentEnds(text: Text, i: nat, raw: Text, k: nat)
    requires i + |raw| < |text| && text[i..i + |raw|] == raw && text[i + |raw|] == '"' && k <= |raw| && Content(raw, k)
    ensures StringEnd(text, i + k) == Some(i + |raw|)
    decreases |raw| - k
  {
    if k < |raw| {
      UnitOf(text, i, raw, k);
      ContentEnds(text, i, raw, k + UnitLength(raw, k));
    }
  }

  lemma {:induction false} EndedContent(text: Text, i: nat, end: nat, k: nat)
    requires i <= end <= |text| && k <= end - i && StringEnd(text, i + k) == Some(end)
    ensures Content(text[i..end], k)
    decreases end - i - k
  {
    var raw := text[i..end];
    if i + k < end {
      var n := UnitLength(text, i + k);
      assert forall j :: 0 <= j < |raw| ==> raw[j] == text[i + j];
      assert UnitLength(raw, k) == n;
      EndedContent(text, i, end, k + n);
    }
  }

  lemma {:induction false} ParsesQuoted(text: Text, i: nat, raw: Text, end: nat)
    requires Content(raw, 0) && Occurs(text, i, SpellQuoted(raw)) && end == i + |SpellQuoted(raw)|
    ensures i < |text| && text[i] == '"' && ParseString(text, i) == Some((Unescape(raw, 0), end))
  {
    OccursParts(text, i, ['"'], raw + ['"']);
    OccursParts(text, i + 1, raw, ['"']);
    OccursAt(text, i, ['"'], 0);
    OccursAt(text, i + 1 + |raw|, ['"'], 0);
    OccursSlice(text, i + 1, raw);
    ContentEnds(text, i + 1, raw, 0);
  }

  lemma {:induction false} QuotedParsed(text: Text, i: nat) returns (raw: Text)
    requires i <= |text| && ParseString(text, i).Some?
    ensures Content(raw, 0) && Occurs(text, i, SpellQuoted(raw))
    ensures ParseString(text, i) == Some((Unescape(raw, 0), i + |SpellQuoted(raw)|))
  {
    var end := StringEnd(text, i + 1).value;
    raw := text[i + 1..end];
    EndedContent(text, i + 1, end, 0);
    OccursSlice(text, i + 1, raw);
    OccursParts(text, i + 1, raw, ['"']);
    OccursParts(text, i, ['"'], raw + ['"']);
  }

  lemma {:induction false} DigitsEnd(text: Text, i: nat, d: Text, k: nat, state: nat)
    requires i + |d| <= |text| && text[i..i + |d|] == d && EndsNumber(At(text, i + |d|))
    requires k <= |d| && state <= 7 && NumberEnd(d, k, state) == Some(|d|)
    ensures NumberEnd(text, i + k, state) == Some(i + |d|)
    decreases |d| - k
  {
    if k < |d| {
      assert text[i + k] == d[k];
      DigitsEnd(text, i, d, k + 1, NumberStep(state, d[k]).value);
    }
  }

  lemma {:induction false} EndedDigits(text: Text, i: nat, end: nat, k: nat, state: nat)
    requires i + k <= end <= |text| && state <= 7 && NumberEnd(text, i + k, state) == Some(end)
    ensures NumberEnd(text[i..end], k, state) == Some(end - i)
    ensures EndsNumber(At(text, end))
    decreases end - i - k
  {
    if i + k < end {
      assert text[i..end][k] == text[i + k];
      EndedDigits(text, i, end, k + 1, NumberStep(state, text[i + k]).value);
    }
  }

  // ---------------------------------------------------------------- which numbers there are

  predicate DigitsBetween(text: Text, i: nat, j: nat)
    requires j <= |text|
  {
    forall k :: i <= k < j ==> IsDigit(text[k])
  }

  /** Digits leave the automaton where it is, in the states that read any number of them. */
  lemma {:induction false} PastDigits(text: Text, i: nat, j: nat, state: nat)
    requires i <= j <= |text| && DigitsBetween(text, i, j) && (state == 3 || state == 4 || state == 6)
    ensures NumberEnd(text, i, state) == NumberEnd(text, j, state)
    decreases j - i
  {
    if i < j {
      PastDigits(text, i + 1, j, state);
    }
  }

  function DigitsFrom(text: Text, i: nat): (j: nat)
    requires i <= |text|
    ensures i <= j <= |text| && DigitsBetween(text, i, j) && !IsDigit(At(text, j))
    decreases |text| - i
  {
    if IsDigit(At(text, i)) then DigitsFrom(text, i + 1) else i
  }

  /** What may stand behind the letter of an exponent at position i. */
  predicate ExponentAt(text: Text, i: nat) {
    && i + 1 < |text| && (IsDigit(text[i + 1]) || text[i + 1] == '+' || text[i + 1] == '-')
    && DigitsBetween(text, i + 2, |text|)
  }

  lemma {:induction false} ExponentIff(text: Text, i: nat)
    requires i < |text| && (text[i] == 'e' || text[i] == 'E')
    ensures NumberEnd(text, i + 1, 5) == Some(|text|) <==> ExponentAt(text, i)
  {
    if i + 1 < |text| && (IsDigit(text[i + 1]) || text[i + 1] == '+' || text[i + 1] == '-') {
      var j := DigitsFrom(text, i + 2);
      PastDigits(text, i + 2, j, 6);
    }
  }

  /** A number by the positions of its parts: a minus or nothing, from a to b a whole part without leading zeros, up to
      c perhaps a point and any digits, and from there perhaps an exponent: a letter, a sign or a digit, and any digits.
      A zero takes an exponent only behind a point. */
  predicate NumberAt(text: Text, a: nat, b: nat, c: nat) {
    && a <= 1 && a < b <= c <= |text| && (a == 1 ==> text[0] == '-')
    && DigitsBetween(text, a, b) && (text[a] == '0' ==> b == a + 1)
    && (b < c ==> text[b] == '.' && DigitsBetween(text, b + 1, c))
    && (c < |text| ==>
          (text[c] == 'e' || text[c] == 'E') && ExponentAt(text, c) && (text[a] == '0' ==> b < c))
  }

  /** Where the automaton stands behind the sign and the whole part, and then behind the fraction. */
  lemma {:induction false} PastWhole(text: Text, a: nat, b: nat)
    requires a < b <= |text| && a <= 1 && (a == 1 ==> text[0] == '-') && DigitsBetween(text, a, b)
    requires text[a] == '0' ==> b == a + 1
    ensures NumberEnd(text, 0, 0) == NumberEnd(text, b, if text[a] == '0' then 2 else 3)
  {
    assert NumberEnd(text, 0, 0) == NumberEnd(text, a, a);
    if text[a] != '0' {
      PastDigits(text, a + 1, b, 3);
    }
  }

  lemma {:induction false} PastFraction(text: Text, b: nat, c: nat, state: nat)
    requires b < c <= |text| && text[b] == '.' && DigitsBetween(text, b + 1, c) && (state == 2 || state == 3)
    ensures NumberEnd(text, b, state) == NumberEnd(text, c, 4)
  {
    PastDigits(text, b + 1, c, 4);
  }

  /** Behind the fraction only an exponent or the end is accepted. */
  lemma {:induction false} Closing(text: Text, c: nat, state: nat)
    requires c <= |text| && 2 <= state <= 4
    requires c < |text| ==> !IsDigit(text[c]) && (text[c] == '.' ==> state == 4)
    ensures NumberEnd(text, c, state) == Some(|text|) <==>
      c == |text| || ((text[c] == 'e' || text[c] == 'E') && state != 2 && ExponentAt(text, c))
  {
    if c < |text| && (text[c] == 'e' || text[c] == 'E') {
      ExponentIff(text, c);
    }
  }

  /** With the parts cut where the digits end, the automaton accepts exactly a number. */
  lemma {:induction false} AcceptedIff(text: Text, a: nat, b: nat, c: nat)
    requires a < b <= c <= |text| && a <= 1 && (a == 1 ==> text[0] == '-') && DigitsBetween(text, a, b)
    requires text[a] == '0' ==> b == a + 1
    requires b < c ==> text[b] == '.' && DigitsBetween(text, b + 1, c)
    requires c < |text| ==> !IsDigit(text[c]) && (text[c] == '.' ==> b < c)
    ensures NumberEnd(text, 0, 0) == Some(|text|) <==> NumberAt(text, a, b, c)
  {
    hide NumberEnd, ExponentAt;
    var state := if text[a] == '0' then 2 else 3;
    PastWhole(text, a, b);
    if b < c {
      PastFraction(text, b, c, state);
    }
    Closing(text, c, if b < c then 4 else state);
  }

  lemma {:induction false} StartsNumber(text: Text)
    requires NumberEnd(text, 0, 0) == Some(|text|)
    ensures text != [] && (text[0] == '-' || IsDigit(text[0]))
    ensures text[0] == '-' ==> |text| > 1 && IsDigit(text[1])
  {
    if text[0] == '-' {
      assert NumberEnd(text, 0, 0) == NumberEnd(text, 1, 1);
      assert |text| > 2 ==> NumberEnd(text, 2, 7) == None;
    }
  }

  lemma {:induction false} AfterZero(text: Text, a: nat)
    requires a <= 1 && (a == 1 ==> |text| > 0 && text[0] == '-')
    requires a + 1 < |text| && text[a] == '0' && IsDigit(text[a + 1])
    ensures NumberEnd(text, 0, 0) == None
  {
    PastWhole(text, a, a + 1);
    assert NumberEnd(text, a + 1, 2) == NumberEnd(text, a + 2, 7);
  }

  /** The numbers that the parser accepts are these. */
  lemma {:induction false} NumberIff(text: Text)
    ensures NumberEnd(text, 0, 0) == Some(|text|) <==> exists a, b, c :: NumberAt(text, a, b, c)
  {
    if NumberEnd(text, 0, 0) == Some(|text|) {
      StartsNumber(text);
      hide NumberEnd, NumberAt;
      var a := if text[0] == '-' then 1 else 0;
      if a + 1 < |text| && text[a] == '0' && IsDigit(text[a + 1]) {
        AfterZero(text, a);
      }
      var b := if text[a] == '0' then a + 1 else DigitsFrom(text, a);
      var c := if At(text, b) == '.' then DigitsFrom(text, b + 1) else b;
      AcceptedIff(text, a, b, c);
    }
    forall a, b, c | NumberAt(text, a, b, c)
      ensures NumberEnd(text, 0, 0) == Some(|text|)
    {
      AcceptedIff(text, a, b, c);
    }
  }

  /** A number of RFC 8259, section 6, by the positions of its parts: at least one digit stands behind the point, and at
      least one behind the letter of the exponent and its sign, if it has one. */
  predicate RfcNumberAt(text: Text, a: nat, b: nat, c: nat) {
    && a <= 1 && a < b <= c <= |text| && (a == 1 ==> text[0] == '-')
    && DigitsBetween(text, a, b) && (text[a] == '0' ==> b == a + 1)
    && (b < c ==> text[b] == '.' && b + 1 < c && DigitsBetween(text, b + 1, c))
    && (c < |text| ==> (text[c] == 'e' || text[c] == 'E') && RfcExponentAt(text, c))
  }

  predicate RfcExponentAt(text: Text, i: nat) {
    var d := if i + 1 < |text| && (text[i + 1] == '+' || text[i + 1] == '-') then i + 2 else i + 1;
    d < |text| && DigitsBetween(text, d, |text|)
  }

  /** A digit stands behind every point, and behind every sign but one in front. */
  predicate DigitBehind(text: Text) {
    forall k :: 0 <= k < |text| && (text[k] == '.' || (0 < k && (text[k] == '+' || text[k] == '-'))) ==>
      k + 1 < |text| && IsDigit(text[k + 1])
  }

  /** The letter of an exponent stands behind a whole part of zero. */
  predicate ZeroExponent(text: Text) {
    var a := if text != [] && text[0] == '-' then 1 else 0;
    a + 1 < |text| && text[a] == '0' && (text[a + 1] == 'e' || text[a + 1] == 'E')
  }

  lemma AcceptedIsRfc(text: Text, a: nat, b: nat, c: nat)
    requires NumberAt(text, a, b, c) && DigitBehind(text)
    ensures RfcNumberAt(text, a, b, c) && !ZeroExponent(text)
  {
    assert IsDigit(text[a]);
  }

  lemma RfcIsAccepted(text: Text, a: nat, b: nat, c: nat)
    requires RfcNumberAt(text, a, b, c) && !ZeroExponent(text)
    ensures NumberAt(text, a, b, c) && DigitBehind(text)
  {
    assert IsDigit(text[a]);
  }

  /** Accepted texts and numbers of the standard are the same but for two kinds of texts, which a caller can tell
      beforehand: those with a point or a sign without a digit behind it are only accepted, and those in which an
      exponent follows a whole part of zero are only numbers of the standard. */
  lemma {:induction false} NumbersAgreeIff(text: Text)
    ensures NumberEnd(text, 0, 0) == Some(|text|) && DigitBehind(text) <==>
      (exists a, b, c :: RfcNumberAt(text, a, b, c)) && !ZeroExponent(text)
  {
    hide NumberEnd;
    NumberIff(text);
    forall a, b, c | NumberAt(text, a, b, c) && DigitBehind(text)
      ensures RfcNumberAt(text, a, b, c) && !ZeroExponent(text)
    {
      AcceptedIsRfc(text, a, b, c);
    }
    forall a, b, c | RfcNumberAt(text, a, b, c) && !ZeroExponent(text)
      ensures NumberAt(text, a, b, c) && DigitBehind(text)
    {
      RfcIsAccepted(text, a, b, c);
    }
  }

  /** Inputs for both kinds. */
  lemma {:induction false} NumbersThatDiffer()
    ensures NumberEnd(['1', '.'], 0, 0) == Some(2) && !exists a, b, c :: RfcNumberAt(['1', '.'], a, b, c)
    ensures NumberEnd(['1', 'e', '+'], 0, 0) == Some(3) && !exists a, b, c :: RfcNumberAt(['1', 'e', '+'], a, b, c)
    ensures RfcNumberAt(['0', 'e', '1'], 0, 1, 1) && NumberEnd(['0', 'e', '1'], 0, 0) != Some(3)
  {
    AcceptedIff(['1', '.'], 0, 1, 2);
    AcceptedIff(['1', 'e', '+'], 0, 1, 1);
    AcceptedIff(['0', 'e', '1'], 0, 1, 1);
  }

  // ---------------------------------------------------------------- what is written so is parsed to its meaning

  lemma {:induction false} SpellStarts(x: Syntax)
    requires Valid(x)
    ensures Spell(x) != [] && !IsBlank(Spell(x)[0]) && Spell(x)[0] != ']'
  {
  }

  lemma {:induction false} ItemsStart(items: Items)
    requires ValidItems(items) && !items.NoItems?
    ensures SpellItems(items) != [] && !IsBlank(SpellItems(items)[0]) && SpellItems(items)[0] != ']'
  {
    SpellStarts(items.x);
  }

  lemma {:induction false} FieldsStart(fields: Fields)
    requires ValidFields(fields) && !fields.NoFields?
    ensures SpellFields(fields) != [] && SpellFields(fields)[0] == '"'
  {
    assert SpellField(fields.f)[0] == '"';
  }

  /** White space with something else behind it is skipped. */
  lemma {:induction false} SkipsTo(text: Text, i: nat, space: Text, s: Text)
    requires Blank(space) && s != [] && !IsBlank(s[0]) && Occurs(text, i, space + s)
    ensures i <= i + |space| < |text| && WsSkip(text, i) == i + |space|
    ensures text[i + |space|] == s[0] && Occurs(text, i + |space|, s)
    ensures EndsNumber(s[0]) ==> EndsNumber(At(text, i))
  {
    OccursParts(text, i, space, s);
    OccursAt(text, i + |space|, s, 0);
    SkipsBlank(text, i, space);
    if space != [] {
      OccursAt(text, i, space, 0);
    }
  }

  lemma {:induction false} ParsesSpelled(text: Text, i: nat, x: Syntax, end: nat)
    requires Valid(x) && Occurs(text, i, Spell(x)) && end == i + |Spell(x)|
    requires x.Digits? ==> EndsNumber(At(text, end))
    ensures i < |text| && ParseValue(text, i) == Some((Meaning(x), end))
    decreases x, 0
  {
    SpellStarts(x);
    OccursAt(text, i, Spell(x), 0);
    match x {
      case Word(_) =>
        OccursAt(text, i, Spell(x), 1);
        OccursAt(text, i, Spell(x), 2);
        OccursAt(text, i, Spell(x), 3);
        OccursAt(text, i, Spell(x), |Spell(x)| - 1);
      case Digits(d) => ParsesDigits(text, i, d, end);
      case Quoted(raw) => ParsesQuoted(text, i, raw, end);
      case Bracketed(_, _) => ParsesBracketed(text, i, x, end);
      case Braced(_, _) => ParsesBraced(text, i, x, end);
    }
  }

  lemma {:induction false} ParsesDigits(text: Text, i: nat, d: Text, end: nat)
    requires NumberEnd(d, 0, 0) == Some(|d|) && Occurs(text, i, d) && end == i + |d| && EndsNumber(At(text, end))
    requires i < |text|
    ensures ParseValue(text, i) == Some((JNumber(d), end))
  {
    OccursSlice(text, i, d);
    DigitsEnd(text, i, d, 0, 0);
    assert text[i] == d[0] && (IsDigit(d[0]) || d[0] == '-');
  }

  lemma Assoc<T>(a: seq<T>, b: seq<T>, c: seq<T>)
    ensures (a + b) + c == a + (b + c)
  {
  }

  /** Something with white space behind it, up to a bracket. */
  lemma {:induction false} LastParts(text: Text, i: nat, a: Text, space: Text, c: Byte)
    requires Blank(space) && !IsBlank(c) && EndsNumber(c) && Occurs(text, i, (a + space) + [c])
    ensures var j := i + |a|;
            && Occurs(text, i, a) && EndsNumber(At(text, j))
            && j <= j + |space| < |text| && WsSkip(text, j) == j + |space| && text[j + |space|] == c
  {
    assert (a + space) + [c] == a + (space + [c]);
    OccursParts(text, i, a, space + [c]);
    SkipsTo(text, i + |a|, space, [c]);
  }

  /** Something with a comma behind it, up to what follows. */
  lemma {:induction false} MoreParts(text: Text, i: nat, a: Text, space: Text, gap: Text, more: Text, c: Byte)
    requires Blank(space) && Blank(gap) && more != [] && !IsBlank(more[0])
    requires Occurs(text, i, (a + (space + ([','] + (gap + more)))) + [c])
    ensures var j := i + |a|;
            var k := j + |space|;
            && Occurs(text, i, a) && EndsNumber(At(text, j))
            && j <= k < |text| && WsSkip(text, j) == k && text[k] == ','
            && k + 1 <= k + 1 + |gap| < |text| && WsSkip(text, k + 1) == k + 1 + |gap|
            && Occurs(text, k + 1 + |gap|, more + [c])
  {
    var behind := gap + (more + [c]);
    assert (a + (space + ([','] + (gap + more)))) + [c] == a + (space + ([','] + behind));
    OccursParts(text, i, a, space + ([','] + behind));
    SkipsTo(text, i + |a|, space, [','] + behind);
    OccursParts(text, i + |a| + |space|, [','], behind);
    SkipsTo(text, i + |a| + |space| + 1, gap, more + [c]);
  }

  lemma {:induction false} ListOpens(text: Text, i: nat)
    requires i < |text| && text[i] == '['
    ensures ParseValue(text, i) == var j := WsSkip(text, i + 1);
              if At(text, j) == ']' then Some((JList([]), j + 1)) else ParseItems(text, j, [])
  {
  }

  lemma {:induction false} ParsesBracketed(text: Text, i: nat, x: Syntax, end: nat)
    requires x.Bracketed? && Valid(x) && Occurs(text, i, Spell(x)) && end == i + |Spell(x)|
    ensures i < |text| && ParseValue(text, i) == Some((Meaning(x), end))
    decreases x, 0, 0
  {
    hide Occurs, WsSkip, ParseValue, ParseItems, SpellItems, ItemMeanings, ValidItems;
    var behind := SpellItems(x.items) + [']'];
    OccursParts(text, i, ['['], x.space + behind);
    OccursAt(text, i, ['['], 0);
    ListOpens(text, i);
    if x.items.NoItems? {
      NoItemsSpelled(x.items);
      SkipsTo(text, i + 1, x.space, behind);
    } else {
      ItemsStart(x.items);
      SkipsTo(text, i + 1, x.space, behind);
      ParsesItems(text, i + 1 + |x.space|, x.items, [], end);
      assert [] + ItemMeanings(x.items) == ItemMeanings(x.items);
    }
  }

  lemma {:induction false} NoItemsSpelled(items: Items)
    requires items.NoItems?
    ensures SpellItems(items) == [] && ValidItems(items) && ItemMeanings(items) == []
  {
  }

  lemma {:induction false} LastItemTurn(text: Text, i: nat, v: Json, j: nat, k: nat, sofar: seq<Json>)
    requires i <= |text| && ParseValue(text, i) == Some((v, j)) && WsSkip(text, j) == k && At(text, k) == ']'
    ensures ParseItems(text, i, sofar) == Some((JList(sofar + [v]), k + 1))
  {
  }

  lemma {:induction false} MoreItemsTurn(text: Text, i: nat, v: Json, j: nat, k: nat, m: nat, sofar: seq<Json>,
      vs: seq<Json>, end: nat)
    requires i <= |text| && ParseValue(text, i) == Some((v, j)) && WsSkip(text, j) == k && At(text, k) == ','
    requires WsSkip(text, k + 1) == m && ParseItems(text, m, sofar + [v]) == Some((JList((sofar + [v]) + vs), end))
    ensures ParseItems(text, i, sofar) == Some((JList(sofar + ([v] + vs)), end))
  {
    hide WsSkip, ParseValue, ParseField;
    Assoc(sofar, [v], vs);
  }

  /** Where the parts of items stand. */
  lemma {:induction false} ItemParts(text: Text, i: nat, items: Items, j: nat, k: nat, end: nat)
    requires ValidItems(items) && !items.NoItems? && Occurs(text, i, SpellItems(items) + [']'])
    requires j == i + |Spell(items.x)| && k == j + |items.space| && end == i + |SpellItems(items)| + 1
    ensures Valid(items.x) && Occurs(text, i, Spell(items.x)) && EndsNumber(At(text, j))
    ensures j <= k < |text| && WsSkip(text, j) == k
    ensures items.LastItem? ==> text[k] == ']' && end == k + 1 && ItemMeanings(items) == [Meaning(items.x)]
    ensures items.MoreItems? ==>
              && text[k] == ',' && !items.rest.NoItems? && ValidItems(items.rest)
              && ItemMeanings(items) == [Meaning(items.x)] + ItemMeanings(items.rest)
              && k + 1 + |items.gap| < |text| && WsSkip(text, k + 1) == k + 1 + |items.gap|
              && Occurs(text, k + 1 + |items.gap|, SpellItems(items.rest) + [']'])
              && end == k + 1 + |items.gap| + |SpellItems(items.rest)| + 1
  {
    hide Occurs, WsSkip, Spell, Valid, Meaning, Blank;
    match items {
      case LastItem(x, space) => LastParts(text, i, Spell(x), space, ']');
      case MoreItems(x, space, gap, rest) =>
        ItemsStart(rest);
        MoreParts(text, i, Spell(x), space, gap, SpellItems(rest), ']');
    }
  }

  lemma {:induction false} ParsesItems(text: Text, i: nat, items: Items, sofar: seq<Json>, end: nat)
    requires ValidItems(items) && !items.NoItems? && Occurs(text, i, SpellItems(items) + [']'])
    requires end == i + |SpellItems(items)| + 1
    ensures i <= |text| && ParseItems(text, i, sofar) == Some((JList(sofar + ItemMeanings(items)), end))
    decreases items
  {
    hide Occurs, WsSkip, ParseValue, ParseItems, SpellItems, Blank, ValidItems, ItemMeanings, Spell, Valid, Meaning;
    var x, j := items.x, i + |Spell(items.x)|;
    var k := j + |items.space|;
    ItemParts(text, i, items, j, k, end);
    ParsesSpelled(text, i, x, j);
    if items.LastItem? {
      LastItemTurn(text, i, Meaning(x), j, k, sofar);
    } else {
      var m := k + 1 + |items.gap|;
      ParsesItems(text, m, items.rest, sofar + [Meaning(x)], end);
      MoreItemsTurn(text, i, Meaning(x), j, k, m, sofar, ItemMeanings(items.rest), end);
    }
  }

  lemma {:induction false} ObjectOpens(text: Text, i: nat)
    requires i < |text| && text[i] == '{'
    ensures ParseValue(text, i) == var j := WsSkip(text, i + 1);
              if At(text, j) == '}' then Some((JObject([]), j + 1)) else ParseFields(text, j, [])
  {
  }

  lemma {:induction false} FieldIs(text: Text, i: nat, key: Text, j: nat, v: Json, end: nat)
    requires i <= |text| && ParseString(text, i) == Some((key, j)) && At(text, WsSkip(text, j)) == ':'
    requires ParseValue(text, WsSkip(text, WsSkip(text, j) + 1)) == Some((v, end))
    ensures ParseField(text, i) == Some(((key, v), end))
  {
    hide WsSkip, ParseValue, ParseString;
  }

  lemma {:induction false} ParsesField(text: Text, i: nat, f: Field, end: nat)
    requires ValidField(f) && Occurs(text, i, SpellField(f)) && end == i + |SpellField(f)| && EndsNumber(At(text, end))
    ensures i < |text| && ParseField(text, i) == Some((FieldMeaning(f), end))
    decreases f, 0
  {
    hide Occurs, WsSkip, ParseValue, ParseField, ParseString, Spell, SpellQuoted, Blank;
    var j, at := i + |SpellQuoted(f.raw)|, i + |SpellQuoted(f.raw)| + |f.space| + 1 + |f.gap|;
    OccursParts(text, i, SpellQuoted(f.raw), f.space + ([':'] + (f.gap + Spell(f.x))));
    ParsesQuoted(text, i, f.raw, j);
    SkipsTo(text, j, f.space, [':'] + (f.gap + Spell(f.x)));
    OccursParts(text, j + |f.space|, [':'], f.gap + Spell(f.x));
    SpellStarts(f.x);
    SkipsTo(text, j + |f.space| + 1, f.gap, Spell(f.x));
    ParsesSpelled(text, at, f.x, end);
    FieldIs(text, i, Unescape(f.raw, 0), j, Meaning(f.x), end);
  }

  lemma {:induction false} ParsesBraced(text: Text, i: nat, x: Syntax, end: nat)
    requires x.Braced? && Valid(x) && Occurs(text, i, Spell(x)) && end == i + |Spell(x)|
    ensures i < |text| && ParseValue(text, i) == Some((Meaning(x), end))
    decreases x, 0, 0
  {
    hide Occurs, WsSkip, ParseValue, ParseFields, SpellFields, FieldMeanings, ValidFields;
    var behind := SpellFields(x.fields) + ['}'];
    OccursParts(text, i, ['{'], x.space + behind);
    OccursAt(text, i, ['{'], 0);
    ObjectOpens(text, i);
    if x.fields.NoFields? {
      NoFieldsSpelled(x.fields);
      SkipsTo(text, i + 1, x.space, behind);
    } else {
      FieldsStart(x.fields);
      SkipsTo(text, i + 1, x.space, behind);
      ParsesFields(text, i + 1 + |x.space|, x.fields, [], end);
      assert [] + FieldMeanings(x.fields) == FieldMeanings(x.fields);
    }
  }

  lemma {:induction false} NoFieldsSpelled(fields: Fields)
    requires fields.NoFields?
    ensures SpellFields(fields) == [] && ValidFields(fields) && FieldMeanings(fields) == []
  {
  }

  lemma {:induction false} LastFieldTurn(text: Text, i: nat, v: (Text, Json), j: nat, k: nat, sofar: seq<(Text, Json)>)
    requires i <= |text| && ParseField(text, i) == Some((v, j)) && WsSkip(text, j) == k && At(text, k) == '}'
    ensures ParseFields(text, i, sofar) == Some((JObject(sofar + [v]), k + 1))
  {
  }

  lemma {:induction false} MoreFieldsTurn(text: Text, i: nat, v: (Text, Json), j: nat, k: nat, m: nat,
      sofar: seq<(Text, Json)>, vs: seq<(Text, Json)>, end: nat)
    requires i <= |text| && ParseField(text, i) == Some((v, j)) && WsSkip(text, j) == k && At(text, k) == ','
    requires WsSkip(text, k + 1) == m && ParseFields(text, m, sofar + [v]) == Some((JObject((sofar + [v]) + vs), end))
    ensures ParseFields(text, i, sofar) == Some((JObject(sofar + ([v] + vs)), end))
  {
    hide WsSkip, ParseValue, ParseField;
    Assoc(sofar, [v], vs);
  }

  /** Where the parts of fields stand. */
  lemma {:induction false} FieldParts(text: Text, i: nat, fields: Fields, j: nat, k: nat, end: nat)
    requires ValidFields(fields) && !fields.NoFields? && Occurs(text, i, SpellFields(fields) + ['}'])
    requires j == i + |SpellField(fields.f)| && k == j + |fields.space| && end == i + |SpellFields(fields)| + 1
    ensures ValidField(fields.f) && Occurs(text, i, SpellField(fields.f)) && EndsNumber(At(text, j))
    ensures j <= k < |text| && WsSkip(text, j) == k
    ensures fields.LastField? ==> text[k] == '}' && end == k + 1 && FieldMeanings(fields) == [FieldMeaning(fields.f)]
    ensures fields.MoreFields? ==>
              && text[k] == ',' && !fields.rest.NoFields? && ValidFields(fields.rest)
              && FieldMeanings(fields) == [FieldMeaning(fields.f)] + FieldMeanings(fields.rest)
              && k + 1 + |fields.gap| < |text| && WsSkip(text, k + 1) == k + 1 + |fields.gap|
              && Occurs(text, k + 1 + |fields.gap|, SpellFields(fields.rest) + ['}'])
              && end == k + 1 + |fields.gap| + |SpellFields(fields.rest)| + 1
  {
    hide Occurs, WsSkip, SpellField, ValidField, FieldMeaning, Blank;
    match fields {
      case LastField(f, space) => LastParts(text, i, SpellField(f), space, '}');
      case MoreFields(f, space, gap, rest) =>
        FieldsStart(rest);
        MoreParts(text, i, SpellField(f), space, gap, SpellFields(rest), '}');
    }
  }

  lemma {:induction false} ParsesFields(text: Text, i: nat, fields: Fields, sofar: seq<(Text, Json)>, end: nat)
    requires ValidFields(fields) && !fields.NoFields? && Occurs(text, i, SpellFields(fields) + ['}'])
    requires end == i + |SpellFields(fields)| + 1
    ensures i <= |text| && ParseFields(text, i, sofar) == Some((JObject(sofar + FieldMeanings(fields)), end))
    decreases fields
  {
    hide Occurs, WsSkip, ParseField, ParseFields, SpellFields, Blank;
    hide ValidFields, FieldMeanings, SpellField, ValidField, FieldMeaning;
    var f, j := fields.f, i + |SpellField(fields.f)|;
    var k := j + |fields.space|;
    FieldParts(text, i, fields, j, k, end);
    ParsesField(text, i, f, j);
    if fields.LastField? {
      LastFieldTurn(text, i, FieldMeaning(f), j, k, sofar);
    } else {
      var m := k + 1 + |fields.gap|;
      ParsesFields(text, m, fields.rest, sofar + [FieldMeaning(f)], end);
      MoreFieldsTurn(text, i, FieldMeaning(f), j, k, m, sofar, FieldMeanings(fields.rest), end);
    }
  }

  // ---------------------------------------------------------------- what is parsed is written so

  lemma {:induction false} JoinLast(text: Text, i: nat, a: Text, space: Text, c: Byte)
    requires Occurs(text, i, a) && Occurs(text, i + |a|, space)
    requires i + |a| + |space| < |text| && text[i + |a| + |space|] == c
    ensures Occurs(text, i, (a + space) + [c])
  {
    assert (a + space) + [c] == a + (space + [c]);
    OccursParts(text, i + |a|, space, [c]);
    OccursParts(text, i, a, space + [c]);
  }

  lemma {:induction false} JoinMore(text: Text, i: nat, a: Text, space: Text, d: Byte, gap: Text, more: Text, c: Byte)
    requires Occurs(text, i, a) && Occurs(text, i + |a|, space)
    requires i + |a| + |space| < |text| && text[i + |a| + |space|] == d
    requires Occurs(text, i + |a| + |space| + 1, gap) && Occurs(text, i + |a| + |space| + 1 + |gap|, more + [c])
    ensures Occurs(text, i, (a + (space + ([d] + (gap + more)))) + [c])
  {
    var behind := gap + (more + [c]);
    assert (a + (space + ([d] + (gap + more)))) + [c] == a + (space + ([d] + behind));
    OccursParts(text, i + |a| + |space| + 1, gap, more + [c]);
    OccursParts(text, i + |a| + |space|, [d], behind);
    OccursParts(text, i + |a|, space, [d] + behind);
    OccursParts(text, i, a, space + ([d] + behind));
  }

  lemma {:induction false} JoinFirst(text: Text, i: nat, c: Byte, space: Text, behind: Text)
    requires i < |text| && text[i] == c && Occurs(text, i + 1, space) && Occurs(text, i + 1 + |space|, behind)
    ensures Occurs(text, i, [c] + (space + behind))
  {
    OccursParts(text, i + 1, space, behind);
    OccursParts(text, i, [c], space + behind);
  }

  lemma {:induction false} ValueIsSpelled(text: Text, i: nat) returns (x: Syntax)
    requires i <= |text| && ParseValue(text, i).Some?
    ensures Valid(x) && Occurs(text, i, Spell(x)) && ParseValue(text, i) == Some((Meaning(x), i + |Spell(x)|))
    decreases |text| - i, 1
  {
    var c := At(text, i);
    if c == '[' {
      x := ListIsSpelled(text, i);
    } else if c == '{' {
      x := ObjectIsSpelled(text, i);
    } else if c == '"' {
      var raw := QuotedParsed(text, i);
      x := Quoted(raw);
    } else if c == 't' || c == 'f' || c == 'n' {
      x := Word(ParseValue(text, i).value.0);
      OccursSlice(text, i, Spell(x));
    } else {
      var end := NumberEnd(text, i, 0).value;
      EndedDigits(text, i, end, 0, 0);
      x := Digits(text[i..end]);
      OccursSlice(text, i, text[i..end]);
    }
  }

  lemma {:induction false} BracketedIs(space: Text, items: Items)
    requires Blank(space) && ValidItems(items)
    ensures var x := Bracketed(space, items);
            && Valid(x) && Meaning(x) == JList(ItemMeanings(items))
            && Spell(x) == ['['] + (space + (SpellItems(items) + [']']))
  {
  }

  lemma {:induction false} ListIsSpelled(text: Text, i: nat) returns (x: Syntax)
    requires i < |text| && text[i] == '[' && ParseValue(text, i).Some?
    ensures Valid(x) && Occurs(text, i, Spell(x)) && ParseValue(text, i) == Some((Meaning(x), i + |Spell(x)|))
    decreases |text| - i, 0
  {
    hide Occurs, WsSkip, ParseValue, ParseItems, SpellItems, ItemMeanings, ValidItems, Blank, Spell, Valid, Meaning;
    ListOpens(text, i);
    var space := SkippedIsBlank(text, i + 1);
    var j, items := i + 1 + |space|, NoItems;
    NoItemsSpelled(items);
    if At(text, j) == ']' {
      OccursSlice(text, j, [']']);
      assert [] + [']'] == [']'];
    } else {
      items := ItemsAreSpelled(text, j, []);
      assert [] + ItemMeanings(items) == ItemMeanings(items);
    }
    x := Bracketed(space, items);
    BracketedIs(space, items);
    JoinFirst(text, i, '[', space, SpellItems(items) + [']']);
  }

  lemma {:induction false} ItemsGoOn(text: Text, i: nat, sofar: seq<Json>)
    requires i <= |text| && ParseItems(text, i, sofar).Some?
    ensures ParseValue(text, i).Some?
    ensures var (v, j) := ParseValue(text, i).value;
            var k := WsSkip(text, j);
            && k < |text| && (text[k] == ']' || text[k] == ',')
            && (text[k] == ',' ==> ParseItems(text, WsSkip(text, k + 1), sofar + [v]) == ParseItems(text, i, sofar))
  {
    hide WsSkip, ParseValue;
  }

  lemma {:induction false} ItemsJoined(text: Text, i: nat, items: Items, end: nat)
    requires !items.NoItems? && Valid(items.x) && Blank(items.space) && Occurs(text, i, Spell(items.x))
    requires Occurs(text, i + |Spell(items.x)|, items.space)
    requires var k := i + |Spell(items.x)| + |items.space|;
             if items.LastItem? then k < |text| && text[k] == ']' && end == k + 1
             else && k < |text| && text[k] == ',' && !items.rest.NoItems? && Blank(items.gap)
                  && ValidItems(items.rest) && Occurs(text, k + 1, items.gap)
                  && Occurs(text, k + 1 + |items.gap|, SpellItems(items.rest) + [']'])
                  && end == k + 1 + |items.gap| + |SpellItems(items.rest)| + 1
    ensures ValidItems(items) && Occurs(text, i, SpellItems(items) + [']']) && end == i + |SpellItems(items)| + 1
    ensures ItemMeanings(items) == if items.LastItem? then [Meaning(items.x)]
      else [Meaning(items.x)] + ItemMeanings(items.rest)
  {
    hide Occurs, Spell, Valid, Meaning, Blank;
    if items.LastItem? {
      JoinLast(text, i, Spell(items.x), items.space, ']');
    } else {
      JoinMore(text, i, Spell(items.x), items.space, ',', items.gap, SpellItems(items.rest), ']');
    }
  }

  lemma {:induction false} ItemsAreSpelled(text: Text, i: nat, sofar: seq<Json>) returns (items: Items)
    requires i <= |text| && ParseItems(text, i, sofar).Some?
    ensures ValidItems(items) && !items.NoItems? && Occurs(text, i, SpellItems(items) + [']'])
    ensures ParseItems(text, i, sofar) == Some((JList(sofar + ItemMeanings(items)), i + |SpellItems(items)| + 1))
    decreases |text| - i, 2
  {
    hide Occurs, WsSkip, ParseValue, ParseItems, SpellItems, ValidItems, ItemMeanings, Spell, Valid, Meaning, Blank;
    ItemsGoOn(text, i, sofar);
    var x := ValueIsSpelled(text, i);
    var j := i + |Spell(x)|;
    var space := SkippedIsBlank(text, j);
    var k := j + |space|;
    if text[k] == ']' {
      items := LastItem(x, space);
      ItemsJoined(text, i, items, k + 1);
      LastItemTurn(text, i, Meaning(x), j, k, sofar);
    } else {
      var gap := SkippedIsBlank(text, k + 1);
      var m := k + 1 + |gap|;
      var rest := ItemsAreSpelled(text, m, sofar + [Meaning(x)]);
      var end := m + |SpellItems(rest)| + 1;
      items := MoreItems(x, space, gap, rest);
      ItemsJoined(text, i, items, end);
      MoreItemsTurn(text, i, Meaning(x), j, k, m, sofar, ItemMeanings(rest), end);
    }
  }

  lemma {:induction false} BracedIs(space: Text, fields: Fields)
    requires Blank(space) && ValidFields(fields)
    ensures var x := Braced(space, fields);
            && Valid(x) && Meaning(x) == JObject(FieldMeanings(fields))
            && Spell(x) == ['{'] + (space + (SpellFields(fields) + ['}']))
  {
  }

  lemma {:induction false} ObjectIsSpelled(text: Text, i: nat) returns (x: Syntax)
    requires i < |text| && text[i] == '{' && ParseValue(text, i).Some?
    ensures Valid(x) && Occurs(text, i, Spell(x)) && ParseValue(text, i) == Some((Meaning(x), i + |Spell(x)|))
    decreases |text| - i, 0
  {
    hide Occurs, WsSkip, ParseValue, ParseFields, SpellFields, FieldMeanings, ValidFields, Blank, Spell, Valid, Meaning;
    ObjectOpens(text, i);
    var space := SkippedIsBlank(text, i + 1);
    var j, fields := i + 1 + |space|, NoFields;
    NoFieldsSpelled(fields);
    if At(text, j) == '}' {
      OccursSlice(text, j, ['}']);
      assert [] + ['}'] == ['}'];
    } else {
      fields := FieldsAreSpelled(text, j, []);
      assert [] + FieldMeanings(fields) == FieldMeanings(fields);
    }
    x := Braced(space, fields);
    BracedIs(space, fields);
    JoinFirst(text, i, '{', space, SpellFields(fields) + ['}']);
  }

  lemma {:induction false} FieldsGoOn(text: Text, i: nat, sofar: seq<(Text, Json)>)
    requires i <= |text| && ParseFields(text, i, sofar).Some?
    ensures ParseField(text, i).Some?
    ensures var (v, j) := ParseField(text, i).value;
            var k := WsSkip(text, j);
            && k < |text| && (text[k] == '}' || text[k] == ',')
            && (text[k] == ',' ==> ParseFields(text, WsSkip(text, k + 1), sofar + [v]) == ParseFields(text, i, sofar))
  {
    hide WsSkip, ParseField;
  }

  lemma {:induction false} FieldsJoined(text: Text, i: nat, fields: Fields, end: nat)
    requires !fields.NoFields? && ValidField(fields.f) && Blank(fields.space) && Occurs(text, i, SpellField(fields.f))
    requires Occurs(text, i + |SpellField(fields.f)|, fields.space)
    requires var k := i + |SpellField(fields.f)| + |fields.space|;
             if fields.LastField? then k < |text| && text[k] == '}' && end == k + 1
             else && k < |text| && text[k] == ',' && !fields.rest.NoFields? && Blank(fields.gap)
                  && ValidFields(fields.rest) && Occurs(text, k + 1, fields.gap)
                  && Occurs(text, k + 1 + |fields.gap|, SpellFields(fields.rest) + ['}'])
                  && end == k + 1 + |fields.gap| + |SpellFields(fields.rest)| + 1
    ensures ValidFields(fields) && Occurs(text, i, SpellFields(fields) + ['}']) && end == i + |SpellFields(fields)| + 1
    ensures FieldMeanings(fields) == if fields.LastField? then [FieldMeaning(fields.f)]
      else [FieldMeaning(fields.f)] + FieldMeanings(fields.rest)
  {
    hide Occurs, SpellField, ValidField, FieldMeaning, Blank;
    if fields.LastField? {
      JoinLast(text, i, SpellField(fields.f), fields.space, '}');
    } else {
      JoinMore(text, i, SpellField(fields.f), fields.space, ',', fields.gap, SpellFields(fields.rest), '}');
    }
  }

  lemma {:induction false} FieldsAreSpelled(text: Text, i: nat, sofar: seq<(Text, Json)>) returns (fields: Fields)
    requires i <= |text| && ParseFields(text, i, sofar).Some?
    ensures ValidFields(fields) && !fields.NoFields? && Occurs(text, i, SpellFields(fields) + ['}'])
    ensures ParseFields(text, i, sofar) == Some((JObject(sofar + FieldMeanings(fields)), i + |SpellFields(fields)| + 1))
    decreases |text| - i, 3
  {
    hide Occurs, WsSkip, ParseField, ParseFields, SpellFields, Blank;
    hide ValidFields, FieldMeanings, SpellField, ValidField, FieldMeaning;
    FieldsGoOn(text, i, sofar);
    var f := FieldIsSpelled(text, i);
    var j := i + |SpellField(f)|;
    var space := SkippedIsBlank(text, j);
    var k := j + |space|;
    if text[k] == '}' {
      fields := LastField(f, space);
      FieldsJoined(text, i, fields, k + 1);
      LastFieldTurn(text, i, FieldMeaning(f), j, k, sofar);
    } else {
      var gap := SkippedIsBlank(text, k + 1);
      var m := k + 1 + |gap|;
      var rest := FieldsAreSpelled(text, m, sofar + [FieldMeaning(f)]);
      var end := m + |SpellFields(rest)| + 1;
      fields := MoreFields(f, space, gap, rest);
      FieldsJoined(text, i, fields, end);
      MoreFieldsTurn(text, i, FieldMeaning(f), j, k, m, sofar, FieldMeanings(rest), end);
    }
  }

  lemma {:induction false} FieldIsSpelled(text: Text, i: nat) returns (f: Field)
    requires i <= |text| && ParseField(text, i).Some?
    ensures ValidField(f) && Occurs(text, i, SpellField(f))
    ensures ParseField(text, i) == Some((FieldMeaning(f), i + |SpellField(f)|))
    decreases |text| - i, 2
  {
    hide Occurs, WsSkip, ParseValue, ParseString, Spell, SpellQuoted, Content, Valid, Meaning, Blank;
    var raw := QuotedParsed(text, i);
    var j := i + |SpellQuoted(raw)|;
    var space := SkippedIsBlank(text, j);
    var gap := SkippedIsBlank(text, j + |space| + 1);
    var at := j + |space| + 1 + |gap|;
    var x := ValueIsSpelled(text, at);
    f := Field(raw, space, gap, x);
    FieldJoined(text, i, f);
  }

  lemma {:induction false} FieldJoined(text: Text, i: nat, f: Field)
    requires Occurs(text, i, SpellQuoted(f.raw)) && Occurs(text, i + |SpellQuoted(f.raw)|, f.space)
    requires var k := i + |SpellQuoted(f.raw)| + |f.space|;
             && k < |text| && text[k] == ':' && Occurs(text, k + 1, f.gap)
             && Occurs(text, k + 1 + |f.gap|, Spell(f.x))
    ensures Occurs(text, i, SpellField(f))
  {
    var j := i + |SpellQuoted(f.raw)|;
    OccursParts(text, j + |f.space| + 1, f.gap, Spell(f.x));
    OccursParts(text, j + |f.space|, [':'], f.gap + Spell(f.x));
    OccursSlice(text, j + |f.space|, [':']);
    OccursParts(text, j, f.space, [':'] + (f.gap + Spell(f.x)));
    OccursParts(text, i, SpellQuoted(f.raw), f.space + ([':'] + (f.gap + Spell(f.x))));
  }

  // ---------------------------------------------------------------- whole texts

  /** The text is the value `v`, written as `x`. */
  predicate Denotes(text: Text, v: Json, before: Text, x: Syntax, after: Text, rest: Text) {
    Document(text, before, x, after, rest) && Meaning(x) == v
  }

  lemma {:induction false} DocumentLoads(text: Text, before: Text, x: Syntax, after: Text, rest: Text)
    requires Document(text, before, x, after, rest)
    ensures Load(text) == Some(Meaning(x))
  {
    hide Occurs, WsSkip, ParseValue, Spell, Valid, Meaning;
    var i, end := |before|, |before| + |Spell(x)|;
    OccursSlice(text, 0, text);
    assert text[0..0 + |text|] == text;
    SpellStarts(x);
    SkipsTo(text, 0, before, Spell(x) + (after + rest));
    OccursParts(text, i, Spell(x), after + rest);
    OccursParts(text, end, after, rest);
    assert rest == text[end + |after|..];
    assert after != [] ==> At(text, end) == after[0];
    ParsesSpelled(text, i, x, end);
    SkipsBlank(text, end, after);
  }

  lemma {:induction false} LoadedIsDocument(text: Text)
      returns (before: Text, x: Syntax, after: Text, rest: Text)
    requires Load(text).Some?
    ensures Denotes(text, Load(text).value, before, x, after, rest)
  {
    hide Occurs, WsSkip, ParseValue, Spell, Valid, Meaning, Document;
    before := SkippedIsBlank(text, 0);
    x := ValueIsSpelled(text, |before|);
    var end := |before| + |Spell(x)|;
    after := SkippedIsBlank(text, end);
    rest := text[end + |after|..];
    IsDocument(text, before, x, after, |before|, end, end + |after|);
  }

  lemma {:induction false} IsDocument(text: Text, before: Text, x: Syntax, after: Text, p: nat, q: nat, r: nat)
    requires p == |before| && q == p + |Spell(x)| && r == q + |after| && r <= |text| && At(text, r) == NUL
    requires Occurs(text, 0, before) && Occurs(text, p, Spell(x)) && Occurs(text, q, after)
    requires Blank(before) && Valid(x) && Blank(after)
    ensures Document(text, before, x, after, text[r..])
  {
    hide Occurs, Spell, Valid, Blank;
    OccursSlice(text, 0, before);
    OccursSlice(text, p, Spell(x));
    OccursSlice(text, q, after);
    assert text[0..p] == before && text[p..q] == Spell(x) && text[q..r] == after;
    FourPieces(text, p, q, r);
  }

  lemma FourPieces(text: Text, p: nat, q: nat, r: nat)
    requires p <= q <= r <= |text|
    ensures text == text[0..p] + (text[p..q] + (text[q..r] + text[r..]))
  {
  }

  /** A text is loaded, with the value `v`, exactly when the grammar lets one write `v` so. */
  lemma {:induction false} LoadIsTheGrammar(text: Text, v: Json)
    ensures Load(text) == Some(v) <==> exists before, x, after, rest :: Denotes(text, v, before, x, after, rest)
  {
    if Load(text) == Some(v) {
      var before, x, after, rest := LoadedIsDocument(text);
      assert Denotes(text, v, before, x, after, rest);
    }
    forall before, x, after, rest | Denotes(text, v, before, x, after, rest)
      ensures Load(text) == Some(v)
    {
      DocumentLoads(text, before, x, after, rest);
    }
  }
}
