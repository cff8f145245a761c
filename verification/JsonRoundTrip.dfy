/**
 Printing JSON values and reading them back: for every value without numbers the parser of json.h accepts the
 printed text, takes all of it, and gives the value.
 */
module JsonRoundTrip {
  import opened Bytes
  import opened Common
  import opened JsonGrammar
  import opened JsonText

  predicate NumberFree(v: Json)
    decreases v
  {
    match v
    case JNumber(_) => false
    case JList(l) => forall k :: 0 <= k < |l| ==> NumberFree(l[k])
    case JObject(o) => forall k :: 0 <= k < |o| ==> NumberFree(o[k].1)
    case _ => true
  }

  function DumpString(s: Text): Text { ['"'] + Escape(s) + ['"'] }

  /** The text of a value; an object prints its fields in the order of the sequence. */
  function Dump(v: Json): Text
    requires NumberFree(v)
    decreases v, 0
  {
    match v
    case JNull => ['n', 'u', 'l', 'l']
    case JFalse => ['f', 'a', 'l', 's', 'e']
    case JTrue => ['t', 'r', 'u', 'e']
    case JString(s) => DumpString(s)
    case JList(l) => ['['] + DumpItems(v, 0) + [']']
    case JObject(o) => ['{'] + DumpFields(v, 0) + ['}']
  }

  /** The items of a list from the k-th on, with commas between them. */
  function DumpItems(v: Json, k: nat): Text
    requires v.JList? && NumberFree(v) && k <= |v.l|
    decreases v, 0, |v.l| - k
  {
    if k == |v.l| then []
    else Dump(v.l[k]) + (if k + 1 < |v.l| then [','] + DumpItems(v, k + 1) else [])
  }

  function DumpField(v: Json, k: nat): Text
    requires v.JObject? && NumberFree(v) && k < |v.o|
    decreases v, 0, |v.o| - k, 0
  {
    DumpString(v.o[k].0) + [':'] + Dump(v.o[k].1)
  }

  function DumpFields(v: Json, k: nat): Text
    requires v.JObject? && NumberFree(v) && k <= |v.o|
    decreases v, 0, |v.o| - k, 1
  {
    if k == |v.o| then [] else DumpField(v, k) + (if k + 1 < |v.o| then [','] + DumpFields(v, k + 1) else [])
  }

  // ---------------------------------------------------------------- strings

  /** An escaped string ends at the quote behind it. */
  lemma {:induction false} EscapedEnds(text: Text, i: nat, s: Text)
    requires Occurs(text, i, Escape(s)) && At(text, i + |Escape(s)|) == '"'
    ensures StringEnd(text, i) == Some(i + |Escape(s)|)
    decreases |s|
  {
    if s != [] {
      var e, rest := EscapeByte(s[0]), Escape(s[1..]);
      OccursParts(text, i, e, rest);
      EscapedUnit(text, i, s[0]);
      EscapedEnds(text, i + |e|, s[1..]);
    }
  }

  /** It means the string. */
  lemma {:induction false} EscapeMeans(s: Text)
    ensures WellEscaped(Escape(s), 0) && Unescape(Escape(s), 0) == s
    decreases |s|
  {
    if s != [] {
      var e, rest := EscapeByte(s[0]), Escape(s[1..]);
      EscapeMeans(s[1..]);
      assert WellEscaped(e + rest, 0) && Unescape(e + rest, 0) == [s[0]] + s[1..] by {
        assert (e + rest)[0..0 + |e|] == e && (e + rest)[|e|..] == rest;
        OccursSlice(e + rest, 0, e);
        EscapedUnit(e + rest, 0, s[0]);
        WellEscapedSuffix(e + rest, |e|, rest);
      }
      assert [s[0]] + s[1..] == s;
    }
  }

  lemma {:induction false} EscapeIsContent(s: Text)
    ensures Content(Escape(s), 0) && Unescape(Escape(s), 0) == s
  {
    var e := Escape(s);
    var text := e + ['"'];
    OccursSlice(text, 0, e);
    assert text[0..0 + |e|] == e;
    EscapedEnds(text, 0, s);
    EndedContent(text, 0, |e|, 0);
    EscapeMeans(s);
  }

  // ---------------------------------------------------------------- values

  /** How a value is printed, as the grammar has it: without any white space. */
  function Printed(v: Json): Syntax
    requires NumberFree(v)
    decreases v, 0
  {
    match v
    case JNull | JFalse | JTrue => Word(v)
    case JString(s) => Quoted(Escape(s))
    case JList(_) => Bracketed([], PrintedItems(v, 0))
    case JObject(_) => Braced([], PrintedFields(v, 0))
  }

  function PrintedItems(v: Json, k: nat): Items
    requires v.JList? && NumberFree(v) && k <= |v.l|
    decreases v, 0, |v.l| - k
  {
    if k == |v.l| then NoItems
    else if k + 1 == |v.l| then LastItem(Printed(v.l[k]), [])
    else MoreItems(Printed(v.l[k]), [], [], PrintedItems(v, k + 1))
  }

  function PrintedField(v: Json, k: nat): Field
    requires v.JObject? && NumberFree(v) && k < |v.o|
    decreases v, 0, |v.o| - k, 0
  {
    Field(Escape(v.o[k].0), [], [], Printed(v.o[k].1))
  }

  function PrintedFields(v: Json, k: nat): Fields
    requires v.JObject? && NumberFree(v) && k <= |v.o|
    decreases v, 0, |v.o| - k, 1
  {
    if k == |v.o| then NoFields
    else if k + 1 == |v.o| then LastField(PrintedField(v, k), [])
    else MoreFields(PrintedField(v, k), [], [], PrintedFields(v, k + 1))
  }

  /** It is one way to write the value, and it spells the printed text. */
  lemma {:induction false} PrintedIs(v: Json)
    requires NumberFree(v)
    ensures Valid(Printed(v)) && Spell(Printed(v)) == Dump(v) && Meaning(Printed(v)) == v
    decreases v, 0
  {
    match v {
      case JNull | JFalse | JTrue =>
      case JString(s) => EscapeIsContent(s);
      case JList(l) =>
        PrintedItemsAre(v, 0);
        assert v.l[0..] == v.l;
      case JObject(o) =>
        PrintedFieldsAre(v, 0);
        assert v.o[0..] == v.o;
    }
  }

  lemma {:induction false} PrintedItemsAre(v: Json, k: nat)
    requires v.JList? && NumberFree(v) && k <= |v.l|
    ensures var items := PrintedItems(v, k);
            && ValidItems(items) && SpellItems(items) == DumpItems(v, k) && ItemMeanings(items) == v.l[k..]
            && (items.NoItems? <==> k == |v.l|)
    decreases v, 0, |v.l| - k
  {
    hide Printed, Spell, Dump, Meaning, Valid;
    if k < |v.l| {
      PrintedIs(v.l[k]);
      PrintedItemsAre(v, k + 1);
      assert v.l[k..] == [v.l[k]] + v.l[k + 1..];
    }
  }

  lemma {:induction false} PrintedFieldIs(v: Json, k: nat)
    requires v.JObject? && NumberFree(v) && k < |v.o|
    ensures var f := PrintedField(v, k);
            ValidField(f) && SpellField(f) == DumpField(v, k) && FieldMeaning(f) == v.o[k]
    decreases v, 0, |v.o| - k, 0
  {
    EscapeIsContent(v.o[k].0);
    PrintedIs(v.o[k].1);
  }

  lemma {:induction false} PrintedFieldsAre(v: Json, k: nat)
    requires v.JObject? && NumberFree(v) && k <= |v.o|
    ensures var fields := PrintedFields(v, k);
            && ValidFields(fields) && SpellFields(fields) == DumpFields(v, k) && FieldMeanings(fields) == v.o[k..]
            && (fields.NoFields? <==> k == |v.o|)
    decreases v, 0, |v.o| - k, 1
  {
    hide PrintedField, SpellField, DumpField, FieldMeaning, ValidField, NumberFree;
    if k < |v.o| {
      PrintedFieldIs(v, k);
      PrintedFieldsAre(v, k + 1);
      assert v.o[k..] == [v.o[k]] + v.o[k + 1..];
    }
  }

  /** A printed value, wherever it stands in a text, is parsed to the value and ends where its text ends. */
  lemma {:induction false} ParseDumped(text: Text, i: nat, v: Json, end: nat)
    requires NumberFree(v) && Occurs(text, i, Dump(v)) && end == i + |Dump(v)|
    ensures ParseValue(text, i) == Some((v, end))
  {
    PrintedIs(v);
    ParsesSpelled(text, i, Printed(v), end);
  }

  /** Printing a value and loading the text gives the value back. */
  lemma {:induction false} RoundTrip(v: Json)
    requires NumberFree(v)
    ensures Load(Dump(v)) == Some(v)
  {
    hide Printed, Spell, Dump, Meaning, Valid, Load;
    PrintedIs(v);
    DocumentLoads(Dump(v), [], Printed(v), [], []);
  }

  // ---------------------------------------------------------------- printing as the source does it

  /** `escape`: appends to the output one character after the other. */
  method EscapeInto(s: Text, out: Text) returns (r: Text)
    ensures r == out + Escape(s)
  {
    r := out;
    var k := 0;
    while k < |s|
      invariant 0 <= k <= |s| && r + Escape(s[k..]) == out + Escape(s)
    {
      assert s[k..][1..] == s[k + 1..] && s[k..][0] == s[k];
      assert r + (EscapeByte(s[k]) + Escape(s[k + 1..])) == (r + EscapeByte(s[k])) + Escape(s[k + 1..]);
      r := r + EscapeByte(s[k]);
      k := k + 1;
    }
    assert r + [] == r;
  }

  method DumpStringInto(s: Text, out: Text) returns (r: Text)
    ensures r == out + DumpString(s)
  {
    r := EscapeInto(s, out + ['"']);
    r := r + ['"'];
    assert out + ['"'] + Escape(s) + ['"'] == out + DumpString(s);
  }

  /** `dump_internal` */
  method DumpInto(v: Json, out: Text) returns (r: Text)
    requires NumberFree(v)
    ensures r == out + Dump(v)
    decreases v
  {
    match v {
      case JNull => r := out + ['n', 'u', 'l', 'l'];
      case JFalse => r := out + ['f', 'a', 'l', 's', 'e'];
      case JTrue => r := out + ['t', 'r', 'u', 'e'];
      case JString(s) => r := DumpStringInto(s, out);
      case JList(l) => r := DumpListInto(v, out);
      case JObject(o) => r := DumpObjectInto(v, out);
    }
  }

  method DumpListInto(v: Json, out: Text) returns (r: Text)
    requires v.JList? && NumberFree(v)
    ensures r == out + Dump(v)
    decreases v, 0
  {
    r := out + ['['];
    var k := 0;
    while k < |v.l|
      invariant 0 <= k <= |v.l|
      invariant r + (if 0 < k < |v.l| then [','] else []) + DumpItems(v, k) == out + ['['] + DumpItems(v, 0)
    {
      ghost var rest := if k + 1 < |v.l| then [','] + DumpItems(v, k + 1) else [];
      if k != 0 {
        r := r + [','];
      }
      ghost var before := r;
      r := DumpInto(v.l[k], r);
      FourParts(before, Dump(v.l[k]), rest);
      FourParts(r, [','], if k + 1 < |v.l| then DumpItems(v, k + 1) else []);
      k := k + 1;
    }
    ListEnds(r, out, v);
    r := r + [']'];
  }

  method DumpObjectInto(v: Json, out: Text) returns (r: Text)
    requires v.JObject? && NumberFree(v)
    ensures r == out + Dump(v)
    decreases v, 0
  {
    r := out + ['{'];
    var k := 0;
    while k < |v.o|
      invariant 0 <= k <= |v.o|
      invariant r + (if 0 < k < |v.o| then [','] else []) + DumpFields(v, k) == out + ['{'] + DumpFields(v, 0)
    {
      ghost var rest := if k + 1 < |v.o| then [','] + DumpFields(v, k + 1) else [];
      if k != 0 {
        r := r + [','];
      }
      ghost var before := r;
      var key := DumpStringInto(v.o[k].0, r);
      r := DumpInto(v.o[k].1, key + [':']);
      FieldDumped(before, v, k);
      FourParts(before, DumpField(v, k), rest);
      FourParts(r, [','], if k + 1 < |v.o| then DumpFields(v, k + 1) else []);
      k := k + 1;
    }
    ObjectEnds(r, out, v);
    r := r + ['}'];
  }

  lemma {:induction false} FieldDumped(before: Text, v: Json, k: nat)
    requires v.JObject? && NumberFree(v) && k < |v.o|
    ensures before + DumpString(v.o[k].0) + [':'] + Dump(v.o[k].1) == before + DumpField(v, k)
  {
    FourParts(before + DumpString(v.o[k].0), [':'], Dump(v.o[k].1));
    FourParts(before, DumpString(v.o[k].0), [':'] + Dump(v.o[k].1));
    FourParts(DumpString(v.o[k].0), [':'], Dump(v.o[k].1));
  }

  lemma {:induction false} FourParts(a: Text, b: Text, c: Text)
    ensures (a + b) + c == a + (b + c) && a + [] == a
  {
  }

  lemma {:induction false} ListEnds(r: Text, out: Text, v: Json)
    requires v.JList? && NumberFree(v) && r + [] + DumpItems(v, |v.l|) == out + ['['] + DumpItems(v, 0)
    ensures r + [']'] == out + Dump(v)
  {
    FourParts(r, [], []);
    FourParts(out, ['['], DumpItems(v, 0));
    FourParts(out, ['['] + DumpItems(v, 0), [']']);
  }

  lemma {:induction false} ObjectEnds(r: Text, out: Text, v: Json)
    requires v.JObject? && NumberFree(v) && r + [] + DumpFields(v, |v.o|) == out + ['{'] + DumpFields(v, 0)
    ensures r + ['}'] == out + Dump(v)
  {
    FourParts(r, [], []);
    FourParts(out, ['{'], DumpFields(v, 0));
    FourParts(out, ['{'] + DumpFields(v, 0), ['}']);
  }
}
