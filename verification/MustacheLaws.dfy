/**
 What the sections, names and values of a template in lib/crow/include/crow/mustache.h render to, case by case of the
 value that is found.
 */
module MustacheLaws {
  import opened Common
  import opened MustacheRender
  import opened MustacheTree

  // ---------------------------------------------------------------- names

  function Join(parts: seq<string>): string
    requires parts != []
  {
    if |parts| == 1 then parts[0] else parts[0] + "." + Join(parts[1..])
  }

  /** The parts of a name hold no dot, and with dots between them they are the name. */
  lemma {:induction false} PartsOfName(name: string)
    ensures Join(SplitDots(name)) == name && forall k :: 0 <= k < |SplitDots(name)| ==> '.' !in SplitDots(name)[k]
    decreases |name|
  {
    var parts := SplitDots(name);
    if name == "" {
      assert parts == [""];
    } else {
      var rest := SplitDots(name[1..]);
      PartsOfName(name[1..]);
      assert name == [name[0]] + name[1..];
      if name[0] == '.' {
        assert parts[1..] == rest;
        assert "" + "." + name[1..] == name;
      } else {
        JoinLonger(name[0], rest);
        assert forall k :: 1 <= k < |parts| ==> parts[k] == rest[k];
      }
    }
  }

  lemma {:induction false} JoinLonger(c: char, rest: seq<string>)
    requires rest != []
    ensures Join([[c] + rest[0]] + rest[1..]) == [c] + Join(rest)
  {
    var parts := [[c] + rest[0]] + rest[1..];
    assert parts[1..] == rest[1..];
    if |rest| > 1 {
      assert ([c] + rest[0]) + "." + Join(rest[1..]) == [c] + (rest[0] + "." + Join(rest[1..]));
    }
  }

  /** Only one division of a name has parts without dots. */
  lemma {:induction false} PartsAreUnique(a: seq<string>, b: seq<string>)
    requires a != [] && b != [] && Join(a) == Join(b)
    requires (forall k :: 0 <= k < |a| ==> '.' !in a[k]) && (forall k :: 0 <= k < |b| ==> '.' !in b[k])
    ensures a == b
    decreases |a|
  {
    FirstDot(a);
    FirstDot(b);
    assert |a[0]| == |b[0]|;
    assert a[0] == Join(a)[..|a[0]|] == b[0];
    if |a| > 1 {
      assert Join(a)[|a[0]| + 1..] == Join(a[1..]) && Join(b)[|a[0]| + 1..] == Join(b[1..]);
      PartsAreUnique(a[1..], b[1..]);
      assert a == [a[0]] + a[1..] && b == [b[0]] + b[1..];
    }
  }

  lemma {:induction false} FirstDot(a: seq<string>)
    requires a != [] && '.' !in a[0]
    ensures |a[0]| <= |Join(a)| && Join(a)[..|a[0]|] == a[0] && forall k :: 0 <= k < |a[0]| ==> Join(a)[k] != '.'
    ensures if |a| == 1 then |Join(a)| == |a[0]| else |Join(a)| > |a[0]| && Join(a)[|a[0]|] == '.'
  {
    assert forall k :: 0 <= k < |a[0]| ==> Join(a)[k] == a[0][k];
  }

  /** From the first value each key leads to the next. */
  ghost predicate Follows(chain: seq<Json>, c: Json, names: seq<string>, v: Json) {
    && |chain| == |names| + 1 && chain[0] == c && chain[|names|] == v
    && forall k :: 0 <= k < |names| ==> Leads(chain[k], names[k], chain[k + 1])
  }

  predicate Leads(c: Json, name: string, v: Json) { c.Object? && name in c.o && c.o[name] == v }

  lemma {:induction false} FollowsFirst(chain: seq<Json>, c: Json, names: seq<string>, v: Json)
    requires names != [] && |chain| == |names| + 1
    ensures Follows(chain, c, names, v)
       <==> chain[0] == c && Leads(c, names[0], chain[1]) && Follows(chain[1..], chain[1], names[1..], v)
  {
    if chain[0] == c && Leads(c, names[0], chain[1]) && Follows(chain[1..], chain[1], names[1..], v) {
      forall k | 0 <= k < |names|
        ensures Leads(chain[k], names[k], chain[k + 1])
      {
        if k > 0 {
          assert Leads(chain[1..][k - 1], names[1..][k - 1], chain[1..][k]);
        }
      }
    }
    if Follows(chain, c, names, v) {
      forall k | 0 <= k < |names| - 1
        ensures Leads(chain[1..][k], names[1..][k], chain[1..][k + 1])
      {
        assert Leads(chain[k + 1], names[k + 1], chain[k + 2]);
      }
    }
  }

  /** A path leads to a value exactly when its keys do, one object after the other. */
  lemma {:induction false} ResolveIff(c: Json, names: seq<string>, v: Json)
    ensures Resolve(c, names) == [v] <==> exists chain :: Follows(chain, c, names, v)
    decreases |names|
  {
    if names == [] {
      assert Resolve(c, names) == [v] ==> Follows([c], c, names, v);
    } else {
      if c.Object? && names[0] in c.o {
        ResolveIff(c.o[names[0]], names[1..], v);
        if Resolve(c, names) == [v] {
          var rest :| Follows(rest, c.o[names[0]], names[1..], v);
          var chain := [c] + rest;
          assert chain[1..] == rest;
          FollowsFirst(chain, c, names, v);
        }
      }
      forall chain | Follows(chain, c, names, v)
        ensures Resolve(c, names) == [v]
      {
        FollowsFirst(chain, c, names, v);
        assert Follows(chain[1..], c.o[names[0]], names[1..], v);
      }
    }
  }

  // ---------------------------------------------------------------- sections

  /** A value that the plain section renders its body for. */
  predicate Counts(found: seq<Json>) {
    && found != []
    && match found[0]
       case Null => false
       case False => false
       case List(l) => l != []
       case _ => true
  }

  /** Some results one behind the other; one that throws ends it all. */
  ghost function InOrder(rs: seq<Result>): Result {
    if exists k :: 0 <= k < |rs| && rs[k].Thrown? then Thrown
    else Text(Concat(seq(|rs|, k requires 0 <= k < |rs| => if rs[k].Text? then rs[k].out else "")))
  }

  /** The body of a section with the text in front of its end, for one context. */
  function BodyWith(t: Tree, stack: seq<Json>, context: Json): Result
    requires t.Section? && WellFormedTree(t)
  {
    Then(RenderForest(t.body, stack + [context]), Text(t.last))
  }

  lemma {:induction false} InOrderMore(r: Result, rs: seq<Result>)
    ensures InOrder([r] + rs) == Then(r, InOrder(rs)) && InOrder([]) == Text("")
  {
    var all := [r] + rs;
    assert all[0] == r && forall k :: 0 <= k < |rs| ==> all[k + 1] == rs[k];
    var outs := seq(|rs|, k requires 0 <= k < |rs| => if rs[k].Text? then rs[k].out else "");
    var allOuts := seq(|all|, k requires 0 <= k < |all| => if all[k].Text? then all[k].out else "");
    assert allOuts[1..] == outs;
    if exists k :: 0 <= k < |rs| && rs[k].Thrown? {
      var k :| 0 <= k < |rs| && rs[k].Thrown?;
      assert all[k + 1].Thrown?;
    }
  }

  lemma {:induction false} EachInOrder(t: Tree, stack: seq<Json>, l: seq<Json>)
    requires stack != [] && t.Section? && WellFormedTree(t)
    ensures RenderEach(t.body, t.last, stack, l)
         == InOrder(seq(|l|, k requires 0 <= k < |l| => BodyWith(t, stack, l[k])))
    decreases |l|
  {
    var rs := seq(|l|, k requires 0 <= k < |l| => BodyWith(t, stack, l[k]));
    InOrderMore(Text(""), []);
    if l != [] {
      EachInOrder(t, stack, l[1..]);
      var rest := seq(|l[1..]|, k requires 0 <= k < |l[1..]| => BodyWith(t, stack, l[1..][k]));
      assert rs == [BodyWith(t, stack, l[0])] + rest;
      InOrderMore(BodyWith(t, stack, l[0]), rest);
    }
  }

  /** A plain section: nothing behind its text for a missing name, null, false and an empty list; its body for every
      element of a list, in their order; and its body once, with the value on the stack, for all others. */
  lemma PlainSection(t: Tree, stack: seq<Json>)
    requires stack != [] && t.Section? && !t.inverted && WellFormedTree(t)
    ensures var found := Lookup(t.name, stack);
            RenderTree(t, stack) ==
              if !Counts(found) then Text(t.text)
              else if found[0].List? then
                Then(Text(t.text), InOrder(seq(|found[0].l|, k requires 0 <= k < |found[0].l| =>
                                                 BodyWith(t, stack, found[0].l[k]))))
              else Then(Text(t.text), BodyWith(t, stack, found[0]))
  {
    var found := Lookup(t.name, stack);
    if found != [] {
      if found[0].List? {
        EachInOrder(t, stack, found[0].l);
      } else {
        OneContext(t, stack, found[0]);
      }
    }
    ThenAssoc(Text(t.text), Text(""), Text(""));
  }

  lemma OneContext(t: Tree, stack: seq<Json>, context: Json)
    requires stack != [] && t.Section? && WellFormedTree(t)
    ensures RenderEach(t.body, t.last, stack, [context]) == BodyWith(t, stack, context)
  {
    ThenAssoc(BodyWith(t, stack, context), Text(""), Text(""));
  }

  /** An inverted section renders its body where the plain one does not: once, with null on the stack. */
  lemma InvertedSection(t: Tree, stack: seq<Json>)
    requires stack != [] && t.Section? && t.inverted && WellFormedTree(t)
    ensures RenderTree(t, stack) ==
            if Counts(Lookup(t.name, stack)) then Text(t.text) else Then(Text(t.text), BodyWith(t, stack, Null))
  {
    OneContext(t, stack, Null);
    ThenAssoc(Text(t.text), Text(""), Text(""));
  }

  /** What is rendered in a row is rendered one behind the other. */
  lemma {:induction false} ForestParts(a: seq<Tree>, b: seq<Tree>, stack: seq<Json>)
    requires stack != [] && WellFormed(a) && WellFormed(b)
    ensures WellFormed(a + b) && RenderForest(a + b, stack) == Then(RenderForest(a, stack), RenderForest(b, stack))
    decreases |a|
  {
    if a == [] {
      assert a + b == b;
      ThenAssoc(RenderForest(b, stack), Text(""), Text(""));
    } else {
      ForestParts(a[1..], b, stack);
      assert (a + b)[1..] == a[1..] + b;
      ThenAssoc(RenderTree(a[0], stack), RenderForest(a[1..], stack), RenderForest(b, stack));
    }
  }

  // ---------------------------------------------------------------- values

  /** A value tag: empty for a missing name, the printed form of a number, a string with its special characters
      written as references unless the tag is unescaped; anything else throws. */
  lemma ValueTag(t: Tree, stack: seq<Json>)
    requires stack != [] && t.Leaf? && (t.tag.Value? || t.tag.Unescaped?)
    ensures var found := Lookup(t.tag.name, stack);
            RenderTree(t, stack) ==
              if found == [] then Text(t.text)
              else if found[0].Number? then Text(t.text + found[0].text)
              else if found[0].String? then
                Text(t.text + if t.tag.Unescaped? then found[0].s else Escape(found[0].s))
              else Thrown
  {
    ThenAssoc(Text(t.text), Text(""), Text(""));
  }

  predicate IsSpecial(c: char) { c == '&' || c == '<' || c == '>' || c == '"' || c == '\'' || c == '/' }

  function Decimal(s: string): nat {
    if s == "" then 0
    else Decimal(s[..|s| - 1]) * 10 + if '0' <= s[|s| - 1] <= '9' then s[|s| - 1] as int - '0' as int else 0
  }

  function HexValue(c: char): nat {
    if '0' <= c <= '9' then c as int - '0' as int else if 'A' <= c <= 'F' then c as int - 'A' as int + 10 else 0
  }

  function Hexadecimal(s: string): nat {
    if s == "" then 0 else Hexadecimal(s[..|s| - 1]) * 16 + HexValue(s[|s| - 1])
  }

  /** The number of the character that a reference of HTML names, by the text between its `&` and its `;`. */
  function ReferenceCode(ref: string): nat {
    if ref == "amp" then 0x26 else if ref == "lt" then 0x3C else if ref == "gt" then 0x3E
    else if ref == "quot" then 0x22
    else if |ref| > 2 && ref[..2] == "#x" then Hexadecimal(ref[2..])
    else if |ref| > 1 && ref[0] == '#' then Decimal(ref[1..])
    else 0
  }

  /** Where the reference that starts a text ends. */
  function Semicolon(s: string, i: nat): (r: nat)
    requires i <= |s|
    ensures i <= r <= |s|
    decreases |s| - i
  {
    if i == |s| || s[i] == ';' then i else Semicolon(s, i + 1)
  }

  /** Reading a text with references; the numbers of its characters. */
  function Decode(s: string): seq<int>
    decreases |s|
  {
    if s == "" then []
    else if s[0] == '&' && Semicolon(s, 1) < |s| then
      [ReferenceCode(s[1..Semicolon(s, 1)])] + Decode(s[Semicolon(s, 1) + 1..])
    else [s[0] as int] + Decode(s[1..])
  }

  lemma {:induction false} SemicolonIs(s: string, i: nat, k: nat)
    requires i <= k < |s| && s[k] == ';' && forall j :: i <= j < k ==> s[j] != ';'
    ensures Semicolon(s, i) == k
    decreases k - i
  {
    if i < k {
      SemicolonIs(s, i + 1, k);
    }
  }

  lemma NumericReferences()
    ensures ReferenceCode("#39") == 39 && ReferenceCode("#x2F") == 0x2F
  {
    assert "39"[..1] == "3" && "3"[..0] == "" && "#39"[1..] == "39" && "#39"[..2] == "#3";
    assert Decimal("") == 0;
    assert Decimal("3") == 3;
    assert Decimal("39") == 39;
    assert "2F"[..1] == "2" && "2"[..0] == "" && "#x2F"[..2] == "#x" && "#x2F"[2..] == "2F";
    assert Hexadecimal("") == 0;
    assert Hexadecimal("2") == 2;
    assert Hexadecimal("2F") == 0x2F;
  }

  lemma SpecialIsReference(c: char)
    requires IsSpecial(c)
    ensures var e := EscapeChar(c);
            && |e| >= 4 && e[0] == '&' && e[|e| - 1] == ';' && ReferenceCode(e[1..|e| - 1]) == c as int
            && forall k :: 1 <= k < |e| - 1 ==> e[k] != ';' && !IsSpecial(e[k])
  {
    hide Decimal, Hexadecimal;
    NumericReferences();
    match c {
      case '&' => assert EscapeChar(c)[1..4] == "amp";
      case '<' => assert EscapeChar(c)[1..3] == "lt";
      case '>' => assert EscapeChar(c)[1..3] == "gt";
      case '"' => assert EscapeChar(c)[1..5] == "quot";
      case '\'' => assert EscapeChar(c)[1..4] == "#39";
      case _ => assert EscapeChar(c)[1..5] == "#x2F";
    }
  }

  lemma OneEscaped(c: char)
    ensures forall k :: 0 <= k < |EscapeChar(c)| && IsSpecial(EscapeChar(c)[k]) ==> EscapeChar(c)[k] == '&'
  {
    if IsSpecial(c) {
      SpecialIsReference(c);
    }
  }

  /** Nothing special is left in an escaped string but the references' `&`. */
  lemma {:induction false} NothingSpecialLeft(s: string)
    ensures forall k :: 0 <= k < |Escape(s)| && IsSpecial(Escape(s)[k]) ==> Escape(s)[k] == '&'
    decreases |s|
  {
    hide EscapeChar, IsSpecial;
    if s != "" {
      var e, rest := EscapeChar(s[0]), Escape(s[1..]);
      OneEscaped(s[0]);
      NothingSpecialLeft(s[1..]);
      assert Escape(s) == e + rest;
    }
  }

  /** Reading the escaped form back gives the string. */
  lemma {:induction false} EscapeReadsBack(s: string)
    ensures Decode(Escape(s)) == seq(|s|, k requires 0 <= k < |s| => s[k] as int)
    decreases |s|
  {
    hide EscapeChar;
    if s != "" {
      EscapeReadsBack(s[1..]);
      DecodeFirst(s[0], Escape(s[1..]));
      assert seq(|s|, k requires 0 <= k < |s| => s[k] as int)
          == [s[0] as int] + seq(|s[1..]|, k requires 0 <= k < |s[1..]| => s[1..][k] as int);
    }
  }

  lemma DecodeFirst(c: char, rest: string)
    ensures Decode(EscapeChar(c) + rest) == [c as int] + Decode(rest)
  {
    hide ReferenceCode, EscapeChar;
    var e := EscapeChar(c);
    var s := e + rest;
    if IsSpecial(c) {
      SpecialIsReference(c);
      assert forall k :: 0 <= k < |e| ==> s[k] == e[k];
      SemicolonIs(s, 1, |e| - 1);
      assert s[1..|e| - 1] == e[1..|e| - 1] && s[|e|..] == rest;
    } else {
      PlainStays(c);
      assert s[1..] == rest;
    }
  }

  lemma PlainStays(c: char)
    requires !IsSpecial(c)
    ensures EscapeChar(c) == [c]
  {
  }
}
