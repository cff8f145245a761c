/**
 Rendering in lib/crow/include/crow/mustache.h: the loop over the flat action array with its jumps and its
 context stack, proved equal to the recursive meaning of the nested sections.
 */
module MustacheRender {
  import opened MustacheTree

  /** The values a template is rendered with; a number carries its printed form. */
  datatype Json =
    | Null | False | True
    | Number(text: string)
    | String(s: string)
    | List(l: seq<Json>)
    | Object(o: map<string, Json>)

  datatype Result = Text(out: string) | Thrown

  // ---------------------------------------------------------------- names

  /** The parts of a dotted name. */
  function SplitDots(name: string): (r: seq<string>)
    ensures r != []
  {
    if name == "" then [""]
    else
      var rest := SplitDots(name[1..]);
      if name[0] == '.' then [""] + rest else [[name[0]] + rest[0]] + rest[1..]
  }

  /** Following the parts of a name through nested objects. */
  function Resolve(c: Json, names: seq<string>): (r: seq<Json>)
    ensures |r| <= 1
    decreases |names|
  {
    if names == [] then [c]
    else if c.Object? && names[0] in c.o then Resolve(c.o[names[0]], names[1..])
    else []
  }

  /** The value found for a name: none, or the one in the innermost context of the stack that has it. */
  function Lookup(name: string, stack: seq<Json>): (r: seq<Json>)
    requires stack != []
    ensures |r| <= 1
  {
    if name == "." then [stack[|stack| - 1]] else LookupPath(SplitDots(name), stack)
  }

  function LookupPath(names: seq<string>, stack: seq<Json>): (r: seq<Json>)
    ensures |r| <= 1
    decreases |stack|
  {
    if stack == [] then []
    else
      var r := Resolve(stack[|stack| - 1], names);
      if r != [] then r else LookupPath(names, stack[..|stack| - 1])
  }

  /** The innermost context that has the name wins: the one at i, or none if i is -1. */
  lemma {:induction false} InnermostWins(names: seq<string>, stack: seq<Json>) returns (i: int)
    ensures -1 <= i < |stack| && forall j :: i < j < |stack| ==> Resolve(stack[j], names) == []
    ensures LookupPath(names, stack) == if i == -1 then [] else Resolve(stack[i], names)
    ensures i != -1 ==> Resolve(stack[i], names) != []
    decreases |stack|
  {
    if stack == [] {
      i := -1;
    } else if Resolve(stack[|stack| - 1], names) != [] {
      i := |stack| - 1;
    } else {
      i := InnermostWins(names, stack[..|stack| - 1]);
    }
  }

  // ---------------------------------------------------------------- the meaning of nested sections

  function EscapeChar(c: char): string {
    if c == '&' then "&amp;"
    else if c == '<' then "&lt;"
    else if c == '>' then "&gt;"
    else if c == '"' then "&quot;"
    else if c == '\'' then "&#39;"
    else if c == '/' then "&#x2F;"
    else [c]
  }

  function Escape(s: string): string { if s == "" then "" else EscapeChar(s[0]) + Escape(s[1..]) }

  /** The text of a value tag; a name that is not found is empty. */
  function RenderValue(tag: Tag, stack: seq<Json>): Result
    requires stack != [] && (tag.Value? || tag.Unescaped?)
  {
    var found := Lookup(tag.name, stack);
    if found == [] then Text("")
    else
      match found[0]
      case Number(text) => Text(text)
      case String(s) => Text(if tag.Value? then Escape(s) else s)
      case _ => Thrown
  }

  function Then(a: Result, b: Result): Result {
    if a.Thrown? || b.Thrown? then Thrown else Text(a.out + b.out)
  }

  /** The contexts a section renders its body with, one after the other. */
  function Contexts(inverted: bool, found: seq<Json>): seq<Json> {
    if inverted then
      if found == [] then [Null]
      else
        match found[0]
        case List(l) => if l != [] then [] else [Null]
        case False | Null => [Null]
        case _ => []
    else
      if found == [] then []
      else
        match found[0]
        case List(l) => l
        case Number(_) | String(_) | Object(_) | True => [found[0]]
        case False | Null => []
  }

  function RenderForest(ts: seq<Tree>, stack: seq<Json>): Result
    requires stack != [] && WellFormed(ts)
    decreases ts, 0
  {
    if ts == [] then Text("") else Then(RenderTree(ts[0], stack), RenderForest(ts[1..], stack))
  }

  function RenderTree(t: Tree, stack: seq<Json>): Result
    requires stack != [] && WellFormedTree(t)
    decreases t, 0
  {
    match t
    case Leaf(text, tag) => Then(Text(text), if tag.Ignore? then Text("") else RenderValue(tag, stack))
    case Section(text, inverted, name, body, last) =>
      Then(Text(text), RenderEach(body, last, stack, Contexts(inverted, Lookup(name, stack))))
  }

  /** The body of a section once for each of its contexts. */
  function RenderEach(body: seq<Tree>, last: string, stack: seq<Json>, contexts: seq<Json>): Result
    requires stack != [] && WellFormed(body)
    decreases body, |contexts| + 1
  {
    if contexts == [] then Text("")
    else Then(RenderBody(body, last, stack + [contexts[0]]), RenderEach(body, last, stack, contexts[1..]))
  }

  function RenderBody(ts: seq<Tree>, last: string, stack: seq<Json>): Result
    requires stack != [] && WellFormed(ts)
    decreases ts, 1
  {
    Then(RenderForest(ts, stack), Text(last))
  }

  lemma {:induction false} ThenAssoc(a: Result, b: Result, c: Result)
    ensures Then(Then(a, b), c) == Then(a, Then(b, c))
    ensures Then(a, Text("")) == a && Then(Text(""), a) == a
  {
    if a.Text? && b.Text? && c.Text? {
      assert (a.out + b.out) + c.out == a.out + (b.out + c.out);
    }
  }

  // ---------------------------------------------------------------- the flat form

  function Texts(toks: seq<Token>): seq<string> { seq(|toks|, i requires 0 <= i < |toks| => toks[i].text) }

  /** A level of nesting that the loop is inside of: what is left to do there, and the text at its end. */
  datatype Level = Level(rest: seq<Tree>, last: string)

  /** The sections stand in the arrays from index at on. */
  ghost predicate Stand(fragments: seq<string>, actions: seq<Action>, ts: seq<Tree>, at: nat) {
    var n := |Flatten(ts)|;
    && at + n <= |actions| == |fragments|
    && actions[at..at + n] == Compile(ts, at) && fragments[at..at + n] == Texts(Flatten(ts))
  }

  ghost predicate TreeStands(fragments: seq<string>, actions: seq<Action>, t: Tree, at: nat) {
    var n := |FlattenTree(t)|;
    && at + n <= |actions| == |fragments|
    && actions[at..at + n] == CompileTree(t, at) && fragments[at..at + n] == Texts(FlattenTree(t))
  }

  /** From index at on, the arrays hold what is left of the levels, innermost last, up to end. */
  ghost predicate Holds(fragments: seq<string>, actions: seq<Action>, levels: seq<Level>, at: nat, end: nat)
    decreases |levels|
  {
    && levels != [] && |actions| == |fragments| && end < |fragments|
    && var top := levels[|levels| - 1];
       var n := |Flatten(top.rest)|;
       && WellFormed(top.rest) && at + n <= end
       && Stand(fragments, actions, top.rest, at) && fragments[at + n] == top.last
       && if |levels| == 1 then at + n == end
          else at + n < end && actions[at + n].tag.Close? &&
               Holds(fragments, actions, levels[..|levels| - 1], at + n + 1, end)
  }

  /** What is left to render: each level with its part of the stack. */
  function RenderLevels(levels: seq<Level>, stack: seq<Json>): Result
    requires |stack| >= |levels| > 0 && forall k :: 0 <= k < |levels| ==> WellFormed(levels[k].rest)
    decreases |levels|
  {
    var top := levels[|levels| - 1];
    var here := RenderBody(top.rest, top.last, stack);
    if |levels| == 1 then here else Then(here, RenderLevels(levels[..|levels| - 1], stack[..|stack| - 1]))
  }

  ghost predicate AllWellFormed(levels: seq<Level>) { forall k :: 0 <= k < |levels| ==> WellFormed(levels[k].rest) }

  lemma {:induction false} HoldsWellFormed(fragments: seq<string>, actions: seq<Action>, levels: seq<Level>, at: nat,
      end: nat)
    requires Holds(fragments, actions, levels, at, end)
    ensures AllWellFormed(levels)
    decreases |levels|
  {
    if |levels| > 1 {
      HoldsWellFormed(fragments, actions, levels[..|levels| - 1], at + |Flatten(levels[|levels| - 1].rest)| + 1, end);
    }
  }

  /** The levels after the first tree at the top is done. */
  function Rest(levels: seq<Level>): seq<Level>
    requires levels != [] && levels[|levels| - 1].rest != []
  {
    var k := |levels| - 1;
    levels[..k] + [Level(levels[k].rest[1..], levels[k].last)]
  }

  /** The end of the range is reached when nothing is left on the only level. */
  lemma HoldsInside(fragments: seq<string>, actions: seq<Action>, levels: seq<Level>, at: nat, end: nat)
    requires Holds(fragments, actions, levels, at, end)
    ensures levels != [] && at <= end < |actions| == |fragments|
  {
  }

  lemma {:induction false} AtEnd(fragments: seq<string>, actions: seq<Action>, levels: seq<Level>, at: nat, end: nat)
    requires Holds(fragments, actions, levels, at, end)
    ensures at <= end
    ensures at == end <==> |levels| == 1 && levels[0].rest == []
  {
    var top := levels[|levels| - 1];
    if top.rest != [] {
      assert |Flatten(top.rest)| == |FlattenTree(top.rest[0])| + |Flatten(top.rest[1..])|;
    }
  }

  /** The first tree at the top takes its tokens' place in the arrays. */
  lemma {:induction false} FirstTree(fragments: seq<string>, actions: seq<Action>, levels: seq<Level>, at: nat,
      end: nat)
    requires Holds(fragments, actions, levels, at, end) == true && levels[|levels| - 1].rest != []
    ensures var t := levels[|levels| - 1].rest[0];
            var n := |FlattenTree(t)|;
            && WellFormedTree(t) && at + n <= end
            && TreeStands(fragments, actions, t, at) == true
            && Holds(fragments, actions, Rest(levels), at + n, end) == true
  {
    var ts := levels[|levels| - 1].rest;
    FirstInArrays(fragments, actions, ts, at);
    HoldsWithoutFirst(fragments, actions, levels, at, end, |FlattenTree(ts[0])|);
  }

  lemma {:induction false} HoldsWithoutFirst(fragments: seq<string>, actions: seq<Action>, levels: seq<Level>,
                                             at: nat, end: nat, n: nat)
    requires Holds(fragments, actions, levels, at, end) == true && levels[|levels| - 1].rest != []
    requires var ts := levels[|levels| - 1].rest;
             n + |Flatten(ts[1..])| == |Flatten(ts)| && Stand(fragments, actions, ts[1..], at + n) == true
    ensures Holds(fragments, actions, Rest(levels), at + n, end) == true
  {
    assert Rest(levels)[..|levels| - 1] == levels[..|levels| - 1];
  }

  lemma {:induction false} FirstInArrays(fragments: seq<string>, actions: seq<Action>, ts: seq<Tree>, at: nat)
    requires ts != [] && Stand(fragments, actions, ts, at) == true
    ensures var n := |FlattenTree(ts[0])|;
            && |Flatten(ts)| == n + |Flatten(ts[1..])| && Stand(fragments, actions, ts[1..], at + n) == true
            && TreeStands(fragments, actions, ts[0], at) == true
  {
    var n, m := |FlattenTree(ts[0])|, |Flatten(ts[1..])|;
    Halves(actions, at, n, m, CompileTree(ts[0], at), Compile(ts[1..], at + n));
    assert Texts(Flatten(ts)) == Texts(FlattenTree(ts[0])) + Texts(Flatten(ts[1..]));
    Halves(fragments, at, n, m, Texts(FlattenTree(ts[0])), Texts(Flatten(ts[1..])));
  }

  lemma {:induction false} Halves<T>(s: seq<T>, at: nat, n: nat, m: nat, a: seq<T>, b: seq<T>)
    requires at + n + m <= |s| && |a| == n && |b| == m && s[at..at + n + m] == a + b
    ensures s[at..at + n] == a && s[at + n..at + n + m] == b
  {
    assert s[at..at + n] == s[at..at + n + m][..n];
    assert s[at + n..at + n + m] == s[at..at + n + m][n..];
  }

  lemma {:induction false} LeafAt(fragments: seq<string>, actions: seq<Action>, levels: seq<Level>, at: nat, end: nat)
    requires Holds(fragments, actions, levels, at, end) == true
    requires levels[|levels| - 1].rest != [] && levels[|levels| - 1].rest[0].Leaf?
    ensures var t := levels[|levels| - 1].rest[0];
            && at < end && actions[at].tag == t.tag && fragments[at] == t.text && WellFormedTree(t)
            && Holds(fragments, actions, Rest(levels), at + 1, end)
  {
    FirstTree(fragments, actions, levels, at, end);
    var t := levels[|levels| - 1].rest[0];
    assert actions[at..at + 1][0] == CompileTree(t, at)[0];
    assert fragments[at..at + 1][0] == Texts(FlattenTree(t))[0];
  }

  /** A section: its target is the index of its end; its body can be taken as a range of its own or entered. */
  lemma {:induction false} SectionAt(fragments: seq<string>, actions: seq<Action>, levels: seq<Level>, at: nat,
      end: nat)
    requires Holds(fragments, actions, levels, at, end) == true
    requires levels[|levels| - 1].rest != [] && levels[|levels| - 1].rest[0].Section?
    ensures var t := levels[|levels| - 1].rest[0];
            var pos := at + 1 + |Flatten(t.body)|;
            && at < pos < end && WellFormedTree(t) && SectionStands(fragments, actions, t, at, pos) == true
            && Holds(fragments, actions, Rest(levels), pos + 1, end) == true
  {
    var t := levels[|levels| - 1].rest[0];
    FirstTree(fragments, actions, levels, at, end);
    SectionParts(fragments, actions, t, at, at + 1 + |Flatten(t.body)|);
  }

  /** The two ends of a section, at the indices at and pos, and its body between them. */
  ghost predicate SectionStands(fragments: seq<string>, actions: seq<Action>, t: Tree, at: nat, pos: nat) {
    && t.Section? && pos == at + 1 + |Flatten(t.body)| && pos < |actions| && pos < |fragments|
    && actions[at] == Action(OpenTag(t.inverted, t.name), pos) && actions[pos].tag.Close?
    && actions[at + 1..pos] == Compile(t.body, at + 1)
    && fragments[at] == t.text && fragments[pos] == t.last && fragments[at + 1..pos] == Texts(Flatten(t.body))
  }

  lemma {:induction false} SectionParts(fragments: seq<string>, actions: seq<Action>, t: Tree, at: nat, pos: nat)
    requires t.Section? && pos == at + 1 + |Flatten(t.body)| && TreeStands(fragments, actions, t, at) == true
    ensures SectionStands(fragments, actions, t, at, pos) == true
  {
    var k := |Flatten(t.body)|;
    var first, last := Action(OpenTag(t.inverted, t.name), pos), Action(Close(t.name), at);
    assert actions[at] == first && actions[at + 1..pos] == Compile(t.body, at + 1) && actions[pos] == last by {
      Ends(actions, at, k, first, Compile(t.body, at + 1), last);
    }
    assert Texts(FlattenTree(t)) == [t.text] + Texts(Flatten(t.body)) + [t.last];
    Ends(fragments, at, k, t.text, Texts(Flatten(t.body)), t.last);
  }

  lemma {:induction false} Ends<T>(s: seq<T>, at: nat, k: nat, x: T, mid: seq<T>, y: T)
    requires at + k + 2 <= |s| && |mid| == k && s[at..at + k + 2] == [x] + mid + [y]
    ensures s[at] == x && s[at + 1..at + 1 + k] == mid && s[at + 1 + k] == y
  {
    Halves(s, at, 1 + k, 1, [x] + mid, [y]);
    Halves(s, at, 1, k, [x], mid);
    assert s[at] == s[at..at + 1][0];
    assert s[at + 1 + k] == s[at + 1 + k..at + 2 + k][0];
  }

  lemma {:induction false} SectionJump(fragments: seq<string>, actions: seq<Action>, levels: seq<Level>, at: nat,
      end: nat)
    requires Holds(fragments, actions, levels, at, end) == true
    requires levels[|levels| - 1].rest != [] && levels[|levels| - 1].rest[0].Section?
    ensures var t := levels[|levels| - 1].rest[0];
            && actions[at] == Action(OpenTag(t.inverted, t.name), at + 1 + |Flatten(t.body)|) && fragments[at] == t.text
            && at < actions[at].pos < end && WellFormedTree(t)
            && Holds(fragments, actions, Rest(levels), actions[at].pos + 1, end) == true
  {
    SectionAt(fragments, actions, levels, at, end);
  }

  /** The body of a section as a range of its own. */
  lemma {:induction false} BodyAlone(fragments: seq<string>, actions: seq<Action>, levels: seq<Level>, at: nat,
      end: nat)
    requires Holds(fragments, actions, levels, at, end) == true
    requires levels[|levels| - 1].rest != [] && levels[|levels| - 1].rest[0].Section?
    ensures var t := levels[|levels| - 1].rest[0];
            Holds(fragments, actions, [Level(t.body, t.last)], at + 1, at + 1 + |Flatten(t.body)|)
  {
    SectionAt(fragments, actions, levels, at, end);
  }

  /** The body of a section as a new level. */
  lemma {:induction false} BodyEntered(fragments: seq<string>, actions: seq<Action>, levels: seq<Level>, at: nat,
      end: nat)
    requires Holds(fragments, actions, levels, at, end) == true
    requires levels != [] && levels[|levels| - 1].rest != [] && levels[|levels| - 1].rest[0].Section?
    ensures var t := levels[|levels| - 1].rest[0];
            Holds(fragments, actions, Rest(levels) + [Level(t.body, t.last)], at + 1, end) == true
  {
    hide Holds, SectionStands, Flatten, Rest;
    var t := levels[|levels| - 1].rest[0];
    SectionAt(fragments, actions, levels, at, end);
    HoldsOneMore(fragments, actions, Rest(levels), t, at, at + 1 + |Flatten(t.body)|, end);
  }

  lemma {:induction false} HoldsOneMore(fragments: seq<string>, actions: seq<Action>, outer: seq<Level>, t: Tree,
                                        at: nat, pos: nat, end: nat)
    requires Holds(fragments, actions, outer, pos + 1, end) == true && pos < end
    requires SectionStands(fragments, actions, t, at, pos) == true && WellFormed(t.body)
    ensures Holds(fragments, actions, outer + [Level(t.body, t.last)], at + 1, end) == true
  {
    var levels := outer + [Level(t.body, t.last)];
    assert levels[..|levels| - 1] == outer && levels[|levels| - 1] == Level(t.body, t.last);
  }

  lemma {:induction false} CloseAt(fragments: seq<string>, actions: seq<Action>, levels: seq<Level>, at: nat, end: nat)
    requires Holds(fragments, actions, levels, at, end) == true && |levels| > 1 && levels[|levels| - 1].rest == []
    ensures at < end && actions[at].tag.Close? && fragments[at] == levels[|levels| - 1].last
    ensures Holds(fragments, actions, levels[..|levels| - 1], at + 1, end)
  {
  }

  // ---------------------------------------------------------------- what is left to render

  lemma {:induction false} RenderOneMore(levels: seq<Level>, stack: seq<Json>)
    requires |stack| >= |levels| > 0 && AllWellFormed(levels) && levels[|levels| - 1].rest != []
    ensures AllWellFormed(Rest(levels)) && WellFormedTree(levels[|levels| - 1].rest[0])
    ensures RenderLevels(levels, stack)
         == Then(RenderTree(levels[|levels| - 1].rest[0], stack), RenderLevels(Rest(levels), stack))
  {
    var top := levels[|levels| - 1];
    var r := Rest(levels);
    assert r[..|r| - 1] == levels[..|levels| - 1];
    var one, more, last := RenderTree(top.rest[0], stack), RenderForest(top.rest[1..], stack), Text(top.last);
    ThenAssoc(one, more, last);
    assert RenderBody(top.rest, top.last, stack) == Then(one, RenderBody(top.rest[1..], top.last, stack));
    if |levels| > 1 {
      ThenAssoc(one, Then(more, last), RenderLevels(levels[..|levels| - 1], stack[..|stack| - 1]));
    }
  }

  lemma {:induction false} RenderEntered(levels: seq<Level>, stack: seq<Json>, t: Tree, context: Json)
    requires |stack| >= |levels| > 0 && AllWellFormed(levels) && t.Section? && WellFormedTree(t)
    ensures AllWellFormed(levels + [Level(t.body, t.last)])
    ensures RenderLevels(levels + [Level(t.body, t.last)], stack + [context])
         == Then(RenderEach(t.body, t.last, stack, [context]), RenderLevels(levels, stack))
  {
    var inner, pushed := levels + [Level(t.body, t.last)], stack + [context];
    assert inner[..|levels|] == levels && pushed[..|stack|] == stack;
  }

  lemma {:induction false} RenderClosed(levels: seq<Level>, stack: seq<Json>)
    requires |stack| >= |levels| > 1 && AllWellFormed(levels) && levels[|levels| - 1].rest == []
    ensures AllWellFormed(levels[..|levels| - 1])
    ensures RenderLevels(levels, stack)
         == Then(Text(levels[|levels| - 1].last), RenderLevels(levels[..|levels| - 1], stack[..|stack| - 1]))
  {
    ThenAssoc(Text(""), Text(levels[|levels| - 1].last), Text(""));
  }

  // ---------------------------------------------------------------- the loop

  datatype Entry = Skip | Enter(context: Json) | Repeat(l: seq<Json>)

  function ContextsOf(how: Entry): seq<Json> {
    match how case Skip => [] case Enter(pushed) => [pushed] case Repeat(l) => l
  }

  class Template {
    var fragments: seq<string>
    var actions: seq<Action>

    constructor ()
      ensures fragments == [] && actions == []
    {
      fragments, actions := [], [];
    }

    /** `parse`, after the body has been split at the delimiters: a token for every tag, and the text behind the
        last one.  An unclosed block is accepted. */
    method Parse(toks: seq<Token>, tail: string) returns (result: Parsed)
      requires fragments == [] && actions == []
      modifies this
      ensures result == ParseAll(START, toks)
      ensures result.Ok? ==> actions == result.p.actions + [Action(Ignore, 0)] && fragments == Texts(toks) + [tail]
    {
      var blockPositions: seq<nat> := [];
      var k := 0;
      while k < |toks|
        invariant k <= |toks| && ParseAll(START, toks[..k]) == Ok(Parsing(actions, blockPositions))
        invariant fragments == Texts(toks[..k])
      {
        assert toks[..k + 1] == toks[..k] + [toks[k]];
        ParseOneMore(START, toks[..k], toks[k]);
        fragments := fragments + [toks[k].text];
        result := ParseAction(toks[k].tag, blockPositions);
        k := k + 1;
        if !result.Ok? {
          StoppedParse(toks, k);
          return;
        }
        blockPositions := result.p.blocks;
      }
      assert toks[..k] == toks;
      result := Ok(Parsing(actions, blockPositions));
      fragments := fragments + [tail];
      actions := actions + [Action(Ignore, 0)];
    }

    /** The switch of parse: one more action, and the block stack kept up to date. */
    method ParseAction(tag: Tag, blockPositions: seq<nat>) returns (result: Parsed)
      requires ValidParsing(Parsing(actions, blockPositions))
      modifies `actions
      ensures result == ParseTag(Parsing(old(actions), blockPositions), tag)
      ensures result.Ok? ==> actions == result.p.actions
    {
      match tag {
        case Open(_) | Else(_) =>
          result := Ok(Parsing(actions + [Action(tag, 0)], blockPositions + [|actions|]));
          actions := actions + [Action(tag, 0)];
        case Close(name) =>
          if blockPositions == [] {
            return NoOpenBlock;
          }
          var b := blockPositions[|blockPositions| - 1];
          if actions[b].tag.name != name {
            return NotMatched;
          }
          actions := actions[b := actions[b].(pos := |actions|)];
          actions := actions + [Action(tag, b)];
          result := Ok(Parsing(actions, blockPositions[..|blockPositions| - 1]));
        case _ =>
          actions := actions + [Action(tag, 0)];
          result := Ok(Parsing(actions, blockPositions));
      }
    }

    /** `find_context`: the parts of the name against the contexts from the top of the stack down. */
    method FindContext(name: string, stack: seq<Json>) returns (found: bool, context: Json)
      requires stack != []
      ensures if found then Lookup(name, stack) == [context] else Lookup(name, stack) == [] && context == String("")
    {
      if name == "." {
        return true, stack[|stack| - 1];
      }
      var names := SplitDots(name);
      var i := |stack|;
      assert stack[..i] == stack;
      while i > 0
        invariant 0 <= i <= |stack| && LookupPath(names, stack) == LookupPath(names, stack[..i])
      {
        i := i - 1;
        assert stack[..i + 1][..i] == stack[..i];
        var view := stack[i];
        var j, ok := 0, true;
        while j < |names|
          invariant j <= |names| && Resolve(stack[i], names) == Resolve(view, names[j..])
        {
          assert names[j..][1..] == names[j + 1..];
          if view.Object? && names[j] in view.o {
            view := view.o[names[j]];
          } else {
            ok := false;
            break;
          }
          j := j + 1;
        }
        if ok {
          return true, view;
        }
      }
      return false, String("");
    }

    method AppendValue(tag: Tag, stack: seq<Json>, out: string) returns (result: Result)
      requires stack != [] && (tag.Value? || tag.Unescaped?)
      ensures result == Then(Text(out), RenderValue(tag, stack))
    {
      var found, context := FindContext(tag.name, stack);
      assert Escape("") == "" && out + "" == out;
      match context {
        case Number(text) => return Text(out + text);
        case String(s) => return Text(out + if tag.Value? then Escape(s) else s);
        case _ => return Thrown;
      }
    }

    /** The body of a list's section, once for every element. */
    method RenderList(l: seq<Json>, lo: nat, hi: nat, stack: seq<Json>, out: string, ghost level: Level)
        returns (result: Result)
      requires stack != [] && Holds(fragments, actions, [level], lo, hi)
      ensures result == Then(Text(out), RenderEach(level.rest, level.last, stack, l))
      decreases hi - lo, 5
    {
      result := Text(out);
      var k := 0;
      ghost var target := Then(Text(out), RenderEach(level.rest, level.last, stack, l));
      assert l[0..] == l;
      while k < |l|
        invariant 0 <= k <= |l| && result.Text?
        invariant target == Then(result, RenderEach(level.rest, level.last, stack, l[k..]))
      {
        ghost var before := result;
        var popped;
        result, popped := RenderInternal(lo, hi, stack + [l[k]], result.out, level);
        NextElement(level, stack, l, k, before);
        if result.Thrown? {
          return;
        }
        k := k + 1;
      }
      ThenAssoc(result, Text(""), Text(""));
    }

    /** One turn of the loop: the text in front of the tag, then the action. */
    method Turn(current: nat, actionEnd: nat, stack: seq<Json>, out: string, ghost levels: seq<Level>)
      returns (result: Result, next: nat, stack': seq<Json>, ghost levels': seq<Level>)
      requires current < actionEnd && Holds(fragments, actions, levels, current, actionEnd)
      requires |stack| >= |levels| && AllWellFormed(levels)
      ensures result.Thrown? ==> Then(Text(out), RenderLevels(levels, stack)) == Thrown
      ensures result.Text? ==>
                && current < next && Holds(fragments, actions, levels', next, actionEnd) == true
                && AllWellFormed(levels') && |stack'| - |levels'| == |stack| - |levels|
                && stack'[..|stack| - |levels| + 1] == stack[..|stack| - |levels| + 1]
                && Then(Text(out), RenderLevels(levels, stack)) == Then(result, RenderLevels(levels', stack'))
      decreases actionEnd - current, 3
    {
      AtEnd(fragments, actions, levels, current, actionEnd);
      var action := actions[current];
      var text := out + fragments[current];
      if action.tag.Close? {
        ClosesLevel(fragments, actions, levels, current, actionEnd);
        RenderClosed(levels, stack);
        AppendText(out, fragments[current], RenderLevels(levels[..|levels| - 1], stack[..|stack| - 1]));
        return Text(text), current + 1, stack[..|stack| - 1], levels[..|levels| - 1];
      }
      LeafOrSection(fragments, actions, levels, current, actionEnd);
      RenderOneMore(levels, stack);
      if IsBlock(action.tag) {
        result, next, stack', levels' := TurnBlock(current, actionEnd, stack, out, levels);
      } else {
        ghost var t := levels[|levels| - 1].rest[0];
        result := Text(text);
        if !action.tag.Ignore? {
          result := AppendValue(action.tag, stack, text);
        }
        LeafMeans(out, t, stack, if t.tag.Ignore? then Text("")
          else RenderValue(t.tag, stack), RenderLevels(Rest(levels), stack));
        next, stack', levels' := current + 1, stack, Rest(levels);
      }
    }

    /** The action for a section: skip it, go into it, or render its body for every element of a list. */
    method TurnBlock(current: nat, actionEnd: nat, stack: seq<Json>, out: string, ghost levels: seq<Level>)
      returns (result: Result, next: nat, stack': seq<Json>, ghost levels': seq<Level>)
      requires current < actionEnd && Holds(fragments, actions, levels, current, actionEnd)
      requires |stack| >= |levels| && AllWellFormed(levels)
      requires levels != [] && levels[|levels| - 1].rest != [] && levels[|levels| - 1].rest[0].Section?
      ensures result.Thrown? ==> Then(Text(out), RenderLevels(levels, stack)) == Thrown
      ensures result.Text? ==>
                && current < next && Holds(fragments, actions, levels', next, actionEnd) == true
                && AllWellFormed(levels') && |stack'| - |levels'| == |stack| - |levels|
                && stack'[..|stack| - |levels| + 1] == stack[..|stack| - |levels| + 1]
                && Then(Text(out), RenderLevels(levels, stack)) == Then(result, RenderLevels(levels', stack'))
      decreases actionEnd - current, 2
    {
      hide Holds, RenderEach, RenderLevels, Lookup;
      HoldsInside(fragments, actions, levels, current, actionEnd);
      ghost var t := levels[|levels| - 1].rest[0];
      SectionJump(fragments, actions, levels, current, actionEnd);
      var action := actions[current];
      var text := out + fragments[current];
      var found, context := FindContext(action.tag.name, stack);
      var how := HowToEnter(action.tag.Else?, found, context);
      SectionMeans(out, levels, stack, ContextsOf(how));
      result, next, stack', levels' := TurnInto(how, current, actionEnd, stack, text, levels);
    }

    method TurnInto(how: Entry, current: nat, actionEnd: nat, stack: seq<Json>, text: string, ghost levels: seq<Level>)
      returns (result: Result, next: nat, stack': seq<Json>, ghost levels': seq<Level>)
      requires current < actionEnd && Holds(fragments, actions, levels, current, actionEnd)
      requires |stack| >= |levels| && AllWellFormed(levels)
      requires levels != [] && levels[|levels| - 1].rest != [] && levels[|levels| - 1].rest[0].Section?
      requires AllWellFormed(Rest(levels)) && WellFormedTree(levels[|levels| - 1].rest[0])
      ensures var t := levels[|levels| - 1].rest[0];
              var meant := Then(Text(text),
                Then(RenderEach(t.body, t.last, stack, ContextsOf(how)), RenderLevels(Rest(levels), stack)));
              && (result.Thrown? ==> meant == Thrown)
              && (result.Text? ==>
                    && current < next && Holds(fragments, actions, levels', next, actionEnd) == true
                    && AllWellFormed(levels') && |stack'| - |levels'| == |stack| - |levels|
                    && stack <= stack'
                    && meant == Then(result, RenderLevels(levels', stack')))
      decreases actionEnd - current, 1
    {
      hide Holds, RenderEach, RenderLevels;
      HoldsInside(fragments, actions, levels, current, actionEnd);
      ghost var t := levels[|levels| - 1].rest[0];
      SectionJump(fragments, actions, levels, current, actionEnd);
      var pos := actions[current].pos;
      match how {
        case Skip =>
          NoContexts(Text(text), t, stack, RenderLevels(Rest(levels), stack));
          return Text(text), pos + 1, stack, Rest(levels);
        case Enter(pushed) =>
          result, next := Text(text), current + 1;
          stack', levels' := EnterSection(current, actionEnd, stack, levels, pushed);
        case Repeat(l) =>
          result := RepeatBody(l, current, actionEnd, stack, text, levels);
          next, stack', levels' := pos + 1, stack, Rest(levels);
      }
    }

    method RepeatBody(l: seq<Json>, current: nat, ghost actionEnd: nat, stack: seq<Json>, text: string,
        ghost levels: seq<Level>)
      returns (result: Result)
      requires current < actionEnd && Holds(fragments, actions, levels, current, actionEnd) == true
      requires levels[|levels| - 1].rest != [] && levels[|levels| - 1].rest[0].Section?
      requires |stack| >= |levels| && AllWellFormed(Rest(levels))
      requires WellFormedTree(levels[|levels| - 1].rest[0])
      ensures var t := levels[|levels| - 1].rest[0];
              var rest := RenderLevels(Rest(levels), stack);
              Then(Text(text), Then(RenderEach(t.body, t.last, stack, l), rest)) == Then(result, rest)
      decreases actionEnd - current, 0
    {
      ghost var t := levels[|levels| - 1].rest[0];
      SectionJump(fragments, actions, levels, current, actionEnd);
      var pos := actions[current].pos;
      BodyAlone(fragments, actions, levels, current, actionEnd);
      ThenAssoc(Text(text), RenderEach(t.body, t.last, stack, l), RenderLevels(Rest(levels), stack));
      result := RenderList(l, current + 1, pos, stack, text, Level(t.body, t.last));
    }

    /** The two switches over the type of the value that a section's name stands for. */
    method HowToEnter(inverted: bool, found: bool, context: Json) returns (how: Entry)
      ensures Contexts(inverted, if found then [context] else []) == ContextsOf(how)
    {
      if inverted {
        if !found {
          return Enter(Null);
        }
        match context {
          case List(l) => return if l == [] then Enter(Null) else Skip;
          case False | Null => return Enter(Null);
          case _ => return Skip;
        }
      }
      if !found {
        return Skip;
      }
      match context {
        case List(l) => return Repeat(l);
        case Number(_) | String(_) | Object(_) | True => return Enter(context);
        case False | Null => return Skip;
      }
    }

    /** Going into a section with a context: the loop goes on with the body. */
    method EnterSection(ghost current: nat, ghost actionEnd: nat, stack: seq<Json>, ghost levels: seq<Level>,
        context: Json)
      returns (stack': seq<Json>, ghost levels': seq<Level>)
      requires Holds(fragments, actions, levels, current, actionEnd)
      requires |stack| >= |levels| && AllWellFormed(levels)
      requires levels[|levels| - 1].rest != [] && levels[|levels| - 1].rest[0].Section?
      ensures var t := levels[|levels| - 1].rest[0];
              && stack' == stack + [context] && AllWellFormed(Rest(levels)) && WellFormedTree(t)
              && Holds(fragments, actions, levels', current + 1, actionEnd) == true && AllWellFormed(levels')
              && |stack'| - |levels'| == |stack| - |levels|
              && RenderLevels(levels', stack')
              == Then(RenderEach(t.body, t.last, stack, [context]), RenderLevels(Rest(levels), stack))
    {
      ghost var t := levels[|levels| - 1].rest[0];
      BodyEntered(fragments, actions, levels, current, actionEnd);
      RenderOneMore(levels, stack);
      RenderEntered(Rest(levels), stack, t, context);
      stack' := stack + [context];
      levels' := Rest(levels) + [Level(t.body, t.last)];
    }

    /** `render_internal` for the range of some nested sections: it appends to out exactly what they mean, and
        leaves the context stack as it was. */
    method RenderInternal(actionBegin: nat, actionEnd: nat, stack: seq<Json>, out: string, ghost level: Level)
      returns (result: Result, stack': seq<Json>)
      requires stack != [] && Holds(fragments, actions, [level], actionBegin, actionEnd)
      ensures result == Then(Text(out), RenderBody(level.rest, level.last, stack))
      ensures result.Text? ==> stack' == stack
      decreases actionEnd - actionBegin, 4
    {
      var current := actionBegin;
      result, stack' := Text(out), stack;
      ghost var levels := [level];
      ghost var target := Then(Text(out), RenderBody(level.rest, level.last, stack));
      AtEnd(fragments, actions, levels, current, actionEnd);
      while current < actionEnd
        invariant actionBegin <= current <= actionEnd && Holds(fragments, actions, levels, current, actionEnd)
        invariant AllWellFormed(levels) && |stack'| == |stack| + |levels| - 1 && stack'[..|stack|] == stack
        invariant result.Text? && target == Then(result, RenderLevels(levels, stack'))
        decreases actionEnd - current
      {
        result, current, stack', levels := Turn(current, actionEnd, stack', result.out, levels);
        if result.Thrown? {
          return;
        }
        AtEnd(fragments, actions, levels, current, actionEnd);
      }
      AtEnd(fragments, actions, levels, current, actionEnd);
      assert stack'[..|stack|] == stack';
      ThenAssoc(Text(""), Text(fragments[actionEnd]), Text(""));
      result := Text(result.out + fragments[actionEnd]);
    }

    /** `render`: a parsed template whose blocks are all closed renders to the meaning of its sections. */
    method Render(context: Json, ghost ts: seq<Tree>, ghost tail: string) returns (result: Result)
      requires WellFormed(ts) && actions == Compile(ts, 0) + [Action(Ignore, 0)]
          && fragments == Texts(Flatten(ts)) + [tail]
      ensures result == RenderBody(ts, tail, [context])
    {
      WholeTemplate(fragments, actions, ts, tail);
      ThenAssoc(RenderBody(ts, tail, [context]), Text(""), Text(""));
      var stack;
      result, stack := RenderInternal(0, |fragments| - 1, [context], "", Level(ts, tail));
    }
  }

  lemma {:induction false} StoppedParse(toks: seq<Token>, k: nat)
    requires k <= |toks| && !ParseAll(START, toks[..k]).Ok?
    ensures ParseAll(START, toks) == ParseAll(START, toks[..k])
  {
    ParseConcat(START, toks[..k], toks[k..]);
    assert toks == toks[..k] + toks[k..];
  }

  lemma {:induction false} WholeTemplate(fragments: seq<string>, actions: seq<Action>, ts: seq<Tree>, tail: string)
    requires WellFormed(ts) && actions == Compile(ts, 0) + [Action(Ignore, 0)]
        && fragments == Texts(Flatten(ts)) + [tail]
    ensures Holds(fragments, actions, [Level(ts, tail)], 0, |fragments| - 1)
  {
    var n := |Flatten(ts)|;
    assert actions[0..n] == Compile(ts, 0) && fragments[0..n] == Texts(Flatten(ts));
  }

  lemma {:induction false} AppendText(a: string, b: string, rest: Result)
    ensures Then(Text(a), Then(Text(b), rest)) == Then(Text(a + b), rest)
  {
    ThenAssoc(Text(a), Text(b), rest);
  }

  lemma {:induction false} NextElement(level: Level, stack: seq<Json>, l: seq<Json>, k: nat, before: Result)
    requires stack != [] && WellFormed(level.rest) && k < |l|
    ensures Then(before, RenderEach(level.rest, level.last, stack, l[k..]))
         == Then(Then(before, RenderBody(level.rest, level.last, stack + [l[k]])),
                 RenderEach(level.rest, level.last, stack, l[k + 1..]))
  {
    assert l[k..][1..] == l[k + 1..] && l[k..][0] == l[k];
    ThenAssoc(before, RenderBody(level.rest, level.last, stack + [l[k]]),
      RenderEach(level.rest, level.last, stack, l[k + 1..]));
  }

  /** A closing tag is met exactly when the top level has nothing left. */
  lemma {:induction false} ClosesLevel(fragments: seq<string>, actions: seq<Action>, levels: seq<Level>, at: nat,
      end: nat)
    requires Holds(fragments, actions, levels, at, end) && at < end && actions[at].tag.Close?
    ensures |levels| > 1 && levels[|levels| - 1].rest == [] && fragments[at] == levels[|levels| - 1].last
    ensures Holds(fragments, actions, levels[..|levels| - 1], at + 1, end)
  {
    AtEnd(fragments, actions, levels, at, end);
    var top := levels[|levels| - 1];
    if top.rest != [] {
      if top.rest[0].Leaf? {
        LeafAt(fragments, actions, levels, at, end);
      } else {
        SectionAt(fragments, actions, levels, at, end);
      }
    } else {
      CloseAt(fragments, actions, levels, at, end);
    }
  }

  /** Any other tag belongs to the first tree of the top level. */
  lemma {:induction false} LeafOrSection(fragments: seq<string>, actions: seq<Action>, levels: seq<Level>, at: nat,
      end: nat)
    requires Holds(fragments, actions, levels, at, end) && at < end && !actions[at].tag.Close?
    ensures var rest := levels[|levels| - 1].rest;
            && rest != [] && fragments[at] == rest[0].text && WellFormedTree(rest[0])
            && (rest[0].Leaf? <==> !IsBlock(actions[at].tag))
            && (rest[0].Leaf? ==>
              rest[0].tag == actions[at].tag && Holds(fragments, actions, Rest(levels), at + 1, end))
  {
    AtEnd(fragments, actions, levels, at, end);
    var top := levels[|levels| - 1];
    if top.rest == [] {
      CloseAt(fragments, actions, levels, at, end);
    } else if top.rest[0].Leaf? {
      LeafAt(fragments, actions, levels, at, end);
    } else {
      SectionAt(fragments, actions, levels, at, end);
    }
  }

  lemma {:induction false} LeafMeans(out: string, t: Tree, stack: seq<Json>, value: Result, rest: Result)
    requires stack != [] && t.Leaf? && WellFormedTree(t) && value == if t.tag.Ignore? then Text("")
        else RenderValue(t.tag, stack)
    ensures Then(Text(out), Then(RenderTree(t, stack), rest)) == Then(Then(Text(out + t.text), value), rest)
    ensures Then(Text(out + t.text), Text("")) == Text(out + t.text)
  {
    ThenAssoc(Text(out), Text(t.text), value);
    ThenAssoc(Text(out), RenderTree(t, stack), rest);
    ThenAssoc(Text(out + t.text), Text(""), rest);
  }

  /** What is left, with the first section replaced by its body in each of its contexts. */
  lemma {:induction false} SectionMeans(out: string, levels: seq<Level>, stack: seq<Json>, contexts: seq<Json>)
    requires |stack| >= |levels| > 0 && AllWellFormed(levels)
    requires levels[|levels| - 1].rest != [] && levels[|levels| - 1].rest[0].Section?
    requires var t := levels[|levels| - 1].rest[0]; contexts == Contexts(t.inverted, Lookup(t.name, stack))
    ensures var t := levels[|levels| - 1].rest[0];
            && AllWellFormed(Rest(levels)) && WellFormedTree(t)
            && Then(Text(out), RenderLevels(levels, stack))
               == Then(Text(out + t.text),
                 Then(RenderEach(t.body, t.last, stack, contexts), RenderLevels(Rest(levels), stack)))
  {
    RenderOneMore(levels, stack);
    var t := levels[|levels| - 1].rest[0];
    var each, rest := RenderEach(t.body, t.last, stack, contexts), RenderLevels(Rest(levels), stack);
    ThenAssoc(Text(out), Text(t.text), each);
    ThenAssoc(Text(out), RenderTree(t, stack), rest);
    ThenAssoc(Text(out + t.text), each, rest);
  }

  lemma {:induction false} NoContexts(text: Result, t: Tree, stack: seq<Json>, rest: Result)
    requires stack != [] && t.Section? && WellFormedTree(t)
    ensures Then(text, Then(RenderEach(t.body, t.last, stack, []), rest)) == Then(text, rest)
  {
    ThenAssoc(text, Text(""), rest);
    ThenAssoc(rest, Text(""), rest);
  }
}
