/**
 Templates of lib/crow/include/crow/mustache.h: tags split off from the text, the flat action array that parse
 builds from them with its block stack, and the nested sections that the array stands for.
 */
module MustacheTree {

  /** What stands between delimiters. */
  datatype Tag =
    | Ignore
    | Value(name: string)
    | Unescaped(name: string)
    | Open(name: string)
    | Else(name: string)
    | Close(name: string)

  /** A tag with the text in front of it. */
  datatype Token = Token(text: string, tag: Tag)

  datatype Action = Action(tag: Tag, pos: nat)

  predicate IsBlock(tag: Tag) { tag.Open? || tag.Else? }

  // ---------------------------------------------------------------- parse

  /** The actions so far and the positions of the blocks still open, innermost last. */
  datatype Parsing = Parsing(actions: seq<Action>, blocks: seq<nat>)

  datatype Parsed =
    | Ok(p: Parsing)
    | NotMatched          // the pair of names differs: an exception
    | NoOpenBlock         // a closing tag with an empty block stack: undefined behaviour

  ghost predicate ValidParsing(p: Parsing) {
    forall k :: 0 <= k < |p.blocks| ==> p.blocks[k] < |p.actions| && IsBlock(p.actions[p.blocks[k]].tag)
  }

  function ParseTag(p: Parsing, tag: Tag): (r: Parsed)
    requires ValidParsing(p)
    ensures r.Ok? ==> ValidParsing(r.p) && |r.p.actions| == |p.actions| + 1
  {
    var n := |p.actions|;
    match tag
    case Open(_) | Else(_) => Ok(Parsing(p.actions + [Action(tag, 0)], p.blocks + [n]))
    case Close(name) =>
      if p.blocks == [] then NoOpenBlock
      else
        var b := p.blocks[|p.blocks| - 1];
        if p.actions[b].tag.name != name then NotMatched
        else Ok(Parsing(p.actions[b := p.actions[b].(pos := n)] + [Action(tag, b)], p.blocks[..|p.blocks| - 1]))
    case _ => Ok(Parsing(p.actions + [Action(tag, 0)], p.blocks))
  }

  function ParseAll(p: Parsing, toks: seq<Token>): (r: Parsed)
    requires ValidParsing(p)
    ensures r.Ok? ==> ValidParsing(r.p) && |r.p.actions| == |p.actions| + |toks|
    decreases |toks|
  {
    if toks == [] then Ok(p)
    else match ParseAll(p, toks[..|toks| - 1])
      case Ok(q) => ParseTag(q, toks[|toks| - 1].tag)
      case e => e
  }

  const START := Parsing([], [])

  lemma {:induction false} ParseOneMore(p: Parsing, toks: seq<Token>, tok: Token)
    requires ValidParsing(p)
    ensures ParseAll(p, toks + [tok]) == match ParseAll(p, toks) case Ok(q) => ParseTag(q, tok.tag) case e => e
  {
    assert (toks + [tok])[..|toks|] == toks;
  }

  lemma {:induction false} ParseConcat(p: Parsing, a: seq<Token>, b: seq<Token>)
    requires ValidParsing(p)
    ensures ParseAll(p, a + b) == match ParseAll(p, a) case Ok(q) => ParseAll(q, b) case e => e
    decreases |b|
  {
    if b == [] {
      assert a + b == a;
    } else {
      ParseConcat(p, a, b[..|b| - 1]);
      assert a + b == (a + b[..|b| - 1]) + [b[|b| - 1]];
      ParseOneMore(p, a + b[..|b| - 1], b[|b| - 1]);
    }
  }

  // ---------------------------------------------------------------- nested sections

  /** A tag, or a section with the text in front of it and the text in front of its end. */
  datatype Tree =
    | Leaf(text: string, tag: Tag)
    | Section(text: string, inverted: bool, name: string, body: seq<Tree>, last: string)

  function OpenTag(inverted: bool, name: string): Tag { if inverted then Else(name) else Open(name) }

  ghost predicate WellFormed(ts: seq<Tree>) {
    forall k :: 0 <= k < |ts| ==> WellFormedTree(ts[k])
  }

  ghost predicate WellFormedTree(t: Tree) {
    match t
    case Leaf(_, tag) => tag.Ignore? || tag.Value? || tag.Unescaped?
    case Section(_, _, _, body, _) => forall k :: 0 <= k < |body| ==> WellFormedTree(body[k])
  }

  function Flatten(ts: seq<Tree>): seq<Token>
    decreases ts
  {
    if ts == [] then [] else FlattenTree(ts[0]) + Flatten(ts[1..])
  }

  function FlattenTree(t: Tree): (r: seq<Token>)
    ensures r != []
    decreases t
  {
    match t
    case Leaf(text, tag) => [Token(text, tag)]
    case Section(text, inverted, name, body, last) =>
      [Token(text, OpenTag(inverted, name))] + Flatten(body) + [Token(last, Close(name))]
  }

  lemma {:induction false} FlattenConcat(a: seq<Tree>, b: seq<Tree>)
    ensures Flatten(a + b) == Flatten(a) + Flatten(b)
    decreases |a|
  {
    if a == [] {
      assert a + b == b;
    } else {
      FlattenConcat(a[1..], b);
      assert (a + b)[1..] == a[1..] + b && (a + b)[0] == a[0];
      Assoc(FlattenTree(a[0]), Flatten(a[1..]), Flatten(b));
    }
  }

  /** The actions for sections placed at an index: a block knows where it ends, an end where it began. */
  function Compile(ts: seq<Tree>, at: nat): (r: seq<Action>)
    ensures |r| == |Flatten(ts)|
    decreases ts
  {
    if ts == [] then [] else CompileTree(ts[0], at) + Compile(ts[1..], at + |FlattenTree(ts[0])|)
  }

  function CompileTree(t: Tree, at: nat): (r: seq<Action>)
    ensures |r| == |FlattenTree(t)|
    decreases t
  {
    match t
    case Leaf(_, tag) => [Action(tag, 0)]
    case Section(_, inverted, name, body, _) =>
      [Action(OpenTag(inverted, name), at + 1 + |Flatten(body)|)] + Compile(body, at + 1) + [Action(Close(name), at)]
  }

  lemma Assoc<T>(a: seq<T>, b: seq<T>, c: seq<T>)
    ensures (a + b) + c == a + (b + c) && a + [] == a && [] + a == a
  {
  }

  ghost predicate ParsesTo(p: Parsing, toks: seq<Token>, actions: seq<Action>) {
    ValidParsing(p) && ParseAll(p, toks) == Ok(Parsing(p.actions + actions, p.blocks))
  }

  lemma {:induction false} ParsesBoth(p: Parsing, a: seq<Token>, x: seq<Action>, b: seq<Token>, y: seq<Action>)
    requires ParsesTo(p, a, x) && ParsesTo(Parsing(p.actions + x, p.blocks), b, y)
    ensures ParsesTo(p, a + b, x + y)
  {
    ParseConcat(p, a, b);
    Assoc(p.actions, x, y);
  }

  /** Nested sections are parsed to their actions. */
  lemma {:induction false} ParseForest(p: Parsing, ts: seq<Tree>)
    requires ValidParsing(p) && WellFormed(ts)
    ensures ParsesTo(p, Flatten(ts), Compile(ts, |p.actions|))
    decreases ts
  {
    if ts == [] {
      Assoc(p.actions, [], []);
    } else {
      ParseTree(p, ts[0]);
      var q := Parsing(p.actions + CompileTree(ts[0], |p.actions|), p.blocks);
      ParseForest(q, ts[1..]);
      ParsesBoth(p, FlattenTree(ts[0]), CompileTree(ts[0], |p.actions|), Flatten(ts[1..]),
        Compile(ts[1..], |q.actions|));
    }
  }

  lemma {:induction false} ParsesSingle(p: Parsing, tok: Token)
    requires ValidParsing(p)
    ensures ParseAll(p, [tok]) == ParseTag(p, tok.tag)
  {
    ParseOneMore(p, [], tok);
    Assoc([tok], [], []);
  }

  lemma {:induction false} ParseTree(p: Parsing, t: Tree)
    requires ValidParsing(p) && WellFormedTree(t)
    ensures ParsesTo(p, FlattenTree(t), CompileTree(t, |p.actions|))
    decreases t
  {
    match t {
      case Leaf(text, tag) =>
        ParsesSingle(p, Token(text, tag));
      case Section(text, inverted, name, body, last) =>
        var n := |p.actions|;
        var first := Token(text, OpenTag(inverted, name));
        var inside := Parsing(p.actions + [Action(first.tag, 0)], p.blocks + [n]);
        var q := Parsing(inside.actions + Compile(body, n + 1), inside.blocks);
        var r := Parsing(p.actions + CompileTree(t, n), p.blocks);
        assert ParseTag(q, Close(name)) == Ok(r) by {
          SectionCloses(p, q, first.tag, Compile(body, n + 1), Close(name));
        }
        assert ParseAll(p, [first] + Flatten(body)) == Ok(q) by {
          ParsesSingle(p, first);
          ParseForest(inside, body);
          ParsesOn(p, [first], inside, Flatten(body), Compile(body, n + 1));
        }
        ParsesLast(p, [first] + Flatten(body), q, Token(last, Close(name)), r);
    }
  }

  lemma {:induction false} ParsesOn(p: Parsing, a: seq<Token>, q: Parsing, b: seq<Token>, actions: seq<Action>)
    requires ValidParsing(p) && ParseAll(p, a) == Ok(q) && ParsesTo(q, b, actions)
    ensures ParseAll(p, a + b) == Ok(Parsing(q.actions + actions, q.blocks))
  {
    ParseConcat(p, a, b);
  }

  lemma {:induction false} ParsesLast(p: Parsing, a: seq<Token>, q: Parsing, end: Token, r: Parsing)
    requires ValidParsing(p) && ValidParsing(q) && ParseAll(p, a) == Ok(q) && ParseTag(q, end.tag) == Ok(r)
    ensures ParseAll(p, a + [end]) == Ok(r)
  {
    ParseOneMore(p, a, end);
  }

  /** The closing tag fills in where its block ends. */
  lemma {:induction false} SectionCloses(p: Parsing, q: Parsing, tag: Tag, body: seq<Action>, end: Tag)
    requires ValidParsing(p) && IsBlock(tag) && end == Close(tag.name)
    requires q == Parsing(p.actions + [Action(tag, 0)] + body, p.blocks + [|p.actions|])
    ensures ValidParsing(q)
    ensures ParseTag(q, end) == Ok(Parsing(
              p.actions + ([Action(tag, |p.actions| + 1 + |body|)] + body + [Action(end, |p.actions|)]), p.blocks))
  {
    var n := |p.actions|;
    forall k | 0 <= k < |q.blocks|
      ensures q.blocks[k] < |q.actions| && IsBlock(q.actions[q.blocks[k]].tag)
    {
      if k < |p.blocks| { assert q.actions[q.blocks[k]] == p.actions[p.blocks[k]]; }
    }
    assert q.actions[n] == Action(tag, 0);
    assert q.actions[n := Action(tag, n + 1 + |body|)] + [Action(end, n)]
        == p.actions + ([Action(tag, n + 1 + |body|)] + body + [Action(end, n)]);
    assert q.blocks[..|p.blocks|] == p.blocks;
  }

  // ---------------------------------------------------------------- what parse accepts

  /** A block that is open: its token, and what has been closed inside it. */
  datatype Pending = Pending(text: string, inverted: bool, name: string, inner: seq<Tree>)

  function FlattenPending(bottom: seq<Tree>, opens: seq<Pending>): seq<Token>
    decreases |opens|
  {
    if opens == [] then Flatten(bottom)
    else
      var o := opens[|opens| - 1];
      FlattenPending(bottom, opens[..|opens| - 1]) + [Token(o.text, OpenTag(o.inverted, o.name))] + Flatten(o.inner)
  }

  ghost predicate Represents(toks: seq<Token>, p: Parsing, bottom: seq<Tree>, opens: seq<Pending>)
    requires ValidParsing(p)
  {
    && |opens| == |p.blocks| && WellFormed(bottom) && FlattenPending(bottom, opens) == toks
    && forall k :: 0 <= k < |opens| ==>
         p.actions[p.blocks[k]].tag == OpenTag(opens[k].inverted, opens[k].name) && WellFormed(opens[k].inner)
  }

  /** The forest at the top of the block stack grows by one tree. */
  lemma {:induction false} AddTree(bottom: seq<Tree>, opens: seq<Pending>, t: Tree)
      returns (bottom': seq<Tree>, opens': seq<Pending>)
    requires WellFormedTree(t) && WellFormed(bottom) && forall k :: 0 <= k < |opens| ==> WellFormed(opens[k].inner)
    ensures |opens'| == |opens| && WellFormed(bottom')
    ensures forall k :: 0 <= k < |opens| ==>
              opens'[k].inverted == opens[k].inverted && opens'[k].name == opens[k].name && WellFormed(opens'[k].inner)
    ensures FlattenPending(bottom', opens') == FlattenPending(bottom, opens) + FlattenTree(t)
  {
    hide WellFormedTree;
    assert Flatten([t]) == FlattenTree(t) + [];
    if opens == [] {
      bottom', opens' := bottom + [t], opens;
      FlattenConcat(bottom, [t]);
    } else {
      var top := |opens| - 1;
      bottom', opens' := bottom, opens[top := opens[top].(inner := opens[top].inner + [t])];
      FlattenConcat(opens[top].inner, [t]);
      assert opens'[..top] == opens[..top];
    }
  }

  /** What parse accepts consists of closed sections, apart from the blocks left on its stack. */
  lemma {:induction false} AcceptedIsNested(toks: seq<Token>) returns (bottom: seq<Tree>, opens: seq<Pending>)
    requires ParseAll(START, toks).Ok?
    ensures Represents(toks, ParseAll(START, toks).p, bottom, opens)
    decreases |toks|
  {
    if toks == [] {
      bottom, opens := [], [];
    } else {
      var toks0, tok := toks[..|toks| - 1], toks[|toks| - 1];
      bottom, opens := AcceptedIsNested(toks0);
      var p := ParseAll(START, toks0).p;
      match tok.tag {
        case Open(name) => opens := OpenOne(toks0, p, bottom, opens, tok, false);
        case Else(name) => opens := OpenOne(toks0, p, bottom, opens, tok, true);
        case Close(name) => bottom, opens := CloseOne(toks0, p, bottom, opens, tok);
        case _ => bottom, opens := LeafOne(toks0, p, bottom, opens, tok);
      }
      assert toks == toks0 + [tok];
    }
  }

  lemma {:induction false} LeafOne(toks: seq<Token>, p: Parsing, bottom: seq<Tree>, opens: seq<Pending>, tok: Token)
    returns (bottom': seq<Tree>, opens': seq<Pending>)
    requires ValidParsing(p) && Represents(toks, p, bottom, opens) && !IsBlock(tok.tag) && !tok.tag.Close?
    ensures Represents(toks + [tok], ParseTag(p, tok.tag).p, bottom', opens')
  {
    bottom', opens' := AddTree(bottom, opens, Leaf(tok.text, tok.tag));
  }

  lemma {:induction false} OpenOne(toks: seq<Token>, p: Parsing, bottom: seq<Tree>, opens: seq<Pending>, tok: Token,
      inverted: bool)
    returns (opens': seq<Pending>)
    requires ValidParsing(p) && Represents(toks, p, bottom, opens) && IsBlock(tok.tag)
        && tok.tag == OpenTag(inverted, tok.tag.name)
    ensures Represents(toks + [tok], ParseTag(p, tok.tag).p, bottom, opens')
  {
    opens' := opens + [Pending(tok.text, inverted, tok.tag.name, [])];
    assert opens'[..|opens|] == opens;
    assert FlattenPending(bottom, opens') == FlattenPending(bottom, opens) + [tok] + [];
  }

  lemma FourParts<T>(a: seq<T>, b: seq<T>, c: seq<T>, d: seq<T>)
    ensures ((a + b) + c) + d == a + (b + c + d)
  {
  }

  lemma {:induction false} CloseOne(toks: seq<Token>, p: Parsing, bottom: seq<Tree>, opens: seq<Pending>, tok: Token)
    returns (bottom': seq<Tree>, opens': seq<Pending>)
    requires ValidParsing(p) && Represents(toks, p, bottom, opens) && tok.tag.Close? && ParseTag(p, tok.tag).Ok?
    ensures Represents(toks + [tok], ParseTag(p, tok.tag).p, bottom', opens')
  {
    var o, under := opens[|opens| - 1], opens[..|opens| - 1];
    var t := Section(o.text, o.inverted, o.name, o.inner, tok.text);
    bottom', opens' := AddTree(bottom, under, t);
    var q := ParseTag(p, tok.tag).p;
    forall k | 0 <= k < |under|
      ensures q.actions[q.blocks[k]].tag == OpenTag(under[k].inverted, under[k].name)
    {
      assert q.blocks[k] == p.blocks[k];
    }
    FourParts(FlattenPending(bottom, under), [Token(o.text, OpenTag(o.inverted, o.name))], Flatten(o.inner), [tok]);
  }

  /** A template is accepted with every block closed exactly when it is the tokens of some nested sections, and
      then its actions are theirs. */
  lemma {:induction false} ClosedIffNested(toks: seq<Token>)
    ensures (ParseAll(START, toks).Ok? && ParseAll(START, toks).p.blocks == [])
       <==> exists ts :: WellFormed(ts) && Flatten(ts) == toks
    ensures forall ts :: WellFormed(ts) && Flatten(ts) == toks ==>
        ParseAll(START, toks) == Ok(Parsing(Compile(ts, 0), []))
  {
    if ParseAll(START, toks).Ok? && ParseAll(START, toks).p.blocks == [] {
      var bottom, opens := AcceptedIsNested(toks);
      assert WellFormed(bottom) && Flatten(bottom) == toks;
    }
    forall ts | WellFormed(ts) && Flatten(ts) == toks
      ensures ParseAll(START, toks) == Ok(Parsing(Compile(ts, 0), []))
    {
      ParseForest(START, ts);
      Assoc(Compile(ts, 0), [], []);
    }
  }

  // ---------------------------------------------------------------- jumps

  /** The blocks whose jump does not go forward are those still open: their target was never filled in. */
  lemma {:induction false} ForwardIffClosed(toks: seq<Token>)
    requires ParseAll(START, toks).Ok?
    ensures var p := ParseAll(START, toks).p;
            forall i :: 0 <= i < |p.actions| && IsBlock(p.actions[i].tag) ==>
              (i in p.blocks <==> p.actions[i].pos <= i) && (i in p.blocks ==> p.actions[i].pos == 0)
              && p.actions[i].pos < |toks|
    ensures var p := ParseAll(START, toks).p; forall j, k :: 0 <= j < k < |p.blocks| ==> p.blocks[j] < p.blocks[k]
    decreases |toks|
  {
    if toks != [] {
      var toks0, tag := toks[..|toks| - 1], toks[|toks| - 1].tag;
      ForwardIffClosed(toks0);
      var p, q := ParseAll(START, toks0).p, ParseAll(START, toks).p;
      forall i | 0 <= i < |q.actions| && IsBlock(q.actions[i].tag)
        ensures (i in q.blocks <==> q.actions[i].pos <= i) && (i in q.blocks ==> q.actions[i].pos == 0)
        ensures q.actions[i].pos < |toks|
      {
        if tag.Close? {
          ClosedBlocks(p.blocks, i);
        } else if i < |p.actions| {
          assert q.actions[i] == p.actions[i];
        }
      }
    }
  }

  lemma ClosedBlocks(blocks: seq<nat>, i: nat)
    requires blocks != [] && forall j, k :: 0 <= j < k < |blocks| ==> blocks[j] < blocks[k]
    ensures i in blocks[..|blocks| - 1] <==> i in blocks && i != blocks[|blocks| - 1]
  {
  }

  /** Where the content of the k-th open block ends so far. */
  function ContentEnd(n: nat, blocks: seq<nat>, k: nat): nat
    requires k < |blocks|
  {
    if k + 1 < |blocks| then blocks[k + 1] else n
  }

  /** From the tag of the k-th open block up to that of the next one stand these closed sections. */
  ghost predicate OpenContent(toks: seq<Token>, blocks: seq<nat>, inner: seq<Tree>, k: nat)
    requires k < |blocks|
  {
    var end := ContentEnd(|toks|, blocks, k);
    blocks[k] < end <= |toks| && WellFormed(inner) && toks[blocks[k] + 1..end] == Flatten(inner)
  }

  ghost predicate OpenContents(toks: seq<Token>, blocks: seq<nat>, inners: seq<seq<Tree>>) {
    |inners| == |blocks| && forall k :: 0 <= k < |blocks| ==> OpenContent(toks, blocks, inners[k], k)
  }

  lemma SliceOfPrefix<T>(s: seq<T>, n: nat, i: nat, j: nat)
    requires i <= j <= n <= |s|
    ensures s[..n][i..j] == s[i..j]
  {
  }

  /** The actions keep the tags. */
  lemma {:induction false} TagsKept(toks: seq<Token>)
    requires ParseAll(START, toks).Ok?
    ensures forall j :: 0 <= j < |toks| ==> ParseAll(START, toks).p.actions[j].tag == toks[j].tag
    decreases |toks|
  {
    if toks != [] {
      TagsKept(toks[..|toks| - 1]);
    }
  }

  lemma {:induction false} OpenContentsAre(toks: seq<Token>) returns (inners: seq<seq<Tree>>)
    requires ParseAll(START, toks).Ok?
    ensures OpenContents(toks, ParseAll(START, toks).p.blocks, inners)
    decreases |toks|
  {
    hide OpenContent, ContentEnd, WellFormed, Flatten;
    if toks == [] {
      inners := [];
    } else {
      var toks0, tok := toks[..|toks| - 1], toks[|toks| - 1];
      inners := OpenContentsAre(toks0);
      var p := ParseAll(START, toks0).p;
      if IsBlock(tok.tag) {
        inners := ContentsOpened(toks0, p.blocks, inners, tok);
      } else if tok.tag.Close? {
        TagsKept(toks0);
        assert OpenContent(toks0, p.blocks, inners[|inners| - 1], |inners| - 1);
        inners := ContentsClosed(toks0, p.blocks, inners, tok);
      } else if p.blocks != [] {
        inners := ContentsGrown(toks0, p.blocks, inners, Leaf(tok.text, tok.tag), |toks0|, toks);
      }
      assert toks == toks0 + [tok];
    }
  }

  lemma {:induction false} ContentsOpened(toks: seq<Token>, blocks: seq<nat>, inners: seq<seq<Tree>>, tok: Token)
      returns (inners': seq<seq<Tree>>)
    requires OpenContents(toks, blocks, inners)
    ensures OpenContents(toks + [tok], blocks + [|toks|], inners')
  {
    inners' := inners + [[]];
    var now, stack := toks + [tok], blocks + [|toks|];
    forall k | 0 <= k < |stack|
      ensures OpenContent(now, stack, inners'[k], k)
    {
      if k < |blocks| {
        assert OpenContent(toks, blocks, inners[k], k);
        SliceOfPrefix(now, |toks|, blocks[k] + 1, ContentEnd(|toks|, blocks, k));
        assert now[..|toks|] == toks;
      }
    }
  }

  /** A whole tree whose tokens end the text goes to the content of the innermost open block. */
  lemma {:induction false} ContentsGrown(toks: seq<Token>, blocks: seq<nat>, inners: seq<seq<Tree>>, t: Tree, from: nat,
      now: seq<Token>) returns (inners': seq<seq<Tree>>)
    requires blocks != [] && OpenContents(toks, blocks, inners) && WellFormedTree(t)
    requires from == |toks| < |now| && now[..from] == toks && now[from..] == FlattenTree(t)
    ensures OpenContents(now, blocks, inners')
  {
    hide WellFormedTree, FlattenTree;
    var top := |blocks| - 1;
    inners' := inners[top := inners[top] + [t]];
    FlattenConcat(inners[top], [t]);
    FlattenOne(t);
    forall k | 0 <= k < |blocks|
      ensures OpenContent(now, blocks, inners'[k], k)
    {
      assert OpenContent(toks, blocks, inners[k], k);
      if k == top {
        assert now[blocks[k] + 1..] == now[..from][blocks[k] + 1..] + now[from..];
      } else {
        SliceOfPrefix(now, from, blocks[k] + 1, blocks[k + 1]);
      }
    }
  }

  lemma {:induction false} FlattenOne(t: Tree)
    ensures Flatten([t]) == FlattenTree(t)
  {
    assert FlattenTree(t) + [] == FlattenTree(t);
  }

  lemma {:induction false} ContentsClosed(toks: seq<Token>, blocks: seq<nat>, inners: seq<seq<Tree>>, tok: Token)
      returns (inners': seq<seq<Tree>>)
    requires blocks != [] && OpenContents(toks, blocks, inners) && tok.tag.Close?
    requires OpenContent(toks, blocks, inners[|blocks| - 1], |blocks| - 1)
    requires var open := toks[blocks[|blocks| - 1]].tag; IsBlock(open) && open.name == tok.tag.name
    ensures OpenContents(toks + [tok], blocks[..|blocks| - 1], inners')
  {
    var top := |blocks| - 1;
    var b, under := blocks[top], blocks[..top];
    var head := toks[b];
    var t := Section(head.text, head.tag.Else?, head.tag.name, inners[top], tok.text);
    assert FlattenTree(t) == (toks + [tok])[b..] by {
      assert toks[b..] == [head] + toks[b + 1..];
    }
    assert OpenContents(toks[..b], under, inners[..top]) by {
      ContentsBefore(toks, blocks, inners, top);
    }
    if under == [] {
      inners' := [];
    } else {
      inners' := ContentsGrown(toks[..b], under, inners[..top], t, b, toks + [tok]);
    }
  }

  lemma {:induction false} ContentsBefore(toks: seq<Token>, blocks: seq<nat>, inners: seq<seq<Tree>>, top: nat)
    requires OpenContents(toks, blocks, inners) && top < |blocks| && OpenContent(toks, blocks, inners[top], top)
    ensures OpenContents(toks[..blocks[top]], blocks[..top], inners[..top])
    decreases top
  {
    var b, under := blocks[top], blocks[..top];
    forall k | 0 <= k < top
      ensures OpenContent(toks[..b], under, inners[..top][k], k)
    {
      assert OpenContent(toks, blocks, inners[k], k);
      BlocksRise(toks, blocks, inners, k + 1, top);
      SliceOfPrefix(toks, b, blocks[k] + 1, blocks[k + 1]);
    }
  }

  lemma {:induction false} BlocksRise(toks: seq<Token>, blocks: seq<nat>, inners: seq<seq<Tree>>, k: nat, top: nat)
    requires OpenContents(toks, blocks, inners) && k <= top < |blocks|
    ensures blocks[k] <= blocks[top]
    decreases top
  {
    if k < top {
      BlocksRise(toks, blocks, inners, k, top - 1);
      assert OpenContent(toks, blocks, inners[top - 1], top - 1);
    }
  }

  /** The tags from i to t are a section: t closes what i opens, and what stands between them is closed. */
  ghost predicate IsSection(toks: seq<Token>, i: nat, t: nat) {
    && i < t < |toks| && IsBlock(toks[i].tag) && toks[t].tag == Close(toks[i].tag.name)
    && exists body :: WellFormed(body) && Flatten(body) == toks[i + 1..t]
  }

  /** The target of a closed block is the tag that closes it. */
  lemma {:induction false} TargetCloses(toks: seq<Token>, i: nat)
    requires ParseAll(START, toks).Ok? && i < |toks| && IsBlock(ParseAll(START, toks).p.actions[i].tag)
    requires i !in ParseAll(START, toks).p.blocks
    ensures IsSection(toks, i, ParseAll(START, toks).p.actions[i].pos)
    decreases |toks|
  {
    var toks0, tok := toks[..|toks| - 1], toks[|toks| - 1];
    var p, q := ParseAll(START, toks0).p, ParseAll(START, toks).p;
    TagsKept(toks);
    TagsKept(toks0);
    if tok.tag.Close? && i == p.blocks[|p.blocks| - 1] {
      var inners := OpenContentsAre(toks0);
      assert OpenContent(toks0, p.blocks, inners[|inners| - 1], |inners| - 1);
      SliceOfPrefix(toks, |toks0|, i + 1, |toks0|);
      assert WellFormed(inners[|inners| - 1]) && Flatten(inners[|inners| - 1]) == toks[i + 1..|toks0|];
    } else {
      StillClosed(toks0, tok, i);
      TargetCloses(toks0, i);
      SectionStays(toks0, toks, i, p.actions[i].pos);
    }
  }

  lemma {:induction false} StillClosed(toks: seq<Token>, tok: Token, i: nat)
    requires ParseAll(START, toks).Ok? && ParseTag(ParseAll(START, toks).p, tok.tag).Ok?
    requires var q := ParseTag(ParseAll(START, toks).p, tok.tag).p;
             i < |q.actions| && IsBlock(q.actions[i].tag) && i !in q.blocks
    requires tok.tag.Close? ==> i != ParseAll(START, toks).p.blocks[|ParseAll(START, toks).p.blocks| - 1]
    ensures var p := ParseAll(START, toks).p;
            i < |p.actions| && i !in p.blocks && ParseTag(p, tok.tag).p.actions[i] == p.actions[i]
  {
    var p := ParseAll(START, toks).p;
    var q := ParseTag(p, tok.tag).p;
    if IsBlock(tok.tag) {
      assert q.blocks[|p.blocks|] == |p.actions|;
      assert forall k :: 0 <= k < |p.blocks| ==> p.blocks[k] == q.blocks[k];
    } else if tok.tag.Close? {
      var top := |p.blocks| - 1;
      assert forall k :: 0 <= k < top ==> p.blocks[k] == q.blocks[k];
    }
  }

  lemma {:induction false} SectionStays(toks: seq<Token>, now: seq<Token>, i: nat, t: nat)
    requires IsSection(toks, i, t) && |toks| <= |now| && now[..|toks|] == toks
    ensures IsSection(now, i, t)
  {
    SliceOfPrefix(now, |toks|, i + 1, t);
    assert now[i] == now[..|toks|][i] && now[t] == now[..|toks|][t];
  }

  /** Skipping a block goes on behind its target.  For a closed block this is behind the tag that closes it.  For every
      block that is never closed it is index 1, which is not behind the block: rendering comes back to it, or, when it
      is the first action, runs through it after all. */
  lemma {:induction false} UnclosedBlockLoops(toks: seq<Token>, i: nat)
    requires ParseAll(START, toks).Ok? && i < |toks| && IsBlock(ParseAll(START, toks).p.actions[i].tag)
    ensures var p := ParseAll(START, toks).p;
            if i in p.blocks then p.actions[i].pos + 1 == 1 <= (if i == 0 then 1 else i)
            else IsSection(toks, i, p.actions[i].pos)
  {
    ForwardIffClosed(toks);
    if i !in ParseAll(START, toks).p.blocks {
      TargetCloses(toks, i);
    }
  }

  /** The shortest template with such a block behind some other action. */
  lemma UnclosedBlockExists()
    ensures var toks := [Token("", Value("x")), Token("", Open("a"))];
            ParseAll(START, toks).Ok? && ParseAll(START, toks).p.blocks == [1]
  {
    var x, a := Token("", Value("x")), Token("", Open("a"));
    ParsesSingle(START, x);
    ParseOneMore(START, [x], a);
    assert [x] + [a] == [x, a];
  }
}
