/**
 The trie of lib/crow/include/crow/routing.h: adding rules, path compression, and the backtracking search.
 What the trie means is the table from patterns to rule numbers that its paths spell.
 */
module RouteTrie {
  import opened Common
  import opened RoutePattern

  datatype Node = Node(rule: nat, params: map<ParamType, nat>, children: map<string, nat>) {
    predicate IsSimple() { rule == 0 && params == map[] }
  }

  const EMPTY_NODE := Node(0, map[], map[])

  ghost predicate WfNode(n: Node, i: nat, size: nat) {
    && (forall k :: k in n.params ==> i < n.params[k] < size)
    && (forall f :: f in n.children ==> f != "" && i < n.children[f] < size)
    && (forall f, g :: f in n.children && g in n.children && f <= g ==> f == g)
  }

  /** Links go to later nodes, and no fragment below a node is a prefix of another one. */
  ghost predicate Wf(nodes: seq<Node>) {
    nodes != [] && forall i :: 0 <= i < |nodes| ==> WfNode(nodes[i], i, |nodes|)
  }

  /** From node i the pattern t leads to a node that holds rule r. */
  ghost predicate Spells(nodes: seq<Node>, i: nat, t: Pattern, r: nat)
    requires Wf(nodes) && i < |nodes|
    decreases |t|
  {
    var n := nodes[i];
    if t == [] then
      n.rule == r != 0
    else if t[0].Placeholder? then
      t[0].kind in n.params && Spells(nodes, n.params[t[0].kind], t[1..], r)
    else
      exists f :: f in n.children && ReadsLiteral(t, f) && Spells(nodes, n.children[f], t[|f|..], r)
  }

  // ---------------------------------------------------------------- path compression

  /** `merged` is what the two loops of optimizeNode build from the children of the children. */
  ghost predicate IsMerged(nodes: seq<Node>, idx: nat, merged: map<string, nat>)
    requires Wf(nodes) && idx < |nodes|
  {
    var cs := nodes[idx].children;
    && (forall f, g :: f in cs && g in nodes[cs[f]].children ==>
          f + g in merged && merged[f + g] == nodes[cs[f]].children[g])
    && (forall h :: h in merged ==> exists f, g :: f in cs && g in nodes[cs[f]].children && h == f + g)
  }

  lemma PrefixesComparable(f: string, g: string, f': string, g': string)
    requires f + g <= f' + g'
    ensures f <= f' || f' <= f
  {
    if |f| <= |f'| {
      assert f == (f + g)[..|f|] == (f' + g')[..|f|] == f'[..|f|];
    } else {
      assert f' == (f' + g')[..|f'|] == (f + g)[..|f'|] == f[..|f'|];
    }
  }

  lemma ReadsJoined(t: Pattern, f: string, g: string)
    ensures ReadsLiteral(t, f + g) <==> |f| <= |t| && ReadsLiteral(t, f) && ReadsLiteral(t[|f|..], g)
    ensures |f + g| <= |t| ==> t[|f|..][|g|..] == t[|f + g|..]
  {
    if ReadsLiteral(t, f + g) {
      forall j | 0 <= j < |f| ensures t[j] == Literal(f[j]) { assert (f + g)[j] == f[j]; }
      forall j | 0 <= j < |g| ensures t[|f|..][j] == Literal(g[j]) { assert (f + g)[|f| + j] == g[j]; }
    }
    if ReadsLiteral(t, f) && ReadsLiteral(t[|f|..], g) {
      forall j | 0 <= j < |f + g|
        ensures t[j] == Literal((f + g)[j])
      {
        if j >= |f| {
          assert t[|f|..][j - |f|] == t[j];
        }
      }
    }
  }

  /** Two joined fragments are equal only if both parts are. */
  lemma JoinedFragmentsDiffer(nodes: seq<Node>, idx: nat, f: string, g: string, f': string, g': string)
    requires Wf(nodes) && idx < |nodes|
    requires f in nodes[idx].children && g in nodes[nodes[idx].children[f]].children
    requires f' in nodes[idx].children && g' in nodes[nodes[idx].children[f']].children
    requires f + g <= f' + g'
    ensures f == f' && g == g'
  {
    PrefixesComparable(f, g, f', g');
    assert g == (f + g)[|f|..] == (f' + g')[|f|..|f + g|] == g'[..|g|];
  }

  lemma MergeIsWf(nodes: seq<Node>, idx: nat, merged: map<string, nat>)
    requires Wf(nodes) && idx < |nodes| && IsMerged(nodes, idx, merged)
    ensures Wf(nodes[idx := nodes[idx].(children := merged)])
  {
    var cs := nodes[idx].children;
    forall h | h in merged
      ensures h != "" && idx < merged[h] < |nodes|
    {
      var f, g :| f in cs && g in nodes[cs[f]].children && h == f + g;
    }
    forall h, h' | h in merged && h' in merged && h <= h'
      ensures h == h'
    {
      var f, g :| f in cs && g in nodes[cs[f]].children && h == f + g;
      var f', g' :| f' in cs && g' in nodes[cs[f']].children && h' == f' + g';
      JoinedFragmentsDiffer(nodes, idx, f, g, f', g');
    }
    assert WfNode(nodes[idx].(children := merged), idx, |nodes|);
  }

  ghost predicate SameSpelling(a: seq<Node>, b: seq<Node>)
    requires Wf(a) && Wf(b)
  {
    && |a| == |b|
    && forall i, t, r :: 0 <= i < |a| ==> (Spells(a, i, t, r) <==> Spells(b, i, t, r))
  }

  lemma OneStep(a: seq<Node>, i: nat, h: string, t: Pattern, r: nat)
    requires Wf(a) && i < |a| && h in a[i].children && ReadsLiteral(t, h)
    requires Spells(a, a[i].children[h], t[|h|..], r)
    ensures Spells(a, i, t, r)
  {
    assert t != [] && t[0] == Literal(h[0]);
  }

  lemma TwoSteps(a: seq<Node>, i: nat, f: string, g: string, t: Pattern, r: nat)
    requires Wf(a) && i < |a| && f in a[i].children && g in a[a[i].children[f]].children && ReadsLiteral(t, f + g)
    requires Spells(a, a[a[i].children[f]].children[g], t[|f + g|..], r)
    ensures Spells(a, i, t, r)
  {
    ReadsJoined(t, f, g);
    OneStep(a, a[i].children[f], g, t[|f|..], r);
    OneStep(a, i, f, t, r);
  }

  /** A pattern that goes on with a character uses two fragments below a node with simple children. */
  lemma ThroughSimpleChild(a: seq<Node>, i: nat, t: Pattern, r: nat) returns (f: string, g: string)
    requires Wf(a) && i < |a| && t != [] && t[0].Literal? && Spells(a, i, t, r)
    requires forall f :: f in a[i].children ==> a[a[i].children[f]].IsSimple()
    ensures f in a[i].children && g in a[a[i].children[f]].children && ReadsLiteral(t, f + g)
    ensures Spells(a, a[a[i].children[f]].children[g], t[|f + g|..], r)
  {
    f :| f in a[i].children && ReadsLiteral(t, f) && Spells(a, a[i].children[f], t[|f|..], r);
    g :| g in a[a[i].children[f]].children && ReadsLiteral(t[|f|..], g)
      && Spells(a, a[a[i].children[f]].children[g], t[|f|..][|g|..], r);
    ReadsJoined(t, f, g);
  }

  /** Merging a node with simple children changes what no node spells. */
  lemma {:induction false} MergeKeepsSpelling(a: seq<Node>, idx: nat, merged: map<string, nat>, i: nat, t: Pattern,
      r: nat)
    requires Wf(a) && idx < |a| && i < |a| && IsMerged(a, idx, merged)
    requires forall f :: f in a[idx].children ==> a[a[idx].children[f]].IsSimple()
    requires Wf(a[idx := a[idx].(children := merged)])
    ensures Spells(a, i, t, r) <==> Spells(a[idx := a[idx].(children := merged)], i, t, r)
    decreases |t|
  {
    var b := a[idx := a[idx].(children := merged)];
    if t == [] {
    } else if t[0].Placeholder? {
      if t[0].kind in a[i].params {
        MergeKeepsSpelling(a, idx, merged, a[i].params[t[0].kind], t[1..], r);
      }
    } else if i != idx {
      forall f | f in a[i].children && ReadsLiteral(t, f)
        ensures Spells(a, a[i].children[f], t[|f|..], r) <==> Spells(b, a[i].children[f], t[|f|..], r)
      {
        MergeKeepsSpelling(a, idx, merged, a[i].children[f], t[|f|..], r);
      }
    } else {
      if Spells(a, i, t, r) {
        var f, g := ThroughSimpleChild(a, i, t, r);
        MergeKeepsSpelling(a, idx, merged, merged[f + g], t[|f + g|..], r);
        OneStep(b, i, f + g, t, r);
      }
      if Spells(b, i, t, r) {
        var h :| h in merged && ReadsLiteral(t, h) && Spells(b, merged[h], t[|h|..], r);
        var f, g :| f in a[i].children && g in a[a[i].children[f]].children && h == f + g;
        MergeKeepsSpelling(a, idx, merged, merged[h], t[|h|..], r);
        TwoSteps(a, i, f, g, t, r);
      }
    }
  }

  /** The compressed form below a node: nothing is left to merge. */
  ghost predicate Compressed(nodes: seq<Node>, i: nat)
    requires Wf(nodes) && i < |nodes|
    decreases |nodes| - i
  {
    var n := nodes[i];
    && (forall k :: k in n.params ==> Compressed(nodes, n.params[k]))
    && (n.children != map[] ==> exists f :: f in n.children && !nodes[n.children[f]].IsSimple())
    && (forall f :: f in n.children ==> Compressed(nodes, n.children[f]))
  }

  /** Nodes compressed before are left alone, so they stay compressed. */
  lemma {:induction false} CompressedStays(a: seq<Node>, b: seq<Node>, i: nat)
    requires Wf(a) && Wf(b) && |a| == |b| && i < |a| && Compressed(a, i)
    requires forall j :: 0 <= j < |a| ==> a[j].rule == b[j].rule && a[j].params == b[j].params
    requires forall j :: 0 <= j < |a| && Compressed(a, j) ==> a[j] == b[j]
    ensures Compressed(b, i)
    decreases |a| - i
  {
    forall k | k in a[i].params
      ensures Compressed(b, b[i].params[k])
    {
      CompressedStays(a, b, a[i].params[k]);
    }
    forall f | f in a[i].children
      ensures Compressed(b, b[i].children[f])
    {
      CompressedStays(a, b, a[i].children[f]);
    }
    if a[i].children != map[] {
      var f :| f in a[i].children && !a[a[i].children[f]].IsSimple();
      assert f in b[i].children && !b[b[i].children[f]].IsSimple();
    }
  }

  /** What one call of optimizeNode on node idx does to the whole trie. */
  ghost predicate OptimizedFrom(a: seq<Node>, b: seq<Node>, idx: nat)
    requires Wf(a) && idx < |a|
  {
    && Wf(b) && SameSpelling(a, b)
    && (forall j :: 0 <= j < |a| ==> a[j].rule == b[j].rule && a[j].params == b[j].params)
    && (forall j :: 0 <= j < idx ==> a[j] == b[j])
    && (forall j :: 0 <= j < |a| && Compressed(a, j) ==> a[j] == b[j])
  }

  lemma OptimizedTwice(a: seq<Node>, b: seq<Node>, c: seq<Node>, i: nat, j: nat)
    requires Wf(a) && i <= j < |a| && OptimizedFrom(a, b, i) && OptimizedFrom(b, c, j)
    ensures OptimizedFrom(a, c, i)
  {
    forall k | 0 <= k < |a| && Compressed(a, k)
      ensures a[k] == c[k]
    {
      CompressedStays(a, b, k);
    }
  }

  lemma MergeOptimizes(a: seq<Node>, idx: nat, merged: map<string, nat>)
    requires Wf(a) && idx < |a| && IsMerged(a, idx, merged) && a[idx].children != map[]
    requires forall f :: f in a[idx].children ==> a[a[idx].children[f]].IsSimple()
    ensures OptimizedFrom(a, a[idx := a[idx].(children := merged)], idx)
  {
    var b := a[idx := a[idx].(children := merged)];
    MergeIsWf(a, idx, merged);
    forall i, t, r | 0 <= i < |a|
      ensures Spells(a, i, t, r) <==> Spells(b, i, t, r)
    {
      MergeKeepsSpelling(a, idx, merged, i, t, r);
    }
  }

  ghost function Least(s: set<nat>): (m: nat)
    requires s != {}
    ensures m in s && forall x :: x in s ==> m <= x
  {
    var x :| x in s;
    if s == {x} then x
    else
      var m := Least(s - {x});
      assert forall y :: y in s ==> y == x || y in s - {x};
      if m < x then m else x
  }

  ghost function Targets(n: Node): set<nat> { set f | f in n.children :: n.children[f] }

  /** How far the first child of a node is from the end: merging brings it closer. */
  ghost function Slack(n: Node, size: nat): int {
    if Targets(n) == {} then 0 else size - Least(Targets(n))
  }

  lemma SlackBound(nodes: seq<Node>, i: nat)
    requires Wf(nodes) && i < |nodes|
    ensures Slack(nodes[i], |nodes|) >= 0
    ensures Slack(nodes[i], |nodes|) == 0 <==> nodes[i].children == map[]
  {
    if nodes[i].children != map[] {
      var f :| f in nodes[i].children;
      assert nodes[i].children[f] in Targets(nodes[i]);
    }
  }

  lemma MergeShrinksSlack(nodes: seq<Node>, idx: nat, merged: map<string, nat>)
    requires Wf(nodes) && idx < |nodes| && IsMerged(nodes, idx, merged) && nodes[idx].children != map[]
    ensures Slack(nodes[idx].(children := merged), |nodes|) < Slack(nodes[idx], |nodes|)
  {
    SlackBound(nodes, idx);
    var after := nodes[idx].(children := merged);
    if Targets(after) != {} {
      var h :| h in merged && merged[h] == Least(Targets(after));
      var f, g :| f in nodes[idx].children && g in nodes[nodes[idx].children[f]].children && h == f + g;
      assert nodes[idx].children[f] in Targets(nodes[idx]);
      assert WfNode(nodes[nodes[idx].children[f]], nodes[idx].children[f], |nodes|);
    }
  }

  // ---------------------------------------------------------------- the search

  type Language = iset<(Pattern, nat)>

  ghost function LanguageOf(nodes: seq<Node>, i: nat): Language
    requires Wf(nodes) && i < |nodes|
  {
    iset t, r | Spells(nodes, i, t, r) :: (t, r)
  }

  ghost predicate Fits(num: NumberParsers, t: Pattern, url: string, pos: nat)
    requires Sane(num) && pos <= |url|
  {
    Captures(num, t, url, pos).Some?
  }

  /** When find tries a way on from a node: placeholders by kind, then fragments. */
  function Turn(tok: Token): nat {
    match tok
    case Placeholder(INT) => 0
    case Placeholder(UINT) => 1
    case Placeholder(DOUBLE) => 2
    case Placeholder(STRING) => 3
    case Placeholder(PATH) => 4
    case Literal(_) => 5
  }

  /** The search comes to t no later than to u. */
  ghost predicate Tried(t: Pattern, u: Pattern)
    decreases |t|
  {
    if t == [] || u == [] then t == u
    else if t[0] == u[0] then Tried(t[1..], u[1..])
    else Turn(t[0]) < Turn(u[0])
  }

  lemma {:induction false} TriedTogether(t: Pattern, u: Pattern)
    requires Tried(t, u) && Tried(u, t)
    ensures t == u
    decreases |t|
  {
    if t != [] {
      TriedTogether(t[1..], u[1..]);
      assert t == [t[0]] + t[1..] && u == [u[0]] + u[1..];
    }
  }

  lemma {:induction false} TriedAfter(t: Pattern, u: Pattern, f: string)
    requires ReadsLiteral(t, f) && ReadsLiteral(u, f)
    ensures Tried(t, u) <==> Tried(t[|f|..], u[|f|..])
    decreases |f|
  {
    if f == "" {
      assert t[0..] == t && u[0..] == u;
    } else {
      TriedAfter(t[1..], u[1..], f[1..]);
      assert t[1..][|f[1..]|..] == t[|f|..] && u[1..][|f[1..]|..] == u[|f|..];
    }
  }

  /** Of the patterns with rule r that fit the rest of the URL, the search comes to t first. */
  ghost predicate First(lang: Language, num: NumberParsers, url: string, pos: nat, r: nat, t: Pattern)
    requires Sane(num) && pos <= |url|
  {
    forall u :: (u, r) in lang && Fits(num, u, url, pos) ==> Tried(t, u)
  }

  /** `found` is the smallest rule number among the patterns of `lang` that fit the rest of the URL, with the
      captures of the first such pattern; 0 when none fits. */
  ghost predicate Best(lang: Language, num: NumberParsers, url: string, pos: nat, found: nat, caps: seq<Value>)
    requires Sane(num) && pos <= |url|
  {
    && (found == 0 ==> forall p :: p in lang ==> !Fits(num, p.0, url, pos))
    && (found != 0 ==>
          && (exists t :: (t, found) in lang && Captures(num, t, url, pos) == Some(caps)
                          && First(lang, num, url, pos, found, t))
          && (forall p :: p in lang && Fits(num, p.0, url, pos) ==> found <= p.1))
  }

  /** The search comes to what fits of `a` before it comes to what fits of `b`. */
  ghost predicate Before(a: Language, b: Language, num: NumberParsers, url: string, pos: nat)
    requires Sane(num) && pos <= |url|
  {
    forall p, q :: p in a && q in b && Fits(num, p.0, url, pos) && Fits(num, q.0, url, pos) ==> Tried(p.0, q.0)
  }

  /** The update_found closure keeps the best of what was seen so far. */
  lemma BestOfBoth(a: Language, b: Language, num: NumberParsers, url: string, pos: nat,
                   f: nat, cf: seq<Value>, g: nat, cg: seq<Value>)
    requires Sane(num) && pos <= |url| && Best(a, num, url, pos, f, cf) && Best(b, num, url, pos, g, cg)
    requires Before(a, b, num, url, pos)
    ensures if g != 0 && (f == 0 || f > g) then Best(a + b, num, url, pos, g, cg) else Best(a + b, num, url, pos, f, cf)
  {
    if g != 0 && (f == 0 || f > g) {
      var t :| (t, g) in b && Captures(num, t, url, pos) == Some(cg) && First(b, num, url, pos, g, t);
      assert (t, g) in a + b;
      forall u | (u, g) in a + b && Fits(num, u, url, pos)
        ensures Tried(t, u)
      {
        assert Fits(num, (u, g).0, url, pos);
      }
    } else if f != 0 {
      var t :| (t, f) in a && Captures(num, t, url, pos) == Some(cf) && First(a, num, url, pos, f, t);
      assert (t, f) in a + b;
      forall u | (u, f) in a + b && Fits(num, u, url, pos)
        ensures Tried(t, u)
      {
        assert Fits(num, (u, f).0, url, pos) && Fits(num, (t, f).0, url, pos);
      }
    }
  }

  ghost function ViaKind(nodes: seq<Node>, i: nat, kind: ParamType): Language
    requires Wf(nodes) && i < |nodes|
  {
    iset t: Pattern, r: nat | t != [] && t[0] == Placeholder(kind) && Spells(nodes, i, t, r) :: (t, r)
  }

  ghost function ViaFragments(nodes: seq<Node>, i: nat, fs: set<string>): Language
    requires Wf(nodes) && i < |nodes|
  {
    iset t: Pattern, r: nat | t != [] && t[0].Literal? && SpellsVia(nodes, i, t, r, fs) :: (t, r)
  }

  ghost predicate SpellsVia(nodes: seq<Node>, i: nat, t: Pattern, r: nat, fs: set<string>)
    requires Wf(nodes) && i < |nodes|
  {
    exists f :: f in fs && f in nodes[i].children && ReadsLiteral(t, f)
      && Spells(nodes, nodes[i].children[f], t[|f|..], r)
  }

  /** A step through a placeholder that the URL does not match. */
  lemma KindMisses(nodes: seq<Node>, i: nat, kind: ParamType, num: NumberParsers, url: string, pos: nat)
    requires Wf(nodes) && i < |nodes| && Sane(num) && pos < |url|
    requires kind !in nodes[i].params || Scan(num, kind, url, pos).None?
    ensures Best(ViaKind(nodes, i, kind), num, url, pos, 0, [])
  {
  }

  lemma KindHits(nodes: seq<Node>, i: nat, kind: ParamType, num: NumberParsers, url: string, pos: nat,
                 end: nat, v: Value, g: nat, cg: seq<Value>)
    requires Wf(nodes) && i < |nodes| && Sane(num) && pos < |url| && kind in nodes[i].params
    requires Scan(num, kind, url, pos) == Some((v, end)) && end <= |url|
    requires Best(LanguageOf(nodes, nodes[i].params[kind]), num, url, end, g, cg)
    ensures Best(ViaKind(nodes, i, kind), num, url, pos, g, [v] + cg)
  {
    var child := nodes[i].params[kind];
    forall p | p in ViaKind(nodes, i, kind)
      ensures (p.0[1..], p.1) in LanguageOf(nodes, child)
      ensures Captures(num, p.0, url, pos)
           == (match Captures(num, p.0[1..], url, end) case None => None case Some(c) => Some([v] + c))
    {
    }
    if g != 0 {
      var t :| (t, g) in LanguageOf(nodes, child) && Captures(num, t, url, end) == Some(cg)
               && First(LanguageOf(nodes, child), num, url, end, g, t);
      var t' := [Placeholder(kind)] + t;
      assert t'[1..] == t;
      assert Spells(nodes, i, t', g);
      assert (t', g) in ViaKind(nodes, i, kind);
      assert Captures(num, t', url, pos) == Some([v] + cg);
      forall u | (u, g) in ViaKind(nodes, i, kind) && Fits(num, u, url, pos)
        ensures Tried(t', u)
      {
        assert ((u, g).0[1..], g) in LanguageOf(nodes, child);
      }
    }
  }

  lemma FragmentMisses(nodes: seq<Node>, i: nat, f: string, num: NumberParsers, url: string, pos: nat)
    requires Wf(nodes) && i < |nodes| && Sane(num) && pos < |url| && f in nodes[i].children && !StartsAt(url, pos, f)
    ensures Best(ViaFragments(nodes, i, {f}), num, url, pos, 0, [])
  {
    forall p | p in ViaFragments(nodes, i, {f})
      ensures !Fits(num, p.0, url, pos)
    {
      CapturesLiteral(num, p.0, f, url, pos);
    }
  }

  lemma FragmentHits(nodes: seq<Node>, i: nat, f: string, num: NumberParsers, url: string, pos: nat, g: nat,
      cg: seq<Value>)
    requires Wf(nodes) && i < |nodes| && Sane(num) && pos < |url| && f in nodes[i].children && StartsAt(url, pos, f)
    requires Best(LanguageOf(nodes, nodes[i].children[f]), num, url, pos + |f|, g, cg)
    ensures Best(ViaFragments(nodes, i, {f}), num, url, pos, g, cg)
  {
    var child := nodes[i].children[f];
    forall p | p in ViaFragments(nodes, i, {f})
      ensures |f| <= |p.0| && (p.0[|f|..], p.1) in LanguageOf(nodes, child)
      ensures Captures(num, p.0, url, pos) == Captures(num, p.0[|f|..], url, pos + |f|)
    {
      CapturesLiteral(num, p.0, f, url, pos);
    }
    if g != 0 {
      var t :| (t, g) in LanguageOf(nodes, child) && Captures(num, t, url, pos + |f|) == Some(cg)
               && First(LanguageOf(nodes, child), num, url, pos + |f|, g, t);
      FragmentWinner(nodes, i, f, num, url, pos, g, t, cg);
    }
  }

  /** The winner behind a fragment, with the fragment in front, is the first one tried through the fragment. */
  lemma FragmentWinner(nodes: seq<Node>, i: nat, f: string, num: NumberParsers, url: string, pos: nat, g: nat,
      t: Pattern, cg: seq<Value>)
    requires Wf(nodes) && i < |nodes| && Sane(num) && pos < |url| && f in nodes[i].children && StartsAt(url, pos, f)
    requires (t, g) in LanguageOf(nodes, nodes[i].children[f]) && Captures(num, t, url, pos + |f|) == Some(cg)
    requires First(LanguageOf(nodes, nodes[i].children[f]), num, url, pos + |f|, g, t)
    requires forall p :: p in ViaFragments(nodes, i, {f}) ==>
      && |f| <= |p.0| && (p.0[|f|..], p.1) in LanguageOf(nodes, nodes[i].children[f])
      && Captures(num, p.0, url, pos) == Captures(num, p.0[|f|..], url, pos + |f|)
    ensures exists t' :: (t', g) in ViaFragments(nodes, i, {f}) && Captures(num, t', url, pos) == Some(cg)
              && First(ViaFragments(nodes, i, {f}), num, url, pos, g, t')
  {
    var child := nodes[i].children[f];
    var t' := seq(|f|, j requires 0 <= j < |f| => Literal(f[j])) + t;
    assert t'[|f|..] == t;
    assert ReadsLiteral(t', f) && t'[0].Literal?;
    assert SpellsVia(nodes, i, t', g, {f});
    CapturesLiteral(num, t', f, url, pos);
    assert (t', g) in ViaFragments(nodes, i, {f});
    forall u | (u, g) in ViaFragments(nodes, i, {f}) && Fits(num, u, url, pos)
      ensures Tried(t', u)
    {
      assert ((u, g).0[|f|..], g) in LanguageOf(nodes, child);
      TriedAfter(t', u, f);
    }
  }

  lemma MoreFragments(nodes: seq<Node>, i: nat, fs: set<string>, f: string)
    requires Wf(nodes) && i < |nodes|
    ensures ViaFragments(nodes, i, fs + {f}) == ViaFragments(nodes, i, fs) + ViaFragments(nodes, i, {f})
  {
    forall t: Pattern, r: nat
      ensures SpellsVia(nodes, i, t, r, fs + {f}) <==> SpellsVia(nodes, i, t, r, fs) || SpellsVia(nodes, i, t, r, {f})
    {
      if SpellsVia(nodes, i, t, r, fs + {f}) {
        var g :| g in fs + {f} && g in nodes[i].children && ReadsLiteral(t, g)
                 && Spells(nodes, nodes[i].children[g], t[|g|..], r);
        assert g in fs || g in {f};
      }
    }
  }

  lemma StartsNested(url: string, pos: nat, f: string, g: string)
    requires StartsAt(url, pos, f) && StartsAt(url, pos, g)
    ensures |f| <= |g| ==> f <= g
  {
    if |f| <= |g| {
      assert f == url[pos..pos + |g|][..|f|];
    }
  }

  lemma OneFragmentFits(nodes: seq<Node>, i: nat, f: string, g: string, url: string, pos: nat)
    requires Wf(nodes) && i < |nodes| && f in nodes[i].children && g in nodes[i].children
    requires StartsAt(url, pos, f) && StartsAt(url, pos, g)
    ensures f == g
  {
    assert WfNode(nodes[i], i, |nodes|);
    StartsNested(url, pos, f, g);
    StartsNested(url, pos, g, f);
  }

  lemma FragmentStarts(nodes: seq<Node>, i: nat, f: string, t: Pattern, num: NumberParsers, url: string, pos: nat)
    requires Wf(nodes) && i < |nodes| && f in nodes[i].children && ReadsLiteral(t, f)
    requires Sane(num) && pos <= |url| && Fits(num, t, url, pos)
    ensures StartsAt(url, pos, f)
  {
    assert WfNode(nodes[i], i, |nodes|);
    CapturesLiteral(num, t, f, url, pos);
  }

  /** No two fragments below a node fit at the same place, so their order does not matter; placeholders come first. */
  lemma FragmentComesNext(nodes: seq<Node>, i: nat, done: set<string>, f: string, num: NumberParsers, url: string,
      pos: nat)
    requires Wf(nodes) && i < |nodes| && Sane(num) && pos < |url| && f in nodes[i].children && f !in done
    ensures Before(ViaKinds(nodes, i) + ViaFragments(nodes, i, done), ViaFragments(nodes, i, {f}), num, url, pos)
  {
    KindsComeFirst(nodes, i, {f}, num, url, pos);
    FragmentsApart(nodes, i, done, f, num, url, pos);
  }

  lemma KindsComeFirst(nodes: seq<Node>, i: nat, fs: set<string>, num: NumberParsers, url: string, pos: nat)
    requires Wf(nodes) && i < |nodes| && Sane(num) && pos <= |url|
    ensures Before(ViaKinds(nodes, i), ViaFragments(nodes, i, fs), num, url, pos)
  {
  }

  lemma FragmentsApart(nodes: seq<Node>, i: nat, done: set<string>, f: string, num: NumberParsers, url: string,
      pos: nat)
    requires Wf(nodes) && i < |nodes| && Sane(num) && pos < |url| && f !in done
    ensures Before(ViaFragments(nodes, i, done), ViaFragments(nodes, i, {f}), num, url, pos)
  {
    forall p, q | p in ViaFragments(nodes, i, done) && q in ViaFragments(nodes, i, {f})
      ensures !Fits(num, p.0, url, pos) || !Fits(num, q.0, url, pos)
    {
      FragmentsExclude(nodes, i, done, f, p.0, p.1, q.0, q.1, num, url, pos);
    }
  }

  lemma FragmentsExclude(nodes: seq<Node>, i: nat, done: set<string>, f: string, t: Pattern, r: nat, u: Pattern,
      r': nat,
                         num: NumberParsers, url: string, pos: nat)
    requires Wf(nodes) && i < |nodes| && Sane(num) && pos < |url| && f !in done
    requires SpellsVia(nodes, i, t, r, done) && SpellsVia(nodes, i, u, r', {f})
    ensures !Fits(num, t, url, pos) || !Fits(num, u, url, pos)
  {
    if Fits(num, t, url, pos) && Fits(num, u, url, pos) {
      var g :| g in done && g in nodes[i].children && ReadsLiteral(t, g);
      FragmentStarts(nodes, i, g, t, num, url, pos);
      FragmentStarts(nodes, i, f, u, num, url, pos);
      OneFragmentFits(nodes, i, f, g, url, pos);
    }
  }

  /** Placeholders are tried by kind. */
  lemma KindComesNext(nodes: seq<Node>, i: nat, kind: ParamType, before: Language, num: NumberParsers, url: string,
      pos: nat)
    requires Wf(nodes) && i < |nodes| && Sane(num) && pos <= |url|
    requires forall p :: p in before ==> p.0 != [] && Turn(p.0[0]) < Turn(Placeholder(kind))
    ensures Before(before, ViaKind(nodes, i, kind), num, url, pos)
  {
  }

  ghost function ViaKinds(nodes: seq<Node>, i: nat): Language
    requires Wf(nodes) && i < |nodes|
  {
    ViaKind(nodes, i, INT) + ViaKind(nodes, i, UINT) + ViaKind(nodes, i, DOUBLE) + ViaKind(nodes, i, STRING)
    + ViaKind(nodes, i, PATH)
  }

  /** Before the end of the URL, going through every placeholder and every fragment covers everything. */
  lemma AllWaysCovered(nodes: seq<Node>, i: nat, num: NumberParsers, url: string, pos: nat, found: nat,
      caps: seq<Value>)
    requires Wf(nodes) && i < |nodes| && Sane(num) && pos < |url|
    requires Best(ViaKinds(nodes, i) + ViaFragments(nodes, i, nodes[i].children.Keys), num, url, pos, found, caps)
    ensures Best(LanguageOf(nodes, i), num, url, pos, found, caps)
  {
    var all := ViaKinds(nodes, i) + ViaFragments(nodes, i, nodes[i].children.Keys);
    forall t: Pattern, r: nat
      ensures (t, r) in all <==> (t, r) in LanguageOf(nodes, i) && t != []
    {
      SomeWay(nodes, i, t, r);
    }
    forall p | p in LanguageOf(nodes, i) && Fits(num, p.0, url, pos)
      ensures p in all
    {
      assert p == (p.0, p.1);
    }
    if found != 0 {
      var t :| (t, found) in all && Captures(num, t, url, pos) == Some(caps) && First(all, num, url, pos, found, t);
      assert (t, found) in LanguageOf(nodes, i);
      forall u | (u, found) in LanguageOf(nodes, i) && Fits(num, u, url, pos)
        ensures Tried(t, u)
      {
        assert Fits(num, (u, found).0, url, pos);
      }
    }
  }

  lemma SomeWay(nodes: seq<Node>, i: nat, t: Pattern, r: nat)
    requires Wf(nodes) && i < |nodes|
    ensures (t, r) in ViaKinds(nodes, i) + ViaFragments(nodes, i, nodes[i].children.Keys)
       <==> t != [] && Spells(nodes, i, t, r)
  {
    if t != [] {
      match t[0] {
        case Placeholder(kind) => match kind { case INT => case UINT => case DOUBLE => case STRING => case PATH => }
        case Literal(c) => assert Spells(nodes, i, t, r) <==> SpellsVia(nodes, i, t, r, nodes[i].children.Keys);
      }
    }
  }
}
