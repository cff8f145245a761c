/**
 The Trie and Router classes of lib/crow/include/crow/routing.h, proved against the table from patterns to
 rule numbers that the trie spells.
 */
module Router {
  import opened Common
  import opened RouteMatch
  import opened RoutePattern
  import opened RouteTrie

  // ---------------------------------------------------------------- building

  /** While rules are being added every fragment is one character, and addr gives the one path to a node. */
  ghost predicate Built(nodes: seq<Node>, addr: seq<Pattern>)
    requires Wf(nodes)
  {
    && |addr| == |nodes| && addr[0] == []
    && (forall i, k :: 0 <= i < |nodes| && k in nodes[i].params ==>
          addr[nodes[i].params[k]] == addr[i] + [Placeholder(k)])
    && (forall i, f :: 0 <= i < |nodes| && f in nodes[i].children ==>
          |f| == 1 && addr[nodes[i].children[f]] == addr[i] + [Literal(f[0])])
  }

  /** The child of a node for one token, 0 if there is none. */
  function Child(n: Node, tok: Token): nat {
    match tok
    case Placeholder(kind) => if kind in n.params then n.params[kind] else 0
    case Literal(c) => if [c] in n.children then n.children[[c]] else 0
  }

  function WithChild(n: Node, tok: Token, child: nat): Node {
    match tok
    case Placeholder(kind) => n.(params := n.params[kind := child])
    case Literal(c) => n.(children := n.children[[c] := child])
  }

  /** The path t leads from node i to node j. */
  ghost predicate Leads(nodes: seq<Node>, i: nat, t: Pattern, j: nat)
    requires Wf(nodes) && i < |nodes|
    decreases |t|
  {
    if t == [] then i == j
    else
      assert WfNode(nodes[i], i, |nodes|);
      Child(nodes[i], t[0]) != 0 && Leads(nodes, Child(nodes[i], t[0]), t[1..], j)
  }

  lemma {:induction false} LeadsOn(nodes: seq<Node>, i: nat, t: Pattern, j: nat, tok: Token)
    requires Wf(nodes) && i < |nodes| && j < |nodes| && Leads(nodes, i, t, j) && Child(nodes[j], tok) != 0
    ensures Leads(nodes, i, t + [tok], Child(nodes[j], tok))
    decreases |t|
  {
    assert WfNode(nodes[j], j, |nodes|);
    if t == [] {
      assert [tok][1..] == [];
    } else {
      assert WfNode(nodes[i], i, |nodes|);
      LeadsOn(nodes, Child(nodes[i], t[0]), t[1..], j, tok);
      assert (t + [tok])[1..] == t[1..] + [tok];
    }
  }

  lemma SingleStep(nodes: seq<Node>, addr: seq<Pattern>, i: nat, t: Pattern, r: nat)
    requires Wf(nodes) && Built(nodes, addr) && i < |nodes| && t != []
    ensures Child(nodes[i], t[0]) < |nodes|
    ensures Spells(nodes, i, t, r) <==> Child(nodes[i], t[0]) != 0 && Spells(nodes, Child(nodes[i], t[0]), t[1..], r)
    ensures Child(nodes[i], t[0]) != 0 ==> addr[Child(nodes[i], t[0])] == addr[i] + [t[0]]
  {
    assert WfNode(nodes[i], i, |nodes|);
    if t[0].Literal? {
      var f := [t[0].c];
      assert ReadsLiteral(t, f);
      if Spells(nodes, i, t, r) {
        var g :| g in nodes[i].children && ReadsLiteral(t, g) && Spells(nodes, nodes[i].children[g], t[|g|..], r);
        assert g == f;
      }
    }
  }

  /** The end of a path holds the rule that the path spells. */
  lemma {:induction false} LeadsSpells(nodes: seq<Node>, addr: seq<Pattern>, i: nat, t: Pattern, j: nat, r: nat)
    requires Wf(nodes) && Built(nodes, addr) && i < |nodes| && j < |nodes| && Leads(nodes, i, t, j)
    ensures Spells(nodes, i, t, r) <==> nodes[j].rule == r != 0
    decreases |t|
  {
    if t != [] {
      SingleStep(nodes, addr, i, t, r);
      LeadsSpells(nodes, addr, Child(nodes[i], t[0]), t[1..], j, r);
    }
  }

  /** Setting the rule of one node touches only the path that leads to it. */
  lemma {:induction false} SetRuleElsewhere(a: seq<Node>, addr: seq<Pattern>, idx: nat, rule: nat, i: nat, t: Pattern,
      r: nat)
    requires Wf(a) && Built(a, addr) && idx < |a| && i < |a| && addr[i] + t != addr[idx]
    requires Wf(a[idx := a[idx].(rule := rule)]) && Built(a[idx := a[idx].(rule := rule)], addr)
    ensures Spells(a, i, t, r) <==> Spells(a[idx := a[idx].(rule := rule)], i, t, r)
    decreases |t|
  {
    var b := a[idx := a[idx].(rule := rule)];
    if t == [] {
      assert addr[i] + t == addr[i];
    } else {
      SingleStep(a, addr, i, t, r);
      SingleStep(b, addr, i, t, r);
      var c := Child(a[i], t[0]);
      if c != 0 {
        assert addr[i] + t == addr[i] + [t[0]] + t[1..];
        SetRuleElsewhere(a, addr, idx, rule, c, t[1..], r);
      }
    }
  }

  lemma SetRuleIsBuilt(a: seq<Node>, addr: seq<Pattern>, idx: nat, rule: nat)
    requires Wf(a) && Built(a, addr) && idx < |a|
    ensures Wf(a[idx := a[idx].(rule := rule)]) && Built(a[idx := a[idx].(rule := rule)], addr)
  {
    var b := a[idx := a[idx].(rule := rule)];
    forall i | 0 <= i < |b|
      ensures WfNode(b[i], i, |b|)
    {
      assert WfNode(a[i], i, |a|);
    }
  }

  lemma SetRuleSpells(a: seq<Node>, addr: seq<Pattern>, idx: nat, rule: nat, path: Pattern, t: Pattern, r: nat)
    requires Wf(a) && Built(a, addr) && idx < |a| && rule != 0 && Leads(a, 0, path, idx) && addr[idx] == path
    requires Wf(a[idx := a[idx].(rule := rule)]) && Built(a[idx := a[idx].(rule := rule)], addr)
    ensures Spells(a[idx := a[idx].(rule := rule)], 0, t, r) <==> if t == path then r == rule else Spells(a, 0, t, r)
  {
    var b := a[idx := a[idx].(rule := rule)];
    if t == path {
      SameLeads(a, b, 0, path, idx);
      LeadsSpells(b, addr, 0, path, idx, r);
    } else {
      assert addr[0] + t == t;
      SetRuleElsewhere(a, addr, idx, rule, 0, t, r);
    }
  }

  function NewChild(nodes: seq<Node>, idx: nat, tok: Token): seq<Node>
    requires idx < |nodes|
  {
    nodes[idx := WithChild(nodes[idx], tok, |nodes|)] + [EMPTY_NODE]
  }

  lemma NewChildIsBuilt(a: seq<Node>, addr: seq<Pattern>, idx: nat, tok: Token)
    requires Wf(a) && Built(a, addr) && idx < |a| && Child(a[idx], tok) == 0
    ensures Wf(NewChild(a, idx, tok)) && Built(NewChild(a, idx, tok), addr + [addr[idx] + [tok]])
  {
    var b := NewChild(a, idx, tok);
    assert WfNode(a[idx], idx, |a|);
    forall i | 0 <= i < |b|
      ensures WfNode(b[i], i, |b|)
    {
      if i < |a| {
        assert WfNode(a[i], i, |a|);
      }
    }
    var addr' := addr + [addr[idx] + [tok]];
    assert forall i :: 0 <= i < |a| ==> addr'[i] == addr[i];
    forall i, k | 0 <= i < |b| && k in b[i].params
      ensures addr'[b[i].params[k]] == addr'[i] + [Placeholder(k)]
    {
      assert WfNode(b[i], i, |b|);
      if i < |a| && k in a[i].params { assert WfNode(a[i], i, |a|); }
    }
    forall i, f | 0 <= i < |b| && f in b[i].children
      ensures |f| == 1 && addr'[b[i].children[f]] == addr'[i] + [Literal(f[0])]
    {
      assert WfNode(b[i], i, |b|);
      if i < |a| && f in a[i].children { assert WfNode(a[i], i, |a|); }
    }
  }

  /** A new empty node below a node spells nothing. */
  lemma {:induction false} NewChildSpellsNothing(a: seq<Node>, addr: seq<Pattern>, idx: nat, tok: Token, i: nat,
      t: Pattern, r: nat)
    requires Wf(a) && Built(a, addr) && idx < |a| && Child(a[idx], tok) == 0 && i < |a|
    requires Wf(NewChild(a, idx, tok)) && Built(NewChild(a, idx, tok), addr + [addr[idx] + [tok]])
    ensures Spells(a, i, t, r) <==> Spells(NewChild(a, idx, tok), i, t, r)
    decreases |t|
  {
    var b := NewChild(a, idx, tok);
    if t != [] {
      SingleStep(a, addr, i, t, r);
      SingleStep(b, addr + [addr[idx] + [tok]], i, t, r);
      var c := Child(a[i], t[0]);
      if c != 0 {
        NewChildSpellsNothing(a, addr, idx, tok, c, t[1..], r);
      } else if Child(b[i], t[0]) != 0 {
        assert Child(b[i], t[0]) == |a| && b[|a|] == EMPTY_NODE;
      }
    }
  }

  lemma {:induction false} NewChildLeads(a: seq<Node>, idx: nat, tok: Token, i: nat, t: Pattern, j: nat)
    requires Wf(a) && idx < |a| && Child(a[idx], tok) == 0 && i < |a| && Leads(a, i, t, j)
    requires Wf(NewChild(a, idx, tok))
    ensures Leads(NewChild(a, idx, tok), i, t, j)
    decreases |t|
  {
    if t != [] {
      assert WfNode(a[i], i, |a|);
      NewChildLeads(a, idx, tok, Child(a[i], t[0]), t[1..], j);
    }
  }

  // ---------------------------------------------------------------- progress of the loop in add

  /** Where the loop over the rule text goes from position i: a `<` that starts no known tag keeps it there. */
  function Advance(url: string, i: nat): (r: nat)
    requires i < |url|
    ensures i <= r <= |url|
  {
    if url[i] != '<' then i + 1
    else match TagAt(url, i) case None => i case Some((_, size)) => i + size
  }

  function Position(url: string, i: nat, n: nat): (r: nat)
    requires i <= |url|
    ensures i <= r <= |url|
    decreases n
  {
    if i == |url| || n == 0 then i else Position(url, Advance(url, i), n - 1)
  }

  ghost predicate LoopEnds(url: string, i: nat)
    requires i <= |url|
  {
    exists n: nat :: Position(url, i, n) == |url|
  }

  lemma EndsIn(url: string, i: nat, n: nat)
    requires i <= |url| && Position(url, i, n) == |url|
    ensures LoopEnds(url, i)
  {
  }

  /** The loop of add ends exactly when every `<` of the rule text starts a known tag. */
  lemma {:induction false} AddEndsIff(url: string, i: nat)
    requires i <= |url|
    ensures PatternFrom(url, i).Some? <==> LoopEnds(url, i)
    decreases |url| - i
  {
    if i == |url| {
      EndsIn(url, i, 0);
    } else if Advance(url, i) == i {
      if LoopEnds(url, i) {
        var n: nat :| Position(url, i, n) == |url|;
        StuckStays(url, i, n);
      }
    } else {
      var next := Advance(url, i);
      AddEndsIff(url, next);
      assert PatternFrom(url, i).Some? <==> PatternFrom(url, next).Some?;
      if LoopEnds(url, next) {
        var n: nat :| Position(url, next, n) == |url|;
        EndsIn(url, i, n + 1);
      }
      if LoopEnds(url, i) {
        var n: nat :| Position(url, i, n) == |url|;
        EndsIn(url, next, n - 1);
      }
    }
  }

  lemma {:induction false} StuckStays(url: string, i: nat, n: nat)
    requires i < |url| && Advance(url, i) == i
    ensures Position(url, i, n) == i
    decreases n
  {
    if n != 0 {
      StuckStays(url, i, n - 1);
    }
  }

  /** The whole pattern, from what was read and what is left. */
  function Joined(path: Pattern, rest: Option<Pattern>): Option<Pattern> {
    match rest case None => None case Some(t) => Some(path + t)
  }

  /** The token that the loop of add reads at a position, and where the next one starts; at a `<` that starts no
      known tag it reads none and stays. */
  method ReadToken(url: string, i: nat) returns (tok: Token, next: nat)
    requires i < |url|
    ensures next == Advance(url, i)
    ensures next == i ==> PatternFrom(url, i) == None
    ensures next != i ==> PatternFrom(url, i) == Joined([tok], PatternFrom(url, next))
  {
    tok, next := Literal(url[i]), i + 1;
    if url[i] == '<' {
      match TagAt(url, i) {
        case None => next := i;
        case Some((kind, size)) => tok, next := Placeholder(kind), i + size;
      }
    }
  }

  lemma JoinedEnds(t: Pattern, rest: Option<Pattern>)
    ensures Joined([], rest) == rest && Joined(t, Some([])) == Some(t)
  {
    if rest.Some? {
      assert [] + rest.value == rest.value;
    }
    assert t + [] == t;
  }

  lemma JoinedOn(path: Pattern, tok: Token, rest: Option<Pattern>)
    ensures Joined(path, Joined([tok], rest)) == Joined(path + [tok], rest)
  {
    if rest.Some? {
      assert path + ([tok] + rest.value) == (path + [tok]) + rest.value;
    }
  }

  /** NeverEnds is the model's word for a loop that goes on for ever without reading anything. */
  datatype AddResult = Stored | Duplicate | NeverEnds

  const ALL_KINDS := [INT, UINT, DOUBLE, STRING, PATH]

  lemma TextSays(url: string)
    ensures forall t :: PatternFrom(url, 0) == Some(t) <==> Says(url, t)
  {
    forall t
      ensures PatternFrom(url, 0) == Some(t) <==> Says(url, t)
    {
      PatternIff(url, t);
    }
  }

  lemma AllMatches(num: NumberParsers, url: string)
    requires Sane(num)
    ensures forall t, caps :: Captures(num, t, url, 0) == Some(caps) <==> Matches(num, t, url, 0, caps)
  {
    forall t, caps
      ensures Captures(num, t, url, 0) == Some(caps) <==> Matches(num, t, url, 0, caps)
    {
      CapturesIff(num, t, url, 0, caps);
    }
  }

  lemma FoundMatches(table: map<Pattern, nat>, num: NumberParsers, url: string, found: nat, m: Params, winner: Pattern)
    requires Sane(num) && (found == 0 <==> forall t :: t in table ==> !Fits(num, t, url, 0))
    requires found != 0 ==> Fits(num, winner, url, 0) && m == NO_PARAMS.PushAll(Captures(num, winner, url, 0).value)
    ensures found == 0 <==> forall t, caps :: t in table ==> !Matches(num, t, url, 0, caps)
    ensures found != 0 ==> exists caps :: Matches(num, winner, url, 0, caps) && m == NO_PARAMS.PushAll(caps)
  {
    hide Captures, Matches;
    AllMatches(num, url);
    if found != 0 {
      assert Matches(num, winner, url, 0, Captures(num, winner, url, 0).value);
      var t :| t in table && Fits(num, t, url, 0);
      assert Matches(num, t, url, 0, Captures(num, t, url, 0).value);
    }
  }

  lemma KindIsListed(k: ParamType)
    ensures k in ALL_KINDS
  {
    match k { case INT => case UINT => case DOUBLE => case STRING => case PATH => }
    assert ALL_KINDS[0] == INT && ALL_KINDS[1] == UINT && ALL_KINDS[2] == DOUBLE && ALL_KINDS[3] == STRING
        && ALL_KINDS[4] == PATH;
  }

  class Trie {
    var nodes: seq<Node>
    ghost var addr: seq<Pattern>
    ghost var table: map<Pattern, nat>
    ghost var optimized: bool

    ghost predicate Valid()
      reads this
    {
      && Wf(nodes)
      && (forall t, r :: Spells(nodes, 0, t, r) <==> t in table && table[t] == r)
      && (forall t :: t in table ==> table[t] != 0)
      && (if optimized then Compressed(nodes, 0) else Built(nodes, addr))
    }

    constructor ()
      ensures Valid() && !optimized && table == map[]
    {
      nodes, addr, table, optimized := [EMPTY_NODE], [[]], map[], false;
    }

    /** `add`: fails, and changes nothing in the table, exactly when the pattern already has a rule; and it never
        ends exactly when some `<` starts no known tag. */
    method Add(url: string, rule: nat) returns (r: AddResult)
      requires Valid() && !optimized && rule != 0
      modifies this
      ensures Valid() && !optimized
      ensures r == match PatternFrom(url, 0)
                   case None => NeverEnds
                   case Some(t) => if t in old(table) then Duplicate else Stored
      ensures table == if r == Stored then old(table)[PatternFrom(url, 0).value := rule] else old(table)
      ensures r == NeverEnds <==> forall t :: !Says(url, t)
      ensures r != NeverEnds ==> exists t :: Says(url, t) && (r == Duplicate <==> t in old(table))
                                             && table == if r == Stored then old(table)[t := rule] else old(table)
    {
      TextSays(url);
      var idx: nat, i: nat := 0, 0;
      ghost var path: Pattern := [];
      JoinedEnds([], PatternFrom(url, 0));
      while i < |url|
        invariant i <= |url| && Valid() && !optimized && table == old(table)
        invariant Joined(path, PatternFrom(url, i)) == PatternFrom(url, 0)
        invariant At(idx, path)
        decreases |url| - i
      {
        var tok, next := ReadToken(url, i);
        if next == i {
          return NeverEnds;
        }
        idx := Descend(idx, tok, path);
        JoinedOn(path, tok, PatternFrom(url, next));
        path, i := path + [tok], next;
      }
      JoinedEnds(path, None);
      var ok := Finish(idx, rule, path);
      r := if ok then Stored else Duplicate;
    }

    /** Node idx is the one that the path leads to. */
    ghost predicate At(idx: nat, path: Pattern)
      requires Valid() && !optimized
      reads this
    {
      idx < |nodes| && Leads(nodes, 0, path, idx) && addr[idx] == path
    }

    /** The end of add. */
    method Finish(idx: nat, rule: nat, ghost path: Pattern) returns (ok: bool)
      requires Valid() && !optimized && At(idx, path) && rule != 0
      modifies `nodes, `table
      ensures Valid() && ok == (path !in old(table))
      ensures table == if ok then old(table)[path := rule] else old(table)
    {
      LeadsSpells(nodes, addr, 0, path, idx, nodes[idx].rule);
      if nodes[idx].rule != 0 {
        return false;
      }
      LeadsSpells(nodes, addr, 0, path, idx, if path in table then table[path] else 0);
      SetRule(idx, rule, path);
      return true;
    }

    /** One step of the loop in add: go to the child for a token, making it first if it is missing. */
    method Descend(idx: nat, tok: Token, ghost path: Pattern) returns (next: nat)
      requires Valid() && !optimized && At(idx, path)
      modifies `nodes, `addr
      ensures Valid() && At(next, path + [tok])
    {
      if Child(nodes[idx], tok) == 0 {
        NewNode(idx, tok, path);
      }
      LeadsOn(nodes, 0, path, idx, tok);
      SingleStep(nodes, addr, idx, [tok], 0);
      return Child(nodes[idx], tok);
    }

    /** The branch of add that makes a missing child. */
    method NewNode(idx: nat, tok: Token, ghost path: Pattern)
      requires Valid() && !optimized && idx < |nodes| && Child(nodes[idx], tok) == 0
      requires Leads(nodes, 0, path, idx) && addr[idx] == path
      modifies `nodes, `addr
      ensures Valid() && |nodes| == |old(nodes)| + 1 && Child(nodes[idx], tok) == |old(nodes)|
      ensures Leads(nodes, 0, path, idx) && addr == old(addr) + [path + [tok]]
    {
      NewChildIsBuilt(nodes, addr, idx, tok);
      forall t, r
        ensures Spells(nodes, 0, t, r) <==> Spells(NewChild(nodes, idx, tok), 0, t, r)
      {
        NewChildSpellsNothing(nodes, addr, idx, tok, 0, t, r);
      }
      NewChildLeads(nodes, idx, tok, 0, path, idx);
      addr := addr + [addr[idx] + [tok]];
      nodes := nodes[idx := WithChild(nodes[idx], tok, |nodes|)] + [EMPTY_NODE];
    }

    method SetRule(idx: nat, rule: nat, ghost path: Pattern)
      requires Valid() && !optimized && idx < |nodes| && rule != 0 && path !in table
      requires Leads(nodes, 0, path, idx) && addr[idx] == path
      modifies `nodes, `table
      ensures Valid() && table == old(table)[path := rule]
    {
      SetRuleIsBuilt(nodes, addr, idx, rule);
      ghost var after := nodes[idx := nodes[idx].(rule := rule)];
      ghost var table' := table[path := rule];
      forall t, r
        ensures Spells(after, 0, t, r) <==> t in table' && table'[t] == r
      {
        SetRuleSpells(nodes, addr, idx, rule, path, t, r);
      }
      nodes := nodes[idx := nodes[idx].(rule := rule)];
      table := table[path := rule];
    }

    /** The two nested loops of optimizeNode over the children and the children's children. */
    method MergeFragments(idx: nat) returns (merged: map<string, nat>)
      requires Wf(nodes) && idx < |nodes|
      ensures IsMerged(nodes, idx, merged)
    {
      var cs := nodes[idx].children;
      merged := map[];
      ghost var seen: set<(string, string)> := {};
      var todo := cs.Keys;
      while todo != {}
        invariant todo <= cs.Keys
        invariant MergedSoFar(nodes, idx, merged, seen)
        invariant forall f, g :: f in cs && f !in todo && g in nodes[cs[f]].children ==> (f, g) in seen
        decreases |todo|
      {
        var f :| f in todo;
        var gs := nodes[cs[f]].children;
        var inner := gs.Keys;
        while inner != {}
          invariant inner <= gs.Keys
          invariant MergedSoFar(nodes, idx, merged, seen)
          invariant forall f', g :: f' in cs && f' !in todo && g in nodes[cs[f']].children ==> (f', g) in seen
          invariant forall g :: g in gs && g !in inner ==> (f, g) in seen
          decreases |inner|
        {
          var g :| g in inner;
          OneMoreMerged(nodes, idx, merged, seen, f, g);
          merged := merged[f + g := gs[g]];
          seen := seen + {(f, g)};
          inner := inner - {g};
        }
        todo := todo - {f};
      }
      forall f, g | f in cs && g in nodes[cs[f]].children
        ensures f + g in merged && merged[f + g] == nodes[cs[f]].children[g]
      {
        assert (f, g) in seen;
      }
    }

    /** `optimizeNode` */
    method OptimizeNode(idx: nat)
      requires Wf(nodes) && idx < |nodes|
      modifies `nodes
      ensures OptimizedFrom(old(nodes), nodes, idx) && Compressed(nodes, idx)
      ensures Compressed(old(nodes), idx) ==> nodes == old(nodes)
      decreases |nodes| - idx, 1, Slack(nodes[idx], |nodes|)
    {
      ghost var a := nodes;
      SlackBound(nodes, idx);
      OptimizeParams(idx);
      var cs := nodes[idx].children;
      if cs == map[] {
        return;
      }
      var mergeWithChild := AllChildrenSimple(idx);
      if mergeWithChild {
        MergeWithChildren(a, idx);
        ghost var b := nodes;
        OptimizeNode(idx);
        OptimizedTwice(a, b, nodes, idx, idx);
      } else {
        OptimizeChildren(a, idx);
      }
    }

    /** The first loop of optimizeNode. */
    method OptimizeParams(idx: nat)
      requires Wf(nodes) && idx < |nodes|
      modifies `nodes
      ensures OptimizedFrom(old(nodes), nodes, idx) && nodes[idx] == old(nodes)[idx]
      ensures Compressed(old(nodes), idx) ==> nodes == old(nodes)
      ensures forall kind :: kind in nodes[idx].params ==> Compressed(nodes, nodes[idx].params[kind])
      decreases |nodes| - idx, 0
    {
      ghost var a := nodes;
      var params := nodes[idx].params;
      ghost var done: set<ParamType> := {};
      for k := 0 to 5
        invariant OptimizedFrom(a, nodes, idx) && nodes[idx] == a[idx] && (Compressed(a, idx) ==> nodes == a)
        invariant forall kind :: kind in done && kind in params ==> Compressed(nodes, params[kind])
        invariant forall l :: 0 <= l < k ==> ALL_KINDS[l] in done
      {
        var kind := ALL_KINDS[k];
        if kind in params {
          OptimizeBelow(a, idx, params[kind]);
        }
        done := done + {kind};
      }
      forall kind | kind in params
        ensures Compressed(nodes, params[kind])
      {
        KindIsListed(kind);
      }
    }

    method AllChildrenSimple(idx: nat) returns (simple: bool)
      requires Wf(nodes) && idx < |nodes|
      ensures simple <==> forall f :: f in nodes[idx].children ==> nodes[nodes[idx].children[f]].IsSimple()
    {
      simple := true;
      var cs := nodes[idx].children;
      var todo := cs.Keys;
      while todo != {}
        invariant todo <= cs.Keys && simple
        invariant forall f :: f in cs && f !in todo ==> nodes[cs[f]].IsSimple()
        decreases |todo|
      {
        var f :| f in todo;
        if !nodes[cs[f]].IsSimple() {
          simple := false;
          break;
        }
        todo := todo - {f};
      }
    }

    /** The merging branch of optimizeNode, up to its call of itself. */
    method MergeWithChildren(ghost a: seq<Node>, idx: nat)
      requires Wf(a) && idx < |a| && OptimizedFrom(a, nodes, idx) && nodes[idx] == a[idx]
      requires nodes[idx].children != map[]
      requires forall f :: f in nodes[idx].children ==> nodes[nodes[idx].children[f]].IsSimple()
      modifies `nodes
      ensures OptimizedFrom(a, nodes, idx)
      ensures Slack(nodes[idx], |nodes|) < Slack(a[idx], |a|)
    {
      var merged := MergeFragments(idx);
      MergeOptimizes(nodes, idx, merged);
      MergeShrinksSlack(nodes, idx, merged);
      OptimizedTwice(a, nodes, nodes[idx := nodes[idx].(children := merged)], idx, idx);
      nodes := nodes[idx := nodes[idx].(children := merged)];
    }

    /** The loop of optimizeNode over children that were not merged. */
    method OptimizeChildren(ghost a: seq<Node>, idx: nat)
      requires Wf(a) && idx < |a| && OptimizedFrom(a, nodes, idx) && nodes[idx] == a[idx]
      requires Compressed(a, idx) ==> nodes == a
      requires exists f :: f in nodes[idx].children && !nodes[nodes[idx].children[f]].IsSimple()
      requires forall k :: k in nodes[idx].params ==> Compressed(nodes, nodes[idx].params[k])
      modifies `nodes
      ensures OptimizedFrom(a, nodes, idx) && Compressed(nodes, idx)
      ensures Compressed(a, idx) ==> nodes == a
      decreases |nodes| - idx, 0
    {
      var cs := nodes[idx].children;
      var todo := cs.Keys;
      while todo != {}
        invariant todo <= cs.Keys
        invariant OptimizedFrom(a, nodes, idx) && nodes[idx] == a[idx] && (Compressed(a, idx) ==> nodes == a)
        invariant forall k :: k in nodes[idx].params ==> Compressed(nodes, nodes[idx].params[k])
        invariant forall f :: f in cs && f !in todo ==> Compressed(nodes, cs[f])
        decreases |todo|
      {
        var f :| f in todo;
        OptimizeBelow(a, idx, cs[f]);
        todo := todo - {f};
      }
    }

    /** One recursive call of optimizeNode on a node below idx, after earlier ones. */
    method OptimizeBelow(ghost a: seq<Node>, ghost idx: nat, child: nat)
      requires Wf(a) && idx < child < |a| && OptimizedFrom(a, nodes, idx)
      requires Compressed(a, idx) ==> nodes == a && Compressed(a, child)
      modifies `nodes
      ensures OptimizedFrom(a, nodes, idx) && nodes[idx] == old(nodes)[idx] && Compressed(nodes, child)
      ensures Compressed(a, idx) ==> nodes == a
      ensures forall j :: 0 <= j < |a| && Compressed(old(nodes), j) ==> Compressed(nodes, j)
      decreases |nodes| - child
    {
      OptimizeNode(child);
      OptimizedTwice(a, old(nodes), nodes, idx, child);
      forall j | 0 <= j < |a| && Compressed(old(nodes), j)
        ensures Compressed(nodes, j)
      {
        CompressedStays(old(nodes), nodes, j);
      }
    }

    /** `validate`: refuses a root with a rule or a placeholder, and compresses otherwise. */
    method Validate() returns (ok: bool)
      requires Valid()
      modifies this
      ensures Valid() && table == old(table)
      ensures ok == old(nodes)[0].IsSimple()
      ensures ok ==> optimized
      ensures !ok ==> nodes == old(nodes) && optimized == old(optimized)
      ensures old(optimized) ==> nodes == old(nodes)
    {
      ok := nodes[0].IsSimple();
      if ok {
        OptimizeNode(0);
        optimized := true;
      }
    }

    /** One of the five placeholder blocks of find. */
    method FindThroughKind(num: NumberParsers, url: string, idx: nat, pos: nat, params: Params, kind: ParamType,
                           found: nat, m: Params, ghost caps: seq<Value>, ghost before: Language)
      returns (found': nat, m': Params, params': Params, ghost caps': seq<Value>)
      requires Wf(nodes) && idx < |nodes| && pos < |url| && Sane(num)
      requires Best(before, num, url, pos, found, caps) && (found != 0 ==> m == params.PushAll(caps))
      requires forall p :: p in before ==> p.0 != [] && Turn(p.0[0]) < Turn(Placeholder(kind))
      ensures Best(before + ViaKind(nodes, idx, kind), num, url, pos, found', caps')
      ensures (found' != 0 ==> m' == params.PushAll(caps')) && params' == params
      decreases |url| - pos, 1
    {
      found', m', params', caps' := found, m, params, caps;
      ghost var g, cg := 0, [];
      if kind in nodes[idx].params {
        match Scan(num, kind, url, pos) {
          case None =>
            KindMisses(nodes, idx, kind, num, url, pos);
          case Some((v, end)) =>
            ScanAdvances(num, kind, url, pos);
            params' := params'.Push(v);
            var r, rm, rc := Find(num, url, nodes[idx].params[kind], end, params');
            KindHits(nodes, idx, kind, num, url, pos, end, v, r, rc);
            assert ([v] + rc)[1..] == rc;
            g, cg := r, [v] + rc;
            if r != 0 && (found' == 0 || found' > r) {
              found', m', caps' := r, rm, [v] + rc;
            }
            params' := params'.Pop(kind);
            PopUndoesPush(params, v, kind);
        }
      } else {
        KindMisses(nodes, idx, kind, num, url, pos);
      }
      KindComesNext(nodes, idx, kind, before, num, url, pos);
      BestOfBoth(before, ViaKind(nodes, idx, kind), num, url, pos, found, caps, g, cg);
    }

    /** `find` below one node, from one position of the URL, with the parameters collected on the way. */
    method Find(num: NumberParsers, url: string, idx: nat, pos: nat, params: Params)
      returns (found: nat, m: Params, ghost caps: seq<Value>)
      requires Wf(nodes) && idx < |nodes| && pos <= |url| && Sane(num)
      ensures Best(LanguageOf(nodes, idx), num, url, pos, found, caps)
      ensures found != 0 ==> m == params.PushAll(caps)
      decreases |url| - pos, 2
    {
      if pos == |url| {
        found, m, caps := nodes[idx].rule, params, [];
        AtTheEnd(nodes, idx, num, url);
        return;
      }
      found, m, caps := 0, NO_PARAMS, [];
      var ps := params;
      ghost var none: Language := iset{};
      found, m, ps, caps := FindThroughKind(num, url, idx, pos, ps, INT, found, m, caps, none);
      found, m, ps, caps := FindThroughKind(num, url, idx, pos, ps, UINT, found, m, caps,
        none + ViaKind(nodes, idx, INT));
      found, m, ps, caps := FindThroughKind(num, url, idx, pos, ps, DOUBLE, found, m, caps,
                                            none + ViaKind(nodes, idx, INT) + ViaKind(nodes, idx, UINT));
      found, m, ps, caps := FindThroughKind(num, url, idx, pos, ps, STRING, found, m, caps,
        none + ViaKind(nodes, idx, INT) + ViaKind(nodes, idx, UINT) + ViaKind(nodes, idx, DOUBLE));
      found, m, ps, caps := FindThroughKind(num, url, idx, pos, ps, PATH, found, m, caps,
        none + ViaKind(nodes, idx, INT) + ViaKind(nodes, idx, UINT) + ViaKind(nodes, idx, DOUBLE)
          + ViaKind(nodes, idx, STRING));
      assert none + ViaKind(nodes, idx, INT) + ViaKind(nodes, idx, UINT) + ViaKind(nodes, idx, DOUBLE)
             + ViaKind(nodes, idx, STRING) + ViaKind(nodes, idx, PATH) == ViaKinds(nodes, idx);
      found, m, caps := FindThroughFragments(num, url, idx, pos, ps, found, m, caps);
      AllWaysCovered(nodes, idx, num, url, pos, found, caps);
    }

    method FindThroughFragment(num: NumberParsers, url: string, idx: nat, pos: nat, params: Params, f: string,
                               found: nat, m: Params, ghost caps: seq<Value>, ghost lang: Language)
      returns (found': nat, m': Params, ghost caps': seq<Value>)
      requires Wf(nodes) && idx < |nodes| && pos < |url| && Sane(num) && f in nodes[idx].children
      requires Before(lang, ViaFragments(nodes, idx, {f}), num, url, pos)
      requires Best(lang, num, url, pos, found, caps) && (found != 0 ==> m == params.PushAll(caps))
      ensures Best(lang + ViaFragments(nodes, idx, {f}), num, url, pos, found', caps')
      ensures found' != 0 ==> m' == params.PushAll(caps')
      decreases |url| - pos, 0
    {
      found', m', caps' := found, m, caps;
      ghost var g, cg := 0, [];
      if StartsAt(url, pos, f) {
        assert WfNode(nodes[idx], idx, |nodes|);
        var r, rm, rc := Find(num, url, nodes[idx].children[f], pos + |f|, params);
        FragmentHits(nodes, idx, f, num, url, pos, r, rc);
        g, cg := r, rc;
        if r != 0 && (found' == 0 || found' > r) {
          found', m', caps' := r, rm, rc;
        }
      } else {
        FragmentMisses(nodes, idx, f, num, url, pos);
      }
      BestOfBoth(lang, ViaFragments(nodes, idx, {f}), num, url, pos, found, caps, g, cg);
    }

    /** The last loop of find, over the fragments in the order of an unordered map: any order, since at most one
        fragment fits. */
    method FindThroughFragments(num: NumberParsers, url: string, idx: nat, pos: nat, params: Params,
                                found: nat, m: Params, ghost caps: seq<Value>)
      returns (found': nat, m': Params, ghost caps': seq<Value>)
      requires Wf(nodes) && idx < |nodes| && pos < |url| && Sane(num)
      requires Best(ViaKinds(nodes, idx), num, url, pos, found, caps) && (found != 0 ==> m == params.PushAll(caps))
      ensures Best(ViaKinds(nodes, idx) + ViaFragments(nodes, idx, nodes[idx].children.Keys), num, url, pos, found',
          caps')
      ensures found' != 0 ==> m' == params.PushAll(caps')
      decreases |url| - pos, 1
    {
      found', m', caps' := found, m, caps;
      var cs := nodes[idx].children;
      var todo := cs.Keys;
      ghost var lang := ViaKinds(nodes, idx);
      NoFragments(nodes, idx);
      while todo != {}
        invariant todo <= cs.Keys
        invariant lang == ViaKinds(nodes, idx) + ViaFragments(nodes, idx, cs.Keys - todo)
        invariant Best(lang, num, url, pos, found', caps') && (found' != 0 ==> m' == params.PushAll(caps'))
        decreases |todo|
      {
        var f :| f in todo;
        FragmentComesNext(nodes, idx, cs.Keys - todo, f, num, url, pos);
        found', m', caps' := FindThroughFragment(num, url, idx, pos, params, f, found', m', caps', lang);
        NextFragments(nodes, idx, cs.Keys, todo, f, lang);
        lang := lang + ViaFragments(nodes, idx, {f});
        todo := todo - {f};
      }
      assert cs.Keys - todo == cs.Keys;
    }

    /** `find` for a whole request URL: the smallest rule number among the patterns that match it, 0 when none
        does, and the captures of the first such pattern pushed in order. */
    method FindRule(num: NumberParsers, url: string) returns (found: nat, m: Params, ghost winner: Pattern)
      requires Valid() && Sane(num)
      ensures found == 0 <==> forall t :: t in table ==> !Fits(num, t, url, 0)
      ensures found != 0 ==> winner in table && table[winner] == found && Fits(num, winner, url, 0)
      ensures found != 0 ==> forall t :: t in table && table[t] == found && Fits(num, t, url, 0) ==> Tried(winner, t)
      ensures found != 0 ==> m == NO_PARAMS.PushAll(Captures(num, winner, url, 0).value)
      ensures forall t :: t in table && Fits(num, t, url, 0) ==> found <= table[t]
      ensures found == 0 <==> forall t, caps :: t in table ==> !Matches(num, t, url, 0, caps)
      ensures found != 0 ==> exists caps :: Matches(num, winner, url, 0, caps) && m == NO_PARAMS.PushAll(caps)
    {
      ghost var caps;
      found, m, caps := Find(num, url, 0, 0, NO_PARAMS);
      forall t | t in table && Fits(num, t, url, 0)
        ensures found != 0 && found <= table[t]
      {
        assert Spells(nodes, 0, t, table[t]);
        assert (t, table[t]) in LanguageOf(nodes, 0);
      }
      winner := [];
      if found != 0 {
        winner :| (winner, found) in LanguageOf(nodes, 0) && Captures(num, winner, url, 0) == Some(caps)
                  && First(LanguageOf(nodes, 0), num, url, 0, found, winner);
        forall t | t in table && table[t] == found && Fits(num, t, url, 0)
          ensures Tried(winner, t)
        {
          assert Spells(nodes, 0, t, found);
          assert (t, found) in LanguageOf(nodes, 0);
        }
      }
      FoundMatches(table, num, url, found, m, winner);
    }
  }

  lemma NextFragments(nodes: seq<Node>, idx: nat, keys: set<string>, todo: set<string>, f: string, lang: Language)
    requires Wf(nodes) && idx < |nodes| && f in todo && todo <= keys
    requires lang == ViaKinds(nodes, idx) + ViaFragments(nodes, idx, keys - todo)
    ensures lang + ViaFragments(nodes, idx, {f}) == ViaKinds(nodes, idx) + ViaFragments(nodes, idx, keys - (todo - {f}))
  {
    MoreFragments(nodes, idx, keys - todo, f);
    assert keys - (todo - {f}) == keys - todo + {f};
  }

  lemma NoFragments(nodes: seq<Node>, idx: nat)
    requires Wf(nodes) && idx < |nodes|
    ensures ViaKinds(nodes, idx) + ViaFragments(nodes, idx, nodes[idx].children.Keys - nodes[idx].children.Keys)
         == ViaKinds(nodes, idx)
  {
    assert ViaFragments(nodes, idx, nodes[idx].children.Keys - nodes[idx].children.Keys) == iset{};
  }

  lemma AtTheEnd(nodes: seq<Node>, idx: nat, num: NumberParsers, url: string)
    requires Wf(nodes) && idx < |nodes| && Sane(num)
    ensures Best(LanguageOf(nodes, idx), num, url, |url|, nodes[idx].rule, [])
  {
    if nodes[idx].rule != 0 {
      assert Spells(nodes, idx, [], nodes[idx].rule);
      assert ([], nodes[idx].rule) in LanguageOf(nodes, idx);
    }
  }

  lemma {:induction false} SameLeads(a: seq<Node>, b: seq<Node>, i: nat, t: Pattern, j: nat)
    requires Wf(a) && Wf(b) && |a| == |b| && i < |a| && Leads(a, i, t, j)
    requires forall k :: 0 <= k < |a| ==> a[k].params == b[k].params && a[k].children == b[k].children
    ensures Leads(b, i, t, j)
    decreases |t|
  {
    if t != [] {
      assert WfNode(a[i], i, |a|);
      SameLeads(a, b, Child(a[i], t[0]), t[1..], j);
    }
  }

  ghost predicate MergedSoFar(nodes: seq<Node>, idx: nat, merged: map<string, nat>, seen: set<(string, string)>)
    requires Wf(nodes) && idx < |nodes|
  {
    var cs := nodes[idx].children;
    && (forall p :: p in seen ==> p.0 in cs && p.1 in nodes[cs[p.0]].children)
    && (forall p :: p in seen ==> p.0 + p.1 in merged && merged[p.0 + p.1] == nodes[cs[p.0]].children[p.1])
    && (forall h :: h in merged ==> exists p :: p in seen && h == p.0 + p.1)
  }

  lemma OneMoreMerged(nodes: seq<Node>, idx: nat, merged: map<string, nat>, seen: set<(string, string)>, f: string,
      g: string)
    requires Wf(nodes) && idx < |nodes| && MergedSoFar(nodes, idx, merged, seen)
    requires f in nodes[idx].children && g in nodes[nodes[idx].children[f]].children
    ensures MergedSoFar(nodes, idx, merged[f + g := nodes[nodes[idx].children[f]].children[g]], seen + {(f, g)})
  {
    forall p | p in seen && p.0 + p.1 == f + g
      ensures p == (f, g)
    {
      JoinedFragmentsDiffer(nodes, idx, p.0, p.1, f, g);
    }
  }

  // ---------------------------------------------------------------- what compression keeps

  /** The answer of a search is unique, the captures included: among patterns with the same rule the first wins. */
  lemma BestIsUnique(lang: Language, num: NumberParsers, url: string, pos: nat, f: nat, cf: seq<Value>, g: nat,
      cg: seq<Value>)
    requires Sane(num) && pos <= |url| && Best(lang, num, url, pos, f, cf) && Best(lang, num, url, pos, g, cg)
    ensures f == g
    ensures f != 0 ==> cf == cg
  {
    if f != 0 {
      var t :| (t, f) in lang && Captures(num, t, url, pos) == Some(cf) && First(lang, num, url, pos, f, t);
      assert Fits(num, (t, f).0, url, pos);
      var u :| (u, g) in lang && Captures(num, u, url, pos) == Some(cg) && First(lang, num, url, pos, g, u);
      assert Fits(num, (u, g).0, url, pos);
      TriedTogether(t, u);
    }
  }

  lemma CompressionKeepsLanguage(a: seq<Node>, b: seq<Node>, idx: nat, i: nat)
    requires Wf(a) && idx < |a| && OptimizedFrom(a, b, idx) && i < |a|
    ensures LanguageOf(a, i) == LanguageOf(b, i)
  {
    forall t: Pattern, r: nat
      ensures (t, r) in LanguageOf(a, i) <==> (t, r) in LanguageOf(b, i)
    {
      assert Spells(a, i, t, r) <==> Spells(b, i, t, r);
    }
  }

  /** Any two searches, one before and one after compressing, agree on the rule and on the captures. */
  lemma CompressionKeepsAnswers(a: seq<Node>, b: seq<Node>, idx: nat, num: NumberParsers, url: string,
                                f: nat, cf: seq<Value>, g: nat, cg: seq<Value>)
    requires Wf(a) && idx < |a| && OptimizedFrom(a, b, idx) && Sane(num)
    requires Best(LanguageOf(a, idx), num, url, 0, f, cf) && Best(LanguageOf(b, idx), num, url, 0, g, cg)
    ensures f == g
    ensures f != 0 ==> cf == cg
  {
    CompressionKeepsLanguage(a, b, idx, idx);
    BestIsUnique(LanguageOf(a, idx), num, url, 0, f, cf, g, cg);
  }

  /** find, validate, find again: the two searches give the same rule and the same parameters. */
  method FindAroundValidate(trie: Trie, num: NumberParsers, url: string)
    returns (ok: bool, before: nat, m: Params, after: nat, m': Params)
    requires trie.Valid() && Sane(num)
    modifies trie
    ensures before == after && (before != 0 ==> m == m')
  {
    ghost var t, u;
    before, m, t := trie.FindRule(num, url);
    ok := trie.Validate();
    after, m', u := trie.FindRule(num, url);
    if before != 0 && after != 0 {
      assert Fits(num, t, url, 0) && Fits(num, u, url, 0);
      assert Tried(t, u) && Tried(u, t) by {
        assert trie.table[t] == before && trie.table[u] == after && before == after;
      }
      TriedTogether(t, u);
    }
  }

  // ---------------------------------------------------------------- the router

  const RULE_SPECIAL_REDIRECT_SLASH := 1

  predicate IsDirectory(rule: string) { |rule| > 1 && rule[|rule| - 1] == '/' }

  lemma TagInPrefix(url: string, i: nat)
    requires |url| > 0 && url[|url| - 1] == '/' && i < |url| - 1
    ensures TagAt(url, i) == TagAt(url[..|url| - 1], i)
  {
    TraitsAreTags();
    TagInPrefixOf(PARAM_TRAITS, url, i);
  }

  lemma {:induction false} TagInPrefixOf(table: seq<(ParamType, string)>, url: string, i: nat)
    requires TagTable(table) && |url| > 0 && url[|url| - 1] == '/' && i < |url| - 1
    ensures FirstTag(table, url, i) == FirstTag(table, url[..|url| - 1], i)
    decreases |table|
  {
    if table != [] {
      SameStart(url, i, table[0].1);
      TagInPrefixOf(table[1..], url, i);
    }
  }

  lemma SameStart(url: string, i: nat, name: string)
    requires |url| > 0 && url[|url| - 1] == '/' && i < |url| - 1 && name != "" && name[|name| - 1] == '>'
    ensures StartsAt(url, i, name) <==> StartsAt(url[..|url| - 1], i, name)
  {
    if i + |name| < |url| {
      assert url[i..i + |name|] == url[..|url| - 1][i..i + |name|];
    } else if i + |name| == |url| {
      assert url[i..i + |name|][|name| - 1] == '/';
    }
  }

  /** Dropping a final slash drops the last token of the pattern. */
  lemma {:induction false} WithoutSlash(url: string, i: nat)
    requires |url| > 0 && url[|url| - 1] == '/' && i <= |url| - 1 && PatternFrom(url, i).Some?
    ensures PatternFrom(url[..|url| - 1], i).Some?
    ensures PatternFrom(url, i).value == PatternFrom(url[..|url| - 1], i).value + [Literal('/')]
    decreases |url| - i
  {
    var cut := url[..|url| - 1];
    if i == |url| - 1 {
      assert PatternFrom(url, |url|) == Some([]);
      assert PatternFrom(cut, i) == Some([]);
    } else if url[i] == '<' {
      TagInPrefix(url, i);
      var (kind, size) := TagAt(cut, i).value;
      WithoutSlash(url, i + size);
      assert PatternFrom(cut, i).value == [Placeholder(kind)] + PatternFrom(cut, i + size).value;
    } else {
      WithoutSlash(url, i + 1);
      assert PatternFrom(cut, i).value == [Literal(url[i])] + PatternFrom(cut, i + 1).value;
    }
  }

  /** The pattern of a directory rule without its final slash. */
  function SlashlessPattern(rule: string): (cut: Pattern)
    requires IsDirectory(rule) && PatternFrom(rule, 0).Some?
    ensures PatternFrom(rule, 0).value == cut + [Literal('/')]
    ensures PatternFrom(rule[..|rule| - 1], 0) == Some(cut)
  {
    WithoutSlash(rule, 0);
    PatternFrom(rule[..|rule| - 1], 0).value
  }

  datatype Outcome = NotFound | RedirectToSlash | Corrupted | CallRule(index: nat, params: Params)

  class Router {
    var trie: Trie
    var ruleCount: nat   // rules_ starts with two unused places

    ghost predicate Valid()
      reads this, trie
    {
      && trie.Valid() && ruleCount >= 2
      && (forall t :: t in trie.table ==> trie.table[t] < ruleCount)
      && (forall t, t' :: t in trie.table && t' in trie.table && trie.table[t] == trie.table[t'] >= 2 ==> t == t')
    }

    constructor ()
      ensures Valid() && trie.table == map[] && !trie.optimized && fresh(trie)
    {
      trie := new Trie();
      ruleCount := 2;
    }

    /** `internal_add_rule_object`: the rule gets the next number; a rule that ends in a slash also gives the
        text without the slash the redirecting rule.  A failure in the second part leaves the first in place. */
    method AddRule(rule: string) returns (r: AddResult)
      requires Valid() && !trie.optimized
      modifies this, trie
      ensures Valid() && trie == old(trie) && !trie.optimized && ruleCount == old(ruleCount) + 1
      ensures r == NeverEnds <==> PatternFrom(rule, 0).None?
      ensures r == NeverEnds ==> trie.table == old(trie.table)
      ensures PatternFrom(rule, 0).Some? ==>
              var t := PatternFrom(rule, 0).value;
              var table := old(trie.table);
              if t in table then r == Duplicate && trie.table == table
              else if !IsDirectory(rule) then r == Stored && trie.table == table[t := old(ruleCount)]
              else
                var cut := SlashlessPattern(rule);
                r == (if cut in table then Duplicate else Stored) &&
                trie.table == if r == Stored then table[t := old(ruleCount)][cut := 1] else table[t := old(ruleCount)]
    {
      hide Says;
      ruleCount := ruleCount + 1;
      r := trie.Add(rule, ruleCount - 1);
      if r == Stored && IsDirectory(rule) {
        r := AddRedirect(rule);
      }
    }

    method AddRedirect(rule: string) returns (r: AddResult)
      requires Valid() && !trie.optimized && IsDirectory(rule) && PatternFrom(rule, 0).Some?
      modifies trie
      ensures Valid() && !trie.optimized
      ensures var cut := SlashlessPattern(rule);
              && r == (if cut in old(trie.table) then Duplicate else Stored)
              && trie.table == if r == Stored then old(trie.table)[cut := 1] else old(trie.table)
    {
      hide Says;
      ghost var cut := SlashlessPattern(rule);
      r := trie.Add(rule[..|rule| - 1], RULE_SPECIAL_REDIRECT_SLASH);
    }

    /** `handle`, up to the call of the rule: a rule number from the trie is always a valid index, and the
        pattern that gave a proper rule is the only fitting one with that number. */
    method Handle(num: NumberParsers, url: string) returns (r: Outcome, ghost winner: Pattern)
      requires Valid() && Sane(num)
      ensures r != Corrupted
      ensures r == NotFound <==> forall t :: t in trie.table ==> !Fits(num, t, url, 0)
      ensures r == RedirectToSlash <==> exists t :: t in trie.table && trie.table[t] == 1 && Fits(num, t, url, 0)
      ensures r.CallRule? ==> winner in trie.table && trie.table[winner] == r.index && 2 <= r.index < ruleCount
      ensures r.CallRule? ==> Fits(num, winner, url, 0)
                              && r.params == NO_PARAMS.PushAll(Captures(num, winner, url, 0).value)
      ensures r.CallRule? ==> forall t :: t in trie.table && Fits(num, t, url, 0) && t != winner ==>
          r.index < trie.table[t]
      ensures r == NotFound <==> forall t, caps :: t in trie.table ==> !Matches(num, t, url, 0, caps)
      ensures r.CallRule? ==> exists caps :: Matches(num, winner, url, 0, caps) && r.params == NO_PARAMS.PushAll(caps)
    {
      var found, m;
      found, m, winner := trie.FindRule(num, url);
      if found == 0 {
        r := NotFound;
      } else if found >= ruleCount {
        r := Corrupted;
      } else if found == RULE_SPECIAL_REDIRECT_SLASH {
        r := RedirectToSlash;
      } else {
        r := CallRule(found, m);
      }
    }
  }
}
