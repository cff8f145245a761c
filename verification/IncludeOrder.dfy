/**
 The ordering of headers in lib/crow/amalgamate/merge_all.py: a depth-first search from included file to includer,
 its reversed post-order, and the final check for cyclic includes.
 */
module IncludeOrder {

  type Name = string

  /** For a file, the files that include it; a missing key is an empty list. */
  type Edges = map<Name, seq<Name>>

  function Includers(edges: Edges, x: Name): seq<Name> { if x in edges then edges[x] else [] }

  predicate Edge(edges: Edges, x: Name, y: Name) { y in Includers(edges, x) }

  /** A walk along edges. */
  ghost predicate Path(edges: Edges, p: seq<Name>) {
    p != [] && forall i :: 0 <= i < |p| - 1 ==> Edge(edges, p[i], p[i + 1])
  }

  ghost predicate IsCycle(edges: Edges, p: seq<Name>) {
    Path(edges, p) && |p| >= 2 && p[0] == p[|p| - 1]
  }

  ghost predicate HasCycle(edges: Edges) { exists p :: IsCycle(edges, p) }

  ghost predicate NoDuplicates(s: seq<Name>) { forall i, j :: 0 <= i < j < |s| ==> s[i] != s[j] }

  /** Everything that an edge leads to is one of the files. */
  ghost predicate Within(edges: Edges, files: set<Name>) {
    forall x, y :: Edge(edges, x, y) ==> y in files
  }

  // ---------------------------------------------------------------- the search

  /** The finished files, in order, and those being visited, which lie on one path. */
  ghost predicate Search(edges: Edges, order: seq<Name>, visited: set<Name>, stack: seq<Name>) {
    && NoDuplicates(order) && (forall x :: x in visited <==> x in order || x in stack)
    && (forall x :: x in stack ==> x !in order)
    && (stack != [] ==> Path(edges, stack))
    && (forall i, y :: 0 <= i < |order| && Edge(edges, order[i], y) ==> y in order[..i] || HasCycle(edges))
  }

  /** An edge from the end of a path back into it closes a cycle. */
  lemma {:induction false} BackEdge(edges: Edges, stack: seq<Name>, y: Name)
    requires Path(edges, stack) && y in stack && Edge(edges, stack[|stack| - 1], y)
    ensures HasCycle(edges)
  {
    var i :| 0 <= i < |stack| && stack[i] == y;
    var p := stack[i..] + [y];
    forall k | 0 <= k < |p| - 1
      ensures Edge(edges, p[k], p[k + 1])
    {
      assert p[k] == stack[i + k];
      if k + 1 < |p| - 1 { assert p[k + 1] == stack[i + k + 1]; }
    }
    assert IsCycle(edges, p);
  }

  lemma {:induction false} AppendFresh(s: seq<Name>, x: Name)
    requires NoDuplicates(s) && x !in s
    ensures NoDuplicates(s + [x])
  {
  }

  /** A file is finished when every includer of it has been visited. */
  lemma {:induction false} Finish(edges: Edges, order: seq<Name>, visited: set<Name>, stack: seq<Name>)
    requires stack != [] && Search(edges, order, visited, stack) && NoDuplicates(stack)
    requires forall y :: Edge(edges, stack[|stack| - 1], y) ==> y in visited
    ensures Search(edges, order + [stack[|stack| - 1]], visited, stack[..|stack| - 1])
  {
    var x, below := stack[|stack| - 1], stack[..|stack| - 1];
    var order' := order + [x];
    assert stack == below + [x];
    assert forall z :: z in stack <==> z in below || z == x;
    assert forall z :: z in order' <==> z in order || z == x;
    if below != [] {
      assert forall i :: 0 <= i < |below| ==> below[i] == stack[i];
      assert forall i :: 0 <= i < |below| - 1 ==> Edge(edges, stack[i], stack[i + 1]);
    }
    forall i, y | 0 <= i < |order'| && Edge(edges, order'[i], y)
      ensures y in order'[..i] || HasCycle(edges)
    {
      if i < |order| {
        assert order'[..i] == order[..i];
      } else {
        assert order'[..i] == order;
        if y in stack {
          BackEdge(edges, stack, y);
        }
      }
    }
    AppendFresh(order, x);
    forall z | z in below
      ensures z !in order'
    {
      var j :| 0 <= j < |below| && below[j] == z;
      assert stack[j] != stack[|stack| - 1];
    }
    assert forall z :: z in visited <==> z in order' || z in below;
    assert below != [] ==> Path(edges, below);
  }

  lemma {:induction false} FinishTop(edges: Edges, order: seq<Name>, visited: set<Name>, stack: seq<Name>, x: Name)
    requires Search(edges, order, visited, stack + [x]) && NoDuplicates(stack + [x])
    requires forall y :: Edge(edges, x, y) ==> y in visited
    ensures Search(edges, order + [x], visited, stack)
  {
    Finish(edges, order, visited, stack + [x]);
    assert (stack + [x])[..|stack|] == stack;
  }

  class Merger {
    const edges: Edges
    var visited: set<Name>
    var order: seq<Name>

    constructor (edges: Edges)
      ensures this.edges == edges && visited == {} && order == []
    {
      this.edges := edges;
      visited, order := {}, [];
    }

    /** `dfs`: visits a file and everything reachable from it that was not visited yet. */
    method Dfs(x: Name, ghost stack: seq<Name>, ghost files: set<Name>)
      requires x in files && x !in visited && visited <= files && Within(edges, files)
      requires Search(edges, order, visited, stack) && NoDuplicates(stack)
      requires stack != [] ==> Edge(edges, stack[|stack| - 1], x)
      modifies `visited, `order
      ensures Search(edges, order, visited, stack) && old(visited) < visited <= files && x in visited
      ensures old(order) <= order
      decreases files - visited
    {
      visited := visited + {x};
      ghost var inner := stack + [x];
      Entered(edges, order, old(visited), stack, x);
      var ys := Includers(edges, x);
      var k := 0;
      while k < |ys|
        invariant 0 <= k <= |ys|
        invariant Search(edges, order, visited, inner) && old(visited) + {x} <= visited <= files
        invariant old(order) <= order
        invariant forall j :: 0 <= j < k ==> ys[j] in visited
      {
        if ys[k] !in visited {
          assert Edge(edges, x, ys[k]);
          Dfs(ys[k], inner, files);
        }
        k := k + 1;
      }
      FinishTop(edges, order, visited, stack, x);
      order := order + [x];
    }

    /** The loop over the headers, and the reversal. */
    method VisitAll(headers: seq<Name>) returns (result: seq<Name>)
      requires visited == {} && order == [] && Within(edges, set h | h in headers)
      modifies `visited, `order
      ensures NoDuplicates(result) && (forall x :: x in result <==> x in headers)
      ensures !HasCycle(edges) ==> Ordered(edges, result)
    {
      ghost var files := set h | h in headers;
      var k := 0;
      while k < |headers|
        invariant 0 <= k <= |headers|
        invariant Search(edges, order, visited, []) && visited <= files
        invariant forall j :: 0 <= j < k ==> headers[j] in visited
      {
        if headers[k] !in visited {
          Dfs(headers[k], [], files);
        }
        k := k + 1;
      }
      result := Reverse(order);
      ReversedOrder(edges, order, visited, result);
    }
  }

  lemma {:induction false} Entered(edges: Edges, order: seq<Name>, visited: set<Name>, stack: seq<Name>, x: Name)
    requires Search(edges, order, visited, stack) && NoDuplicates(stack) && x !in visited
    requires stack != [] ==> Edge(edges, stack[|stack| - 1], x)
    ensures Search(edges, order, visited + {x}, stack + [x]) && NoDuplicates(stack + [x])
  {
    var inner := stack + [x];
    assert forall z :: z in inner <==> z in stack || z == x;
  }

  // ---------------------------------------------------------------- the order

  /** Every included file stands before its includers. */
  ghost predicate Ordered(edges: Edges, order: seq<Name>) {
    forall i, j :: 0 <= i < |order| && 0 <= j < |order| && Edge(edges, order[i], order[j]) ==> i < j
  }

  function Reverse(s: seq<Name>): (r: seq<Name>)
    ensures |r| == |s| && forall i :: 0 <= i < |s| ==> r[i] == s[|s| - 1 - i]
  {
    if s == [] then [] else Reverse(s[1..]) + [s[0]]
  }

  lemma {:induction false} ReversedOrder(edges: Edges, s: seq<Name>, visited: set<Name>, r: seq<Name>)
    requires Search(edges, s, visited, [])
    requires |r| == |s| && forall i :: 0 <= i < |s| ==> r[i] == s[|s| - 1 - i]
    ensures NoDuplicates(r) && (forall x :: x in r <==> x in s)
    ensures !HasCycle(edges) ==> Ordered(edges, r)
  {
    forall x
      ensures x in r <==> x in s
    {
      if x in s {
        var i :| 0 <= i < |s| && s[i] == x;
        assert r[|s| - 1 - i] == x;
      }
    }
    if !HasCycle(edges) {
      forall i, j | 0 <= i < |r| && 0 <= j < |r| && Edge(edges, r[i], r[j])
        ensures i < j
      {
        var a, b := |s| - 1 - i, |s| - 1 - j;
        assert s[b] in s[..a];
        var c :| 0 <= c < a && s[c] == s[b];
      }
    }
  }

  /** In an ordered list every walk goes up. */
  lemma {:induction false} WalkGoesUp(edges: Edges, order: seq<Name>, p: seq<Name>, i: nat, j: nat)
    requires Ordered(edges, order) && Path(edges, p) && i < |order| && j < |order|
    requires (forall k :: 0 <= k < |p| ==> p[k] in order)
    requires order[i] == p[0] && order[j] == p[|p| - 1] && NoDuplicates(order)
    ensures if |p| == 1 then i == j else i < j
    decreases |p|
  {
    if |p| > 1 {
      var last := |p| - 2;
      var m :| 0 <= m < |order| && order[m] == p[last];
      assert Edge(edges, p[last], p[last + 1]);
      WalkGoesUp(edges, order, p[..last + 1], i, m);
    }
  }

  /** So a graph that has an ordered list of all its files has no cycle. */
  lemma {:induction false} OrderedHasNoCycle(edges: Edges, order: seq<Name>)
    requires Ordered(edges, order) && NoDuplicates(order) && forall x, y :: Edge(edges, x, y) ==> y in order
    ensures !HasCycle(edges)
  {
    forall p | Path(edges, p) && |p| >= 2
      ensures p[0] != p[|p| - 1]
    {
      if p[0] == p[|p| - 1] {
        forall k | 0 <= k < |p|
          ensures p[k] in order
        {
          var before := if k == 0 then |p| - 2 else k - 1;
          assert Edge(edges, p[before], p[before + 1]);
        }
        var i :| 0 <= i < |order| && order[i] == p[0];
        WalkGoesUp(edges, order, p, i, i);
      }
    }
  }

  // ---------------------------------------------------------------- the final check

  /** `order.index(x)`: the first position; None is its exception. */
  datatype Index = Missing | At(i: nat)

  method IndexOf(order: seq<Name>, x: Name) returns (r: Index)
    ensures match r case Missing => x !in order
                    case At(i) => i < |order| && order[i] == x && forall j :: 0 <= j < i ==> order[j] != x
  {
    for i := 0 to |order|
      invariant forall j :: 0 <= j < i ==> order[j] != x
    {
      if order[i] == x {
        return At(i);
      }
    }
    return Missing;
  }

  datatype Outcome = Done(order: seq<Name>) | CyclicInclude | NotInOrder

  /** The double loop with the assertion. */
  method Check(edges: Edges, order: seq<Name>) returns (r: Outcome)
    requires NoDuplicates(order)
    requires forall x, y :: Edge(edges, x, y) ==> y in order
    ensures r == Done(order) <==> (forall x :: x in edges && edges[x] != [] ==> x in order) && Ordered(edges, order)
    ensures r == Done(order) || r == CyclicInclude || r == NotInOrder
    ensures r == NotInOrder ==> exists x :: x in edges && edges[x] != [] && x !in order
    ensures r == CyclicInclude ==> !Ordered(edges, order)
  {
    var todo := edges.Keys;
    while todo != {}
      invariant todo <= edges.Keys
      invariant forall x, y :: x in edges && x !in todo && y in edges[x] ==> Before(order, x, y)
      decreases |todo|
    {
      var x :| x in todo;
      var ys := edges[x];
      for k := 0 to |ys|
        invariant forall j :: 0 <= j < k ==> Before(order, x, ys[j])
      {
        var i := IndexOf(order, x);
        if i.Missing? {
          return NotInOrder;
        }
        assert Edge(edges, x, ys[k]);
        var j := IndexOf(order, ys[k]);
        if i.i >= j.i {
          return CyclicInclude;
        }
      }
      todo := todo - {x};
    }
    forall i, j | 0 <= i < |order| && 0 <= j < |order| && Edge(edges, order[i], order[j])
      ensures i < j
    {
      assert Before(order, order[i], order[j]);
    }
    forall x | x in edges && edges[x] != []
      ensures x in order
    {
      assert Before(order, x, edges[x][0]);
    }
    return Done(order);
  }

  ghost predicate Before(order: seq<Name>, x: Name, y: Name) {
    exists i, j :: 0 <= i < j < |order| && order[i] == x && order[j] == y
  }

  // ---------------------------------------------------------------- the script

  lemma {:induction false} EdgeAdded(edges: Edges, m: Name, h: Name)
    ensures forall x, y :: Edge(edges[m := Includers(edges, m) + [h]], x, y) <==>
        Edge(edges, x, y) || (x == m && y == h)
  {
  }

  /** The edges from the include lines of every header. */
  method BuildEdges(headers: seq<Name>, includes: map<Name, seq<Name>>) returns (edges: Edges)
    requires forall h :: h in headers ==> h in includes
    ensures forall x, y :: Edge(edges, x, y) <==> y in headers && x in includes[y]
    ensures forall x :: x in edges ==> edges[x] != []
  {
    edges := map[];
    for k := 0 to |headers|
      invariant forall x, y :: Edge(edges, x, y) <==> y in headers[..k] && x in includes[y]
      invariant forall x :: x in edges ==> edges[x] != []
    {
      var h := headers[k];
      var ms := includes[h];
      for l := 0 to |ms|
        invariant forall x, y :: Edge(edges, x, y) <==>
            (y in headers[..k] && x in includes[y]) || (y == h && x in ms[..l])
        invariant forall x :: x in edges ==> edges[x] != []
      {
        EdgeAdded(edges, ms[l], h);
        ghost var before := edges;
        edges := edges[ms[l] := Includers(edges, ms[l]) + [h]];
        assert ms[..l + 1] == ms[..l] + [ms[l]];
        forall x, y
          ensures Edge(edges, x, y) <==> (y in headers[..k] && x in includes[y]) || (y == h && x in ms[..l + 1])
        {
          assert Edge(edges, x, y) <==> Edge(before, x, y) || (x == ms[l] && y == h);
          assert x in ms[..l + 1] <==> x in ms[..l] || x == ms[l];
        }
      }
      assert headers[..k + 1] == headers[..k] + [h];
      assert ms[..|ms|] == ms;
    }
    assert headers[..|headers|] == headers;
  }

  /** The whole script up to the writing.  When every included name is a listed header, it succeeds exactly when
      the include graph has no cycle, and then lists every header once, each included one before its includers. */
  method Merge(headers: seq<Name>, includes: map<Name, seq<Name>>) returns (r: Outcome, ghost edges: Edges)
    requires forall h :: h in headers ==> h in includes
    ensures forall x, y :: Edge(edges, x, y) <==> y in headers && x in includes[y]
    ensures r.Done? ==> NoDuplicates(r.order) && (forall x :: x in r.order <==> x in headers) && Ordered(edges, r.order)
    ensures r.Done? <==> !HasCycle(edges) && forall h, m :: h in headers && m in includes[h] ==> m in headers
    ensures (forall h, m :: h in headers && m in includes[h] ==> m in headers) ==>
        (r == CyclicInclude <==> HasCycle(edges))
  {
    var es := BuildEdges(headers, includes);
    edges := es;
    var merger := new Merger(es);
    var order := merger.VisitAll(headers);
    r := Check(es, order);
    if Ordered(edges, order) {
      OrderedHasNoCycle(edges, order);
    }
    forall x | x in edges
      ensures exists h :: h in headers && x in includes[h]
    {
      assert Edge(edges, x, edges[x][0]);
    }
    forall h, m | h in headers && m in includes[h]
      ensures m in edges && edges[m] != []
    {
      assert Edge(edges, m, h);
    }
  }
}
