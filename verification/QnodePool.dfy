/**
 The pool of queue nodes of lib/liblthread_dpdk/lthread_pool.h, used by one scheduler with every insert
 completed before the next access: an intrusive chain of nodes from tail to head that starts with a stub
 node, a one-node fast slot, and bulk allocation.
 */
module QnodePool {

  class QNode {
    var next: QNode?

    constructor ()
      ensures next == null
    {
      next := null;
    }
  }

  class Pool {
    var head: QNode
    var tail: QNode
    const stub: QNode
    var fastAlloc: QNode?
    const preAlloc: nat

    ghost var chain: seq<QNode>   // from tail to head
    ghost var made: set<QNode>    // every node ever allocated for this pool, without the stub
    ghost var inUse: set<QNode>   // the nodes handed out

    ghost predicate Linked(c: seq<QNode>)
      reads c
    {
      && (forall i :: 0 <= i < |c| - 1 ==> c[i].next == c[i + 1])
      && (c != [] ==> c[|c| - 1].next == null)
      && (forall i, j :: 0 <= i < j < |c| ==> c[i] != c[j])
    }

    lemma FirstLink(c: seq<QNode>)
      requires Linked(c) && c != []
      ensures c[0].next == if |c| == 1 then null else c[1]
    {
    }

    /** The chained nodes, oldest first: the stub, if it is still in the chain, is the first and is not one. */
    ghost function Contents(): seq<QNode>
      reads this
    {
      if chain != [] && chain[0] == stub then chain[1..] else chain
    }

    ghost predicate Valid()
      reads this, made, stub
    {
      && chain != [] && tail == chain[0] && head == chain[|chain| - 1]
      && stub !in made && (forall i :: 0 <= i < |chain| ==> chain[i] in made || chain[i] == stub)
      && Linked(chain)
      && (forall i :: 1 <= i < |chain| ==> chain[i] != stub)
      && inUse <= made && (forall n :: n in chain ==> n !in inUse)
      && (fastAlloc != null ==> fastAlloc in made && fastAlloc !in inUse && fastAlloc !in chain)
      && (forall n :: n in made ==> n in inUse || n in chain || n == fastAlloc)
    }

    /** `_qnode_pool_create`.  It leaves fast_alloc unset, with whatever the memory held there, and the pool is sound
        only if that was NULL. */
    constructor (prealloc: nat, held: QNode?)
      ensures Valid() <==> held == null
      ensures Contents() == [] && made == {} && inUse == {} && fastAlloc == held && preAlloc == prealloc
      ensures fresh(stub)
    {
      var s := new QNode();
      stub := s;
      head, tail, fastAlloc, preAlloc := s, s, held, prealloc;
      chain, made, inUse := [s], {}, {};
    }

    /** `_qnode_pool_insert` of a node that is in none of the three places. */
    method Insert(n: QNode)
      requires Valid() && n in made && n != fastAlloc && n !in chain
      modifies this`head, this`chain, this`inUse, n, head
      ensures inUse == old(inUse) - {n}
      ensures Valid() && Contents() == old(Contents()) + [n] && chain == old(chain) + [n]
    {
      n.next := null;
      var prev := head;
      head := n;
      prev.next := n;
      chain := chain + [n];
      inUse := inUse - {n};
    }

    /** `_pool_remove`.  With every insert completed, the stub is dropped when it is passed and is never put
        back: the branch that swings it needs a head that is ahead of a tail without a successor. */
    method PoolRemove() returns (r: QNode?)
      requires Valid()
      modifies this`tail, this`chain, this`inUse
      ensures (r == null) == (|old(Contents())| < 2)
      ensures r != null ==> r == old(Contents())[0] && Contents() == old(Contents())[1..] && inUse == old(inUse) + {r}
      ensures r == null ==> Contents() == old(Contents()) && inUse == old(inUse) && (tail == head || tail == stub)
      ensures Valid()
    {
      var t := tail;
      var next := t.next;
      FirstLink(chain);
      if t == stub {
        if next == null {
          return null;
        }
        tail := next;
        chain := chain[1..];
        t := next;
        next := next.next;
        FirstLink(chain);
      }
      assert t == chain[0] && t != stub && Contents() == chain == old(Contents());
      if next != null {
        tail := next;
        chain := chain[1..];
        inUse := inUse + {t};
        return t;
      }
      if t == head {
        return null;
      }
      assert false;
    }

    /** `_qnode_pool_remove`: try again while the pool looks like one with an insert under way. */
    method Remove() returns (r: QNode?)
      requires Valid()
      modifies this`tail, this`chain, this`inUse
      ensures (r == null) == (|old(Contents())| < 2)
      ensures r != null ==> r == old(Contents())[0] && Contents() == old(Contents())[1..] && inUse == old(inUse) + {r}
      ensures r == null ==> Contents() == old(Contents()) && inUse == old(inUse)
      ensures Valid()
    {
      r := null;
      var again := true;
      while again
        invariant again ==> Valid() && Contents() == old(Contents()) && inUse == old(inUse)
        invariant !again ==>
                    && Valid() && (r == null) == (|old(Contents())| < 2)
                    && (r != null ==>
                      r == old(Contents())[0] && Contents() == old(Contents())[1..] && inUse == old(inUse) + {r})
                    && (r == null ==> Contents() == old(Contents()) && inUse == old(inUse))
        decreases again
      {
        r := PoolRemove();
        again := r == null && head != tail && tail != stub;
      }
    }

    /** One allocation of a node from the system, chained at once. */
    method Grow()
      requires Valid()
      modifies this`head, this`chain, this`made, head
      ensures Valid() && inUse == old(inUse)
      ensures exists n :: n !in old(made) && fresh(n) && made == old(made) + {n} && Contents() == old(Contents()) + [n]
    {
      var n := new QNode();
      n.next := null;
      var prev := head;
      made := made + {n};
      head := n;
      prev.next := n;
      chain := chain + [n];
    }

    /** The batch of `_qnode_alloc`: preAlloc new nodes, or as many as the system still has. */
    method Refill(avail: nat) returns (complete: bool)
      requires Valid()
      modifies this`head, this`chain, this`made, made, stub
      ensures Valid() && inUse == old(inUse) && complete == (preAlloc <= avail)
      ensures made >= old(made) && fresh(made - old(made))
      ensures |Contents()| == |old(Contents())| + if complete then preAlloc else avail
      ensures old(Contents()) <= Contents()
      ensures forall k :: |old(Contents())| <= k < |Contents()| ==> Contents()[k] !in old(made)
    {
      var i := 0;
      while i < preAlloc
        invariant 0 <= i <= preAlloc && i <= avail
        invariant Valid() && made >= old(made) && fresh(made - old(made)) && inUse == old(inUse)
        invariant |Contents()| == |old(Contents())| + i && old(Contents()) <= Contents()
        invariant forall k :: |old(Contents())| <= k < |Contents()| ==> Contents()[k] !in old(made)
      {
        if i == avail {
          return false;
        }
        Grow();
        i := i + 1;
      }
      return true;
    }

    /** `_qnode_alloc`; `avail` is how many nodes the allocator of the system can still give.  `crash` says that
        the code goes on to write to the pool field of a NULL node. */
    method Alloc(avail: nat) returns (n: QNode?, crash: bool)
      requires Valid()
      modifies this, made, stub
      ensures Valid() && made >= old(made) && fresh(made - old(made))
      // the fast slot first, then the oldest chained node, then a new batch
      ensures old(fastAlloc) != null ==> n == old(fastAlloc) && made == old(made) && Contents() == old(Contents())
      ensures old(fastAlloc) == null && |old(Contents())| >= 2 ==>
                n == old(Contents())[0] && made == old(made) && Contents() == old(Contents())[1..]
      ensures old(fastAlloc) == null && |old(Contents())| < 2 && n != null ==>
                |Contents()| + 1 == |old(Contents())| + preAlloc && old(Contents()) <= [n] + Contents()
      // NULL exactly when the batch could not be completed; a crash exactly when the batch is too small
      ensures (n == null && !crash) == (old(fastAlloc) == null && |old(Contents())| < 2 && avail < preAlloc)
      ensures crash == (old(fastAlloc) == null && |old(Contents())| < 2 && avail >= preAlloc
          && |old(Contents())| + preAlloc < 2)
      ensures n != null ==> !crash && n in made && n != stub && n !in old(inUse) && inUse == old(inUse) + {n}
      ensures n == null ==> inUse == old(inUse)
      ensures fastAlloc == null
    {
      crash := false;
      if fastAlloc != null {
        n := fastAlloc;
        fastAlloc := null;
        inUse := inUse + {n};
        return;
      }
      n := Remove();
      if n == null {
        var complete := Refill(avail);
        if !complete {
          return null, false;
        }
        n := Remove();
        crash := n == null;
      }
    }

    /** `_qnode_free`; `local` says that the node's pool is the running scheduler's own. */
    method Free(n: QNode, local: bool)
      requires Valid() && n in inUse
      modifies this, n, head
      ensures Valid() && made == old(made) && inUse == old(inUse) - {n}
      ensures if old(fastAlloc) != null || !local
          then fastAlloc == old(fastAlloc) && Contents() == old(Contents()) + [n]
              else fastAlloc == n && Contents() == old(Contents())
    {
      if fastAlloc != null || !local {
        Insert(n);
        return;
      }
      fastAlloc := n;
      inUse := inUse - {n};
    }

    /** Every node made is in use, in the chain or in the fast slot, and never in two of them: the three
        counts add up, which they would not if a node were lost, or handed out twice. */
    lemma Conservation()
      requires Valid()
      ensures |made| == |inUse| + |Contents()| + if fastAlloc == null then 0 else 1
      ensures forall n :: n in made <==> n in inUse || n in Contents() || n == fastAlloc
      ensures stub !in Contents() && stub !in inUse && stub != fastAlloc
    {
      var c := Contents();
      var slot: set<QNode> := if fastAlloc == null then {} else {fastAlloc};
      assert forall n :: n in chain <==> n in c || (n == stub && chain[0] == stub);
      DistinctCount(c);
      ThreeParts(made, inUse, (set n | n in c), slot);
    }
  }

  lemma ThreeParts(all: set<QNode>, a: set<QNode>, b: set<QNode>, c: set<QNode>)
    requires forall n :: n in all <==> n in a || n in b || n in c
    requires a !! b && a !! c && b !! c
    ensures |all| == |a| + |b| + |c|
  {
    assert all == a + b + c;
  }

  lemma {:induction false} DistinctCount(c: seq<QNode>)
    requires forall i, j :: 0 <= i < j < |c| ==> c[i] != c[j]
    ensures |set n | n in c| == |c|
    decreases |c|
  {
    if c != [] {
      var rest := c[..|c| - 1];
      DistinctCount(rest);
      assert (set n | n in c) == (set n | n in rest) + {c[|c| - 1]};
    }
  }
}
