/**
 The lock-free queue of lib/liblthread_dpdk/lthread_queue.h as a transition system.

 Every access to memory shared between a producer and the consumer is one atomic step, so an insert is
 split into "exchange the head" and "link the previous node", and any number of producers may be
 parked between the two.  Nodes are recycled: a freed node may be handed out again at once, carrying
 whatever link and data the pool left in it.
 */
module MpscQueue {
  import opened Common

  type Node = nat

  /** A queued object; 0 is the NULL pointer and is never queued. */
  type Item = nat

  type Producer = nat

  /** Who may insert: several producers with the locked exchange, one producer with the plain store,
      or several producers all using the plain store (which the source forbids). */
  datatype Mode = Multi | Single(owner: Producer) | SingleMisused

  /** The producer's position inside an insert. */
  datatype ProducerPc =
    | PIdle
    | PAllocated(n: Node, item: Item)
    | PFilled(n: Node, item: Item)
    | PReadHead(n: Node, item: Item, prev: Node)   // single-producer variant only
    | PExchanged(n: Node, prev: Node)

  datatype Op = Poll | Remove

  /** The consumer's position inside a poll, or inside a remove, which polls in a loop. */
  datatype ConsumerPc =
    | CIdle
    | CStart(op: Op)
    | CHaveTail(op: Op, tail: Node)
    | CHaveNext(op: Op, tail: Node, next: Node)
    | CAdvanced(op: Op, tail: Node, next: Node)
    | CCopied(op: Op, tail: Node)
    | CFreed(op: Op, item: Item)
    | CSawNull(op: Op)

  /** `used` is the set of nodes that are not in the node pool.  `chain`, `inserted`, `removed` and
      `returned` are history: the nodes from tail to head in exchange order, the items in the order of
      the exchanges, the items in the order the tail passed them, and the non-NULL results handed out. */
  datatype State = State(
    mode: Mode,
    head: Node,
    tail: Node,
    next: map<Node, Option<Node>>,
    data: map<Node, Item>,
    used: set<Node>,
    producers: map<Producer, ProducerPc>,
    consumer: ConsumerPc,
    chain: seq<Node>,
    inserted: seq<Item>,
    removed: seq<Item>,
    returned: seq<Item>)

  datatype Step =
    | Alloc(p: Producer, n: Node, item: Item, staleNext: Option<Node>, staleData: Item)
    | Fill(p: Producer)
    | Exchange(p: Producer)
    | SpReadHead(p: Producer)
    | SpWriteHead(p: Producer)
    | Link(p: Producer)
    | Begin(op: Op)
    | ReadTail
    | ReadNext
    | Advance
    | CopyData
    | FreeNode
    | Return
    | ReturnNull
    | Retry

  function Pc(s: State, p: Producer): ProducerPc {
    if p in s.producers then s.producers[p] else PIdle
  }

  /** `_lthread_queue_create`: one stub node, head and tail on it. */
  function Init(mode: Mode, stub: Node): State {
    State(mode, stub, stub, map[stub := None], map[stub := 0], {stub}, map[], CIdle, [stub], [], [], [])
  }

  predicate MayUseExchange(m: Mode) { m == Multi }

  predicate MayUseStore(m: Mode, p: Producer) { m == Single(p) || m == SingleMisused }

  /** The node exists and its fields can be read. */
  predicate Live(s: State, n: Node) {
    n in s.used && n in s.next && n in s.data
  }

  predicate Enabled(s: State, step: Step) {
    match step
    case Alloc(p, n, item, _, _) =>
      Pc(s, p) == PIdle && n !in s.used && item != 0 && (s.mode.Single? ==> p == s.mode.owner)
    case Fill(p) => Pc(s, p).PAllocated?
    case Exchange(p) => MayUseExchange(s.mode) && Pc(s, p).PFilled?
    case SpReadHead(p) => MayUseStore(s.mode, p) && Pc(s, p).PFilled?
    case SpWriteHead(p) => Pc(s, p).PReadHead?
    case Link(p) => Pc(s, p).PExchanged?
    case Begin(_) => s.consumer == CIdle
    case ReadTail => s.consumer.CStart?
    case ReadNext => s.consumer.CHaveTail? && s.consumer.tail in s.next
    case Advance => s.consumer.CHaveNext? && s.chain != [] && s.consumer.next in s.data
    case CopyData => s.consumer.CAdvanced? && s.consumer.next in s.data
    case FreeNode => s.consumer.CCopied? && s.consumer.tail in s.data
    case Return => s.consumer.CFreed?
    // poll gives up at once; remove gives up only when it finds tail == head
    case ReturnNull => s.consumer.CSawNull? && (s.consumer.op == Remove ==> s.tail == s.head)
    case Retry => s.consumer == CSawNull(Remove) && s.tail != s.head
  }

  function At(s: State, p: Producer, pc: ProducerPc): State {
    s.(producers := s.producers[p := pc])
  }

  /** The head now is `n`; the producer still has to link `prev` to it. */
  function Publish(s: State, p: Producer, n: Node, item: Item, prev: Node): State {
    At(s, p, PExchanged(n, prev)).(head := n, chain := s.chain + [n], inserted := s.inserted + [item])
  }

  function After(s: State, step: Step): State
    requires Enabled(s, step)
  {
    match step
    case Alloc(p, n, item, staleNext, staleData) =>
      At(s, p, PAllocated(n, item)).(used := s.used + {n},
                                     next := s.next[n := staleNext],
                                     data := s.data[n := staleData])
    case Fill(p) =>
      var pc := Pc(s, p);
      At(s, p, PFilled(pc.n, pc.item)).(next := s.next[pc.n := None], data := s.data[pc.n := pc.item])
    case Exchange(p) =>
      var pc := Pc(s, p);
      Publish(s, p, pc.n, pc.item, s.head)
    case SpReadHead(p) =>
      var pc := Pc(s, p);
      At(s, p, PReadHead(pc.n, pc.item, s.head))
    case SpWriteHead(p) =>
      var pc := Pc(s, p);
      Publish(s, p, pc.n, pc.item, pc.prev)
    case Link(p) =>
      var pc := Pc(s, p);
      At(s, p, PIdle).(next := s.next[pc.prev := Some(pc.n)])
    case Begin(op) => s.(consumer := CStart(op))
    case ReadTail => s.(consumer := CHaveTail(s.consumer.op, s.tail))
    case ReadNext =>
      s.(consumer := match s.next[s.consumer.tail]
                     case None => CSawNull(s.consumer.op)
                     case Some(n) => CHaveNext(s.consumer.op, s.consumer.tail, n))
    case Advance =>
      s.(tail := s.consumer.next,
         chain := s.chain[1..],
         removed := s.removed + [s.data[s.consumer.next]],
         consumer := CAdvanced(s.consumer.op, s.consumer.tail, s.consumer.next))
    case CopyData =>
      s.(data := s.data[s.consumer.tail := s.data[s.consumer.next]],
         consumer := CCopied(s.consumer.op, s.consumer.tail))
    case FreeNode =>
      s.(used := s.used - {s.consumer.tail},
         consumer := CFreed(s.consumer.op, s.data[s.consumer.tail]))
    case Return => s.(consumer := CIdle, returned := s.returned + [s.consumer.item])
    case ReturnNull => s.(consumer := CIdle)
    case Retry => s.(consumer := CStart(Remove))
  }

  /** The state after a whole run, if every step of it could be taken. */
  function Run(s: State, steps: seq<Step>): Option<State>
    decreases |steps|
  {
    if steps == [] then Some(s)
    else if Enabled(s, steps[0]) then Run(After(s, steps[0]), steps[1..])
    else None
  }

  // ---------------------------------------------------------------------------------------------
  // The invariant

  /** The abstract queue: what the nodes behind the stub hold. */
  function Contents(s: State): seq<Item> {
    seq(if |s.chain| == 0 then 0 else |s.chain| - 1,
        i requires 0 <= i < |s.chain| - 1 => if s.chain[i + 1] in s.data then s.data[s.chain[i + 1]] else 0)
  }

  predicate Private(pc: ProducerPc) { pc.PAllocated? || pc.PFilled? || pc.PReadHead? }

  /** Producer `p` has put chain[i+1] at the head but not yet linked chain[i] to it. */
  predicate Pending(s: State, p: Producer, i: nat) {
    i + 1 < |s.chain| && Pc(s, p) == PExchanged(s.chain[i + 1], s.chain[i])
  }

  predicate Linked(s: State, i: nat) {
    i + 1 < |s.chain| && s.chain[i] in s.next && s.next[s.chain[i]] == Some(s.chain[i + 1])
  }

  predicate Unlinked(s: State, n: Node) { n in s.next && s.next[n] == None }

  /** The link behind chain[i] is there, or exactly one producer is still to write it. */
  ghost predicate LinkOk(s: State, i: nat)
    requires i < |s.chain|
  {
    Linked(s, i) || (Unlinked(s, s.chain[i]) && exists p :: Pending(s, p, i))
  }

  ghost predicate ChainShape(s: State) {
    && |s.chain| >= 1
    && s.tail == s.chain[0]
    && s.head == s.chain[|s.chain| - 1]
    && (forall i :: 0 <= i < |s.chain| ==> Live(s, s.chain[i]))
    && (forall i, j :: 0 <= i < j < |s.chain| ==> s.chain[i] != s.chain[j])
    && Unlinked(s, s.head)
    && (forall i :: 1 <= i < |s.chain| ==> s.data[s.chain[i]] != 0)
  }

  ghost predicate ChainInv(s: State) {
    && ChainShape(s)
    && forall i :: 0 <= i < |s.chain| - 1 ==> LinkOk(s, i)
  }

  /** Where an insert that is at `pc` may stand. */
  ghost predicate ProducerOk(s: State, p: Producer) {
    match Pc(s, p)
    case PIdle => true
    case PAllocated(n, item) => Live(s, n) && n !in s.chain && item != 0
    case PFilled(n, item) => Live(s, n) && n !in s.chain && item != 0 && s.data[n] == item && Unlinked(s, n)
    case PReadHead(n, item, prev) =>
      && Live(s, n) && n !in s.chain && item != 0 && s.data[n] == item && Unlinked(s, n)
      && prev == s.head && s.mode == Single(p)
    case PExchanged(n, prev) =>
      exists i: nat {:trigger Pending(s, p, i)} :: Pending(s, p, i) && Unlinked(s, prev)
  }

  ghost predicate ProducersInv(s: State) {
    && (forall p :: ProducerOk(s, p))
    && (forall p, q :: p != q && !Pc(s, p).PIdle? && !Pc(s, q).PIdle? ==> Pc(s, p).n != Pc(s, q).n)
    && (s.mode.Single? ==> forall p :: p != s.mode.owner ==> Pc(s, p) == PIdle)
  }

  /** The consumer has taken a node off the chain and not yet given it back to the pool. */
  predicate Holding(c: ConsumerPc) { c.CAdvanced? || c.CCopied? }

  ghost predicate ConsumerInv(s: State) {
    && (s.consumer.CHaveTail? ==> s.consumer.tail == s.tail)
    && (s.consumer.CHaveNext? ==>
          s.consumer.tail == s.tail && |s.chain| >= 2 && s.consumer.next == s.chain[1] && Linked(s, 0))
    && (Holding(s.consumer) ==>
          && Live(s, s.consumer.tail) && s.consumer.tail !in s.chain
          && forall p :: !Pc(s, p).PIdle? ==> Pc(s, p).n != s.consumer.tail)
    && (s.consumer.CAdvanced? ==> s.consumer.next == s.tail && s.removed != [] && Live(s, s.tail)
                                  && s.data[s.tail] == s.removed[|s.removed| - 1])
    && (s.consumer.CCopied? ==> s.removed != [] && Live(s, s.consumer.tail)
                                && s.data[s.consumer.tail] == s.removed[|s.removed| - 1])
    && (s.consumer.CFreed? ==> s.removed != [] && s.consumer.item == s.removed[|s.removed| - 1])
  }

  /** The item the consumer has taken off the chain and not yet handed to its caller. */
  function InFlight(s: State): seq<Item> {
    if (s.consumer.CAdvanced? || s.consumer.CCopied? || s.consumer.CFreed?) && s.removed != []
    then [s.removed[|s.removed| - 1]] else []
  }

  ghost predicate HistoryInv(s: State) {
    && s.inserted == s.removed + Contents(s)
    && s.removed == s.returned + InFlight(s)
  }

  ghost predicate Inv(s: State) {
    s.mode != SingleMisused && ChainInv(s) && ProducersInv(s) && ConsumerInv(s) && HistoryInv(s)
  }

  // ---------------------------------------------------------------------------------------------
  // Every step keeps the invariant

  lemma InitInv(mode: Mode, stub: Node)
    requires mode != SingleMisused
    ensures Inv(Init(mode, stub))
  {
  }

  /** A step that keeps the chain, its links and the pending inserts keeps the link structure. */
  lemma KeepPending(s: State, t: State)
    requires ChainInv(s) && t.chain == s.chain
    requires forall i :: 0 <= i < |s.chain| ==> s.chain[i] in t.next && s.next[s.chain[i]] == t.next[s.chain[i]]
    requires forall p :: Pc(s, p).PExchanged? ==> Pc(t, p) == Pc(s, p)
    ensures forall i :: 0 <= i < |t.chain| - 1 ==> LinkOk(t, i)
  {
    forall i | 0 <= i < |t.chain| - 1
      ensures LinkOk(t, i)
    {
      assert LinkOk(s, i);
      if !Linked(s, i) {
        var p :| Pending(s, p, i);
        assert Pending(t, p, i);
      }
    }
  }

  /** An insert the step does not touch stays where it was. */
  lemma KeepProducer(s: State, t: State, q: Producer)
    requires ProducerOk(s, q) && Pc(t, q) == Pc(s, q) && t.mode == s.mode
    requires !Pc(s, q).PIdle? ==> Live(t, Pc(s, q).n) && (Pc(s, q).n in s.chain <==> Pc(s, q).n in t.chain)
    requires !Pc(s, q).PIdle? && Live(s, Pc(s, q).n) ==>
               t.data[Pc(s, q).n] == s.data[Pc(s, q).n] && t.next[Pc(s, q).n] == s.next[Pc(s, q).n]
    requires Pc(s, q).PReadHead? ==> t.head == s.head
    requires s.chain <= t.chain
    requires forall i :: 0 <= i < |s.chain| ==>
        s.chain[i] in s.next && s.chain[i] in t.next && t.next[s.chain[i]] == s.next[s.chain[i]]
    ensures ProducerOk(t, q)
  {
    if Pc(s, q).PExchanged? {
      var i: nat :| Pending(s, q, i) && Unlinked(s, Pc(s, q).prev);
      assert Pending(t, q, i);
    }
  }

  lemma AllocInv(s: State, step: Step)
    requires Inv(s) && Enabled(s, step) && step.Alloc?
    ensures Inv(After(s, step))
  {
    var t := After(s, step);
    assert forall q :: q != step.p ==> Pc(t, q) == Pc(s, q);
    assert step.n !in s.chain;
    assert ProducersInv(t) by {
      forall q ensures ProducerOk(t, q) {
        assert ProducerOk(s, q);
        if q != step.p { KeepProducer(s, t, q); }
      }
      forall q | !Pc(s, q).PIdle? ensures Pc(s, q).n != step.n { assert ProducerOk(s, q); }
    }
    assert ChainInv(t) by { KeepPending(s, t); }
    assert Contents(t) == Contents(s);
  }

  lemma FillInv(s: State, step: Step)
    requires Inv(s) && Enabled(s, step) && step.Fill?
    ensures Inv(After(s, step))
  {
    var t := After(s, step);
    assert ProducerOk(s, step.p);
    assert forall q :: q != step.p ==> Pc(t, q) == Pc(s, q);
    assert ProducersInv(t) by {
      forall q ensures ProducerOk(t, q) {
        assert ProducerOk(s, q);
        if q != step.p { KeepProducer(s, t, q); }
      }
    }
    assert ChainInv(t) by { KeepPending(s, t); }
    assert Contents(t) == Contents(s);
    assert ConsumerInv(t);
  }

  lemma ReadHeadInv(s: State, step: Step)
    requires Inv(s) && Enabled(s, step) && step.SpReadHead?
    ensures Inv(After(s, step))
  {
    var t := After(s, step);
    assert ProducerOk(s, step.p);
    assert forall q :: q != step.p ==> Pc(t, q) == Pc(s, q);
    assert ProducersInv(t) by {
      forall q ensures ProducerOk(t, q) {
        assert ProducerOk(s, q);
        if q != step.p { KeepProducer(s, t, q); }
      }
    }
    assert ChainInv(t) by { KeepPending(s, t); }
    assert Contents(t) == Contents(s);
  }

  /** A new head behind the one the producer has seen leaves every link in place or due. */
  lemma PublishChain(s: State, p: Producer, n: Node, item: Item, t: State)
    requires ChainInv(s) && Private(Pc(s, p)) && t == Publish(s, p, n, item, s.head)
    requires Live(s, n) && n !in s.chain && item != 0 && s.data[n] == item && Unlinked(s, n)
    ensures ChainInv(t) && Contents(t) == Contents(s) + [item]
  {
    assert forall q :: q != p ==> Pc(t, q) == Pc(s, q);
    forall i | 0 <= i < |t.chain| - 1
      ensures LinkOk(t, i)
    {
      if i == |s.chain| - 1 {
        assert Pending(t, p, i);
      } else if !Linked(s, i) {
        assert LinkOk(s, i);
        var q :| Pending(s, q, i);
        assert Pending(t, q, i);
      }
    }
    assert Contents(t) == Contents(s) + [item];
  }

  /** The linearization point of an insert. */
  lemma PublishInv(s: State, p: Producer, n: Node, item: Item)
    requires Inv(s) && Private(Pc(s, p)) && Pc(s, p).n == n
    requires Live(s, n) && n !in s.chain && item != 0 && s.data[n] == item && Unlinked(s, n)
    requires s.mode.Single? ==> s.mode.owner == p
    ensures Inv(Publish(s, p, n, item, s.head))
    ensures Contents(Publish(s, p, n, item, s.head)) == Contents(s) + [item]
  {
    var t := Publish(s, p, n, item, s.head);
    assert forall q :: q != p ==> Pc(t, q) == Pc(s, q);
    assert Pending(t, p, |s.chain| - 1);
    PublishChain(s, p, n, item, t);
    assert ProducersInv(t) by {
      forall q ensures ProducerOk(t, q) {
        assert ProducerOk(s, q);
        if q != p { KeepProducer(s, t, q); }
      }
    }
  }

  lemma ExchangeInv(s: State, step: Step)
    requires Inv(s) && Enabled(s, step) && (step.Exchange? || step.SpWriteHead?)
    ensures Inv(After(s, step))
    ensures Contents(After(s, step)) == Contents(s) + [Pc(s, step.p).item]
  {
    assert ProducerOk(s, step.p);
    PublishInv(s, step.p, Pc(s, step.p).n, Pc(s, step.p).item);
  }

  lemma LinkChain(s: State, p: Producer, k: nat, t: State)
    requires Inv(s) && Pending(s, p, k) && Unlinked(s, Pc(s, p).prev) && t == After(s, Link(p))
    ensures ChainInv(t) && Contents(t) == Contents(s)
  {
    assert forall q :: q != p ==> Pc(t, q) == Pc(s, q);
    forall i | 0 <= i < |t.chain| - 1 ensures LinkOk(t, i) {
      assert LinkOk(s, i);
      if i == k {
        assert Linked(t, k);
      } else if !Linked(s, i) {
        var q :| Pending(s, q, i);
        assert Pending(t, q, i);
      }
    }
    assert Contents(t) == Contents(s);
  }

  lemma LinkProducers(s: State, p: Producer, k: nat, t: State)
    requires Inv(s) && Pending(s, p, k) && t == After(s, Link(p))
    ensures ProducersInv(t)
  {
    assert forall q :: q != p ==> Pc(t, q) == Pc(s, q);
    forall q ensures ProducerOk(t, q) {
      assert ProducerOk(s, q);
      if q != p && Pc(s, q).PExchanged? {
        var i: nat :| Pending(s, q, i) && Unlinked(s, Pc(s, q).prev);
        assert i != k;
        assert Pending(t, q, i);
      }
    }
  }

  lemma LinkInv(s: State, step: Step)
    requires Inv(s) && Enabled(s, step) && step.Link?
    ensures Inv(After(s, step))
    ensures Contents(After(s, step)) == Contents(s)
  {
    assert ProducerOk(s, step.p);
    var k: nat :| Pending(s, step.p, k) && Unlinked(s, Pc(s, step.p).prev);
    var t := After(s, step);
    assert forall q :: q != step.p ==> Pc(t, q) == Pc(s, q);
    LinkChain(s, step.p, k, t);
    LinkProducers(s, step.p, k, t);
  }

  /** Steps that only read, or only move the consumer's position. */
  lemma ReadInv(s: State, step: Step)
    requires Inv(s) && Enabled(s, step)
    requires step.Begin? || step.ReadTail? || step.ReadNext? || step.Return? || step.ReturnNull? || step.Retry?
    ensures Inv(After(s, step))
    ensures Contents(After(s, step)) == Contents(s)
  {
    var t := After(s, step);
    assert forall q :: Pc(t, q) == Pc(s, q);
    assert ProducersInv(t) by {
      forall q ensures ProducerOk(t, q) { assert ProducerOk(s, q); KeepProducer(s, t, q); }
    }
    assert ChainInv(t) by { KeepPending(s, t); }
    assert Contents(t) == Contents(s);
    if step.ReadNext? && s.next[s.tail].Some? {
      assert |s.chain| >= 2;
      assert LinkOk(s, 0);
      assert Linked(t, 0);
    }
  }

  lemma AdvanceProducers(s: State, t: State)
    requires Inv(s) && Enabled(s, Advance) && t == After(s, Advance)
    ensures forall q :: ProducerOk(t, q) && (!Pc(t, q).PIdle? ==> Pc(t, q).n != s.chain[0])
  {
    assert forall q :: Pc(t, q) == Pc(s, q);
    forall q ensures ProducerOk(t, q) && (!Pc(t, q).PIdle? ==> Pc(t, q).n != s.chain[0]) {
      assert ProducerOk(s, q);
      if Pc(s, q).PExchanged? {
        var i: nat :| Pending(s, q, i) && Unlinked(s, Pc(s, q).prev);
        assert i != 0;
        assert Pending(t, q, i - 1);
      }
    }
  }

  lemma AdvanceChain(s: State, t: State)
    requires Inv(s) && Enabled(s, Advance) && t == After(s, Advance)
    ensures ChainInv(t)
  {
    assert forall q :: Pc(t, q) == Pc(s, q);
    assert s.chain[1..][|s.chain| - 2] == s.head;
    forall i | 0 <= i < |t.chain| - 1 ensures LinkOk(t, i) {
      assert LinkOk(s, i + 1);
      if !Linked(s, i + 1) {
        var q :| Pending(s, q, i + 1);
        assert Pending(t, q, i);
      }
    }
  }

  /** The linearization point of a removal. */
  lemma AdvanceInv(s: State, step: Step)
    requires Inv(s) && Enabled(s, step) && step.Advance?
    ensures Inv(After(s, step))
    ensures Contents(s) != [] && Contents(After(s, step)) == Contents(s)[1..]
    ensures After(s, step).removed == s.removed + [Contents(s)[0]]
  {
    var t := After(s, step);
    assert forall q :: Pc(t, q) == Pc(s, q);
    AdvanceProducers(s, t);
    AdvanceChain(s, t);
    assert Contents(t) == Contents(s)[1..];
    assert Contents(s) == [Contents(s)[0]] + Contents(s)[1..];
  }

  lemma CopyInv(s: State, step: Step)
    requires Inv(s) && Enabled(s, step) && step.CopyData?
    ensures Inv(After(s, step))
    ensures Contents(After(s, step)) == Contents(s)
  {
    var t := After(s, step);
    assert forall q :: Pc(t, q) == Pc(s, q);
    assert ProducersInv(t) by {
      forall q ensures ProducerOk(t, q) { assert ProducerOk(s, q); KeepProducer(s, t, q); }
    }
    assert ChainInv(t) by { KeepPending(s, t); }
    assert Contents(t) == Contents(s);
  }

  lemma FreeInv(s: State, step: Step)
    requires Inv(s) && Enabled(s, step) && step.FreeNode?
    ensures Inv(After(s, step))
    ensures Contents(After(s, step)) == Contents(s)
  {
    var t := After(s, step);
    assert forall q :: Pc(t, q) == Pc(s, q);
    assert ProducersInv(t) by {
      forall q ensures ProducerOk(t, q) {
        assert ProducerOk(s, q);
        KeepProducer(s, t, q);
      }
    }
    assert ChainInv(t) by { KeepPending(s, t); }
    assert Contents(t) == Contents(s);
  }

  lemma StepInv(s: State, step: Step)
    requires Inv(s) && Enabled(s, step)
    ensures Inv(After(s, step))
  {
    match step
    case Alloc(_, _, _, _, _) => AllocInv(s, step);
    case Fill(_) => FillInv(s, step);
    case Exchange(_) => ExchangeInv(s, step);
    case SpReadHead(_) => ReadHeadInv(s, step);
    case SpWriteHead(_) => ExchangeInv(s, step);
    case Link(_) => LinkInv(s, step);
    case Advance => AdvanceInv(s, step);
    case CopyData => CopyInv(s, step);
    case FreeNode => FreeInv(s, step);
    case _ => ReadInv(s, step);
  }

  lemma {:induction false} RunInv(s: State, steps: seq<Step>)
    requires Inv(s) && Run(s, steps).Some?
    ensures Inv(Run(s, steps).value)
    decreases |steps|
  {
    if steps != [] {
      StepInv(s, steps[0]);
      RunInv(After(s, steps[0]), steps[1..]);
    }
  }

  // ---------------------------------------------------------------------------------------------
  // Main results

  /** Seen through Contents, every step is one step of an atomic FIFO: an enqueue at the exchange, a
      dequeue when the tail moves, and nothing otherwise. */
  lemma StepRefinesFifo(s: State, step: Step)
    requires Inv(s) && Enabled(s, step)
    ensures match step
            case Exchange(p) => Contents(After(s, step)) == Contents(s) + [Pc(s, p).item]
            case SpWriteHead(p) => Contents(After(s, step)) == Contents(s) + [Pc(s, p).item]
            case Advance => exists x :: Contents(s) == [x] + Contents(After(s, step))
            case _ => Contents(After(s, step)) == Contents(s)
  {
    match step
    case Alloc(p, n, _, _, _) =>
      assert forall i :: 0 <= i < |s.chain| ==> s.chain[i] != n;
      assert Contents(After(s, step)) == Contents(s);
    case Fill(p) =>
      assert ProducerOk(s, p);
      assert Contents(After(s, step)) == Contents(s);
    case Exchange(_) => ExchangeInv(s, step);
    case SpWriteHead(_) => ExchangeInv(s, step);
    case SpReadHead(_) => assert Contents(After(s, step)) == Contents(s);
    case Link(_) => LinkInv(s, step);
    case Advance =>
      AdvanceInv(s, step);
      assert Contents(s) == [Contents(s)[0]] + Contents(After(s, step));
    case CopyData => CopyInv(s, step);
    case FreeNode => FreeInv(s, step);
    case _ => ReadInv(s, step);
  }

  /** In every run the results handed out so far, the one in flight and the queued items are together
      exactly the inserted items, in the order of the exchanges. */
  lemma NothingLostOrReordered(mode: Mode, stub: Node, steps: seq<Step>)
    requires mode != SingleMisused && Run(Init(mode, stub), steps).Some?
    ensures var s := Run(Init(mode, stub), steps).value;
            s.inserted == s.returned + InFlight(s) + Contents(s)
  {
    InitInv(mode, stub);
    RunInv(Init(mode, stub), steps);
  }

  /** `_lthread_queue_remove` gives up only when the abstract queue is empty at its check. */
  lemma RemoveNullOnlyWhenEmpty(mode: Mode, stub: Node, steps: seq<Step>)
    requires mode != SingleMisused && Run(Init(mode, stub), steps).Some?
    ensures var s := Run(Init(mode, stub), steps).value;
            s.consumer == CSawNull(Remove) ==> (Enabled(s, ReturnNull) <==> Contents(s) == [])
  {
    InitInv(mode, stub);
    RunInv(Init(mode, stub), steps);
    var s := Run(Init(mode, stub), steps).value;
    if |s.chain| > 1 { assert s.chain[0] != s.chain[|s.chain| - 1]; }
  }

  /** `_lthread_queue_poll` finds nothing exactly when the queue is empty or the producer of its first
      item has exchanged the head but not yet linked the item. */
  lemma PollNullIffEmptyOrUnlinked(mode: Mode, stub: Node, steps: seq<Step>)
    requires mode != SingleMisused && Run(Init(mode, stub), steps).Some?
    ensures var s := Run(Init(mode, stub), steps).value;
            s.consumer.CHaveTail? ==>
              Enabled(s, ReadNext) &&
              (After(s, ReadNext).consumer.CSawNull? <==> Contents(s) == [] || exists p :: Pending(s, p, 0))
  {
    InitInv(mode, stub);
    RunInv(Init(mode, stub), steps);
    var s := Run(Init(mode, stub), steps).value;
    if |s.chain| > 1 {
      assert LinkOk(s, 0);
      forall p | Pending(s, p, 0) ensures !Linked(s, 0) { assert ProducerOk(s, p); }
    }
  }

  /** The node the consumer frees is off the chain, and no producer still has to write to it: it is
      neither the node of an unfinished insert nor the node such an insert has to link from. */
  lemma FreedNodeIsUnreferenced(mode: Mode, stub: Node, steps: seq<Step>)
    requires mode != SingleMisused && Run(Init(mode, stub), steps).Some?
    ensures var s := Run(Init(mode, stub), steps).value;
            Enabled(s, FreeNode) ==>
              && s.consumer.tail in s.used && s.consumer.tail !in s.chain
              && forall p :: !Pc(s, p).PIdle? ==>
                   && Pc(s, p).n != s.consumer.tail
                   && ((Pc(s, p).PExchanged? || Pc(s, p).PReadHead?) ==> Pc(s, p).prev != s.consumer.tail)
  {
    InitInv(mode, stub);
    RunInv(Init(mode, stub), steps);
    var s := Run(Init(mode, stub), steps).value;
    if Enabled(s, FreeNode) {
      forall p | Pc(s, p).PExchanged? || Pc(s, p).PReadHead? ensures Pc(s, p).prev in s.chain {
        assert ProducerOk(s, p);
      }
    }
  }

  /** The nodes whose fields a step reads or writes. */
  function Touches(s: State, step: Step): set<Node> {
    match step
    case Fill(p) => if Pc(s, p).PAllocated? then {Pc(s, p).n} else {}
    case Link(p) => if Pc(s, p).PExchanged? then {Pc(s, p).prev} else {}
    case ReadNext => if s.consumer.CHaveTail? then {s.consumer.tail} else {}
    case Advance => if s.consumer.CHaveNext? then {s.consumer.next} else {}
    case CopyData => if s.consumer.CAdvanced? then {s.consumer.tail, s.consumer.next} else {}
    case FreeNode => if s.consumer.CCopied? then {s.consumer.tail} else {}
    case _ => {}
  }

  /** No step ever touches a node that is in the pool, however the nodes are recycled. */
  lemma NoAccessAfterFree(mode: Mode, stub: Node, steps: seq<Step>, step: Step)
    requires mode != SingleMisused && Run(Init(mode, stub), steps).Some?
    requires Enabled(Run(Init(mode, stub), steps).value, step)
    ensures Touches(Run(Init(mode, stub), steps).value, step) <= Run(Init(mode, stub), steps).value.used
  {
    InitInv(mode, stub);
    RunInv(Init(mode, stub), steps);
    var s := Run(Init(mode, stub), steps).value;
    if step.Fill? || step.Link? { assert ProducerOk(s, step.p); }
  }

  /** The consumer's next step, from wherever it stands inside an operation. */
  function ConsumerStep(s: State): Step
    requires !s.consumer.CIdle?
  {
    match s.consumer
    case CStart(_) => ReadTail
    case CHaveTail(_, _) => ReadNext
    case CHaveNext(_, _, _) => Advance
    case CAdvanced(_, _, _) => CopyData
    case CCopied(_, _) => FreeNode
    case CFreed(_, _) => Return
    case CSawNull(op) => if op == Remove && s.tail != s.head then Retry else ReturnNull
  }

  function ProducerStep(s: State, p: Producer): Step
    requires !Pc(s, p).PIdle?
  {
    match Pc(s, p)
    case PAllocated(_, _) => Fill(p)
    case PFilled(_, _) => if s.mode.Multi? then Exchange(p) else SpReadHead(p)
    case PReadHead(_, _, _) => SpWriteHead(p)
    case PExchanged(_, _) => Link(p)
  }

  /** Nobody ever has to wait: whoever is inside an operation can take its next step at once. */
  lemma NobodyIsBlocked(mode: Mode, stub: Node, steps: seq<Step>)
    requires mode != SingleMisused && Run(Init(mode, stub), steps).Some?
    ensures var s := Run(Init(mode, stub), steps).value;
            && (!s.consumer.CIdle? ==> Enabled(s, ConsumerStep(s)))
            && (forall p :: !Pc(s, p).PIdle? ==> Enabled(s, ProducerStep(s, p)))
  {
    InitInv(mode, stub);
    RunInv(Init(mode, stub), steps);
    var s := Run(Init(mode, stub), steps).value;
    ModeIsFixed(Init(mode, stub), steps);
    forall p | !Pc(s, p).PIdle? ensures Enabled(s, ProducerStep(s, p)) {
      assert ProducerOk(s, p);
    }
  }

  lemma {:induction false} ModeIsFixed(s: State, steps: seq<Step>)
    requires Run(s, steps).Some?
    ensures Run(s, steps).value.mode == s.mode
    decreases |steps|
  {
    if steps != [] { ModeIsFixed(After(s, steps[0]), steps[1..]); }
  }

  // ---------------------------------------------------------------------------------------------
  // The plain store is safe for one producer only

  /** Producer `p` has read the head and is about to store its own node, which is ready and nobody else's. */
  ghost predicate AboutToStore(s: State, p: Producer) {
    && Pc(s, p).PReadHead? && Pc(s, p).item != 0
    && Live(s, Pc(s, p).n) && Pc(s, p).n !in s.chain && s.data[Pc(s, p).n] == Pc(s, p).item && Unlinked(s, Pc(s, p).n)
    && forall q :: q != p && !Pc(s, q).PIdle? ==> Pc(s, q).n != Pc(s, p).n
  }

  /** The chain leads from the tail to the head over links that are written or due, and what it holds is what was
      inserted and not yet removed. */
  ghost predicate Sound(s: State) { ChainInv(s) && s.inserted == s.removed + Contents(s) }

  /** However many producers use the plain store, one of them keeps the queue sound exactly when the head is still the
      one it read: otherwise nobody will ever link the head it overwrites. */
  lemma StoreIsSoundIff(s: State, p: Producer)
    requires Sound(s) && AboutToStore(s, p)
    ensures Sound(After(s, SpWriteHead(p))) <==> s.head == Pc(s, p).prev
  {
    var t, n, last := After(s, SpWriteHead(p)), Pc(s, p).n, |s.chain| - 1;
    if s.head == Pc(s, p).prev {
      PublishChain(s, p, n, Pc(s, p).item, t);
    } else {
      assert forall q :: q != p ==> Pc(t, q) == Pc(s, q);
      assert t.chain[last] == s.head && t.chain[last + 1] == n;
      assert !LinkOk(t, last);
    }
  }

  lemma {:induction false} RunThen(s: State, steps: seq<Step>, t: State, step: Step)
    requires Run(s, steps) == Some(t) && Enabled(t, step)
    ensures Run(s, steps + [step]) == Some(After(t, step))
    decreases |steps|
  {
    if steps == [] {
      assert Run(After(s, step), []) == Some(After(s, step));
      assert ([] + [step])[1..] == [];
    } else {
      RunThen(After(s, steps[0]), steps[1..], t, step);
      assert (steps + [step])[1..] == steps[1..] + [step];
    }
  }

  lemma Extend(start: State, steps: seq<Step>, s: State, step: Step) returns (steps': seq<Step>, s': State)
    requires Run(start, steps) == Some(s) && Enabled(s, step)
    ensures s' == After(s, step) && Run(start, steps') == Some(s')
  {
    RunThen(start, steps, s, step);
    steps', s' := steps + [step], After(s, step);
  }

  /** Both producers have read the same head, and neither has written it. */
  function BothReadHead(): State {
    State(SingleMisused, 0, 0, map[0 := None, 1 := None, 2 := None], map[0 := 0, 1 := 7, 2 := 8], {0, 1, 2},
          map[0 := PReadHead(1, 7, 0), 1 := PReadHead(2, 8, 0)], CIdle, [0], [], [], [])
  }

  /** Both inserts are finished; the stub leads straight to the second node. */
  function BothInserted(): State {
    State(SingleMisused, 2, 0, map[0 := Some(2), 1 := None, 2 := None], map[0 := 0, 1 := 7, 2 := 8], {0, 1, 2},
          map[0 := PIdle, 1 := PIdle], CIdle, [0, 1, 2], [7, 8], [], [])
  }

  /** The consumer has taken the second item. */
  function SecondTaken(): State {
    BothInserted().(tail := 2, chain := [1, 2], data := map[0 := 8, 1 := 7, 2 := 8], used := {1, 2},
                    removed := [8], returned := [8])
  }

  function OneReadHead(): State {
    State(SingleMisused, 0, 0, map[0 := None, 1 := None], map[0 := 0, 1 := 7], {0, 1},
          map[0 := PReadHead(1, 7, 0)], CIdle, [0], [], [], [])
  }

  function BothWroteHead(): State {
    BothReadHead().(head := 2, producers := map[0 := PExchanged(1, 0), 1 := PExchanged(2, 0)],
                    chain := [0, 1, 2], inserted := [7, 8])
  }

  lemma OnePreparedStore() returns (steps: seq<Step>)
    ensures Run(Init(SingleMisused, 0), steps) == Some(OneReadHead())
  {
    var s := Init(SingleMisused, 0);
    steps, s := Extend(s, [], s, Alloc(0, 1, 7, None, 0));
    steps, s := Extend(Init(SingleMisused, 0), steps, s, Fill(0));
    steps, s := Extend(Init(SingleMisused, 0), steps, s, SpReadHead(0));
    assert s == OneReadHead();
  }

  lemma TwoPreparedStores() returns (steps: seq<Step>)
    ensures Run(Init(SingleMisused, 0), steps) == Some(BothReadHead())
  {
    var s := OneReadHead();
    steps := OnePreparedStore();
    steps, s := Extend(Init(SingleMisused, 0), steps, s, Alloc(1, 2, 8, None, 0));
    steps, s := Extend(Init(SingleMisused, 0), steps, s, Fill(1));
    steps, s := Extend(Init(SingleMisused, 0), steps, s, SpReadHead(1));
    assert s == BothReadHead();
  }

  lemma TwoWrittenHeads() returns (steps: seq<Step>)
    ensures Run(Init(SingleMisused, 0), steps) == Some(BothWroteHead())
  {
    var s := BothReadHead();
    steps := TwoPreparedStores();
    steps, s := Extend(Init(SingleMisused, 0), steps, s, SpWriteHead(0));
    steps, s := Extend(Init(SingleMisused, 0), steps, s, SpWriteHead(1));
    assert s == BothWroteHead();
  }

  lemma TwoInterleavedStores() returns (steps: seq<Step>)
    ensures Run(Init(SingleMisused, 0), steps) == Some(BothInserted())
  {
    var s := BothWroteHead();
    steps := TwoWrittenHeads();
    steps, s := Extend(Init(SingleMisused, 0), steps, s, Link(0));
    steps, s := Extend(Init(SingleMisused, 0), steps, s, Link(1));
    assert s == BothInserted();
  }

  function SecondReached(): State {
    BothInserted().(tail := 2, chain := [1, 2], removed := [8], consumer := CAdvanced(Remove, 0, 2))
  }

  lemma TailPassesFirstItem() returns (steps: seq<Step>)
    ensures Run(Init(SingleMisused, 0), steps) == Some(SecondReached())
  {
    var s := BothInserted();
    steps := TwoInterleavedStores();
    steps, s := Extend(Init(SingleMisused, 0), steps, s, Begin(Remove));
    steps, s := Extend(Init(SingleMisused, 0), steps, s, ReadTail);
    steps, s := Extend(Init(SingleMisused, 0), steps, s, ReadNext);
    steps, s := Extend(Init(SingleMisused, 0), steps, s, Advance);
    assert s == SecondReached();
  }

  function SecondCopied(): State {
    SecondReached().(data := map[0 := 8, 1 := 7, 2 := 8], consumer := CCopied(Remove, 0))
  }

  lemma SecondItemCopied() returns (steps: seq<Step>)
    ensures Run(Init(SingleMisused, 0), steps) == Some(SecondCopied())
  {
    var s := SecondReached();
    steps := TailPassesFirstItem();
    steps, s := Extend(Init(SingleMisused, 0), steps, s, CopyData);
    assert s == SecondCopied();
  }

  function SecondFreed(): State {
    SecondCopied().(used := {1, 2}, consumer := CFreed(Remove, 8))
  }

  lemma SecondItemFreed() returns (steps: seq<Step>)
    ensures Run(Init(SingleMisused, 0), steps) == Some(SecondFreed())
  {
    var s := SecondCopied();
    steps := SecondItemCopied();
    steps, s := Extend(Init(SingleMisused, 0), steps, s, FreeNode);
    assert s == SecondFreed();
  }

  lemma SecondItemComesFirst() returns (steps: seq<Step>)
    ensures Run(Init(SingleMisused, 0), steps) == Some(SecondTaken())
  {
    var s := SecondFreed();
    steps := SecondItemFreed();
    steps, s := Extend(Init(SingleMisused, 0), steps, s, Return);
    assert s == SecondTaken();
  }

  /** Two producers that both use `_lthread_queue_insert_sp`, interleaved between the read and the
      write of the head: both inserts finish, the consumer drains the queue, and one item is gone. */
  lemma TwoStoringProducersLoseAnItem() returns (steps: seq<Step>, s: State)
    ensures Run(Init(SingleMisused, 0), steps) == Some(s)
    ensures forall p :: Pc(s, p).PIdle?
    ensures s.consumer == CSawNull(Remove) && Enabled(s, ReturnNull)
    ensures s.inserted == [7, 8] && s.returned == [8]
  {
    var start := Init(SingleMisused, 0);
    s := SecondTaken();
    steps := SecondItemComesFirst();
    steps, s := Extend(start, steps, s, Begin(Remove));
    steps, s := Extend(start, steps, s, ReadTail);
    steps, s := Extend(start, steps, s, ReadNext);
  }
}
