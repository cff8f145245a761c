/** How the virtual cores of a VNF obtain access ids on its ports, and the
    queues they end up using (ssn_vnf.cc, ssn_vnf_block.h, ssn_vnf_port.cc,
    set_coremask_impl of the VNFs).

    Each port remembers, as ghost state, to whom it gave each access id. */
module VnfAccess {
  import opened Common
  import opened Coremask
  import opened QueueAccess

  /** How a call ends: with a code, with an exception, or with a fault. */
  datatype Exit = Returned(code: int) | OutOfRange | Uncaught | NullDereference | DividesByZero

  datatype Dir = Rx | Tx

  // ---- Ports ----

  /** What a port leads to: the two sides of a NIC (ssn_vnf_port_dpdk), or the two rings by which a patch panel
      links it to another virtual port (ssn_vnf_port_virt). */
  datatype Link = Nic(rx: OneSide, tx: OneSide) | Unpatched | Patched(rxRing: Ring, txRing: Ring)

  class Port {
    const link: Link
    var nRxq: nat
    var nTxq: nat
    var nRxacc: nat
    var nTxacc: nat
    var attached: bool
    ghost var rxHolders: seq<Holder>
    ghost var txHolders: seq<Holder>

    constructor (link: Link)
      ensures Counted() && nRxacc == 0 && nTxacc == 0 && !attached && this.link == link
    {
      nRxq, nTxq, nRxacc, nTxacc := 0, 0, 0, 0;
      attached, this.link := false, link;
      rxHolders, txHolders := [], [];
    }

    /** A NIC port is always deployable, a virtual one once it is patched. */
    predicate Deployable() { !link.Unpatched? }

    ghost predicate Counted()
      reads this
    {
      nRxacc == |rxHolders| && nTxacc == |txHolders|
    }

    ghost function Holders(d: Dir): seq<Holder>
      reads this
    {
      if d.Rx? then rxHolders else txHolders
    }

    /** The queues on side `d`: what the NIC was configured with, or the rings there are. */
    function Queues(d: Dir): nat
      reads this
    {
      match link
      case Patched(rxRing, txRing) => if d.Rx? then rxRing.nRings else txRing.nRings
      case _ => if d.Rx? then nRxq else nTxq
    }

    function Accesses(d: Dir): nat
      reads this
    {
      if d.Rx? then nRxacc else nTxacc
    }

    function Nics(): set<OneSide> { if link.Nic? then {link.rx, link.tx} else {} }

    function DeqRings(): set<Ring> { if link.Patched? then {link.rxRing} else {} }

    function EnqRings(): set<Ring> { if link.Patched? then {link.txRing} else {} }

    function Accessors(d: Dir): seq<Accessor>
      reads Nics(), DeqRings()`deqAccessors, EnqRings()`enqAccessors
    {
      match link
      case Nic(rx, tx) => if d.Rx? then rx.accessors else tx.accessors
      case Unpatched => []
      case Patched(rxRing, txRing) => if d.Rx? then rxRing.deqAccessors else txRing.enqAccessors
    }

    /** The two ports share no side of a NIC, and no end of a ring. */
    predicate Apart(q: Port) {
      Nics() !! q.Nics() && DeqRings() !! q.DeqRings() && EnqRings() !! q.EnqRings()
    }

    predicate TwoSided() { link.Nic? ==> link.rx != link.tx }

    method RequestRxAccess(ghost who: Holder) returns (aid: nat)
      requires Counted()
      modifies this`nRxacc, this`rxHolders
      ensures aid == old(nRxacc) && Counted()
      ensures rxHolders == old(rxHolders) + [who]
    {
      aid := nRxacc;
      nRxacc := nRxacc + 1;
      rxHolders := rxHolders + [who];
    }

    method RequestTxAccess(ghost who: Holder) returns (aid: nat)
      requires Counted()
      modifies this`nTxacc, this`txHolders
      ensures aid == old(nTxacc) && Counted()
      ensures txHolders == old(txHolders) + [who]
    {
      aid := nTxacc;
      nTxacc := nTxacc + 1;
      txHolders := txHolders + [who];
    }

    method ResetAcc()
      modifies this`nRxacc, this`nTxacc, this`rxHolders, this`txHolders
      ensures Counted() && nRxacc == 0 && nTxacc == 0
    {
      nRxacc, nTxacc, rxHolders, txHolders := 0, 0, [], [];
    }

    function SideOutcome(d: Dir): Outcome
      reads this
    {
      if Accesses(d) == 0 then (if link.Patched? then DivisionByZero else Done)
      else if Queues(d) % Accesses(d) != 0 then Thrown else Done
    }

    /** How dealing out the queues ends: the receive side comes first. */
    function ConfigOutcome(): Outcome
      reads this
    {
      if SideOutcome(Rx) != Done then SideOutcome(Rx) else SideOutcome(Tx)
    }

    /** Every access id given out on side `d` owns its slice of the queues. */
    ghost predicate Dealt(d: Dir)
      reads this, Nics(), DeqRings()`deqAccessors, EnqRings()`enqAccessors
    {
      && |Accessors(d)| == Accesses(d)
      && forall a :: 0 <= a < Accesses(d) ==> Accessors(d)[a] == Accessor(0, Slice(Queues(d), Accesses(d), a))
    }

    method ConfigAcc() returns (r: Outcome)
      requires Deployable() && TwoSided()
      modifies Nics(), DeqRings()`deqAccessors, EnqRings()`enqAccessors
      ensures r == ConfigOutcome()
      ensures r.Done? ==> Dealt(Rx) && Dealt(Tx)
    {
      match link
      case Nic(rx, tx) =>
        r := rx.ConfigureQueueAccessor(nRxq, nRxacc);
        if r == Done {
          r := tx.ConfigureQueueAccessor(nTxq, nTxacc);
        }
      case Patched(rxRing, txRing) =>
        r := rxRing.ConfigureDeqAcc(nRxacc);
        if r == Done {
          r := txRing.ConfigureEnqAcc(nTxacc);
        }
    }
  }

  ghost function Plugged(ports: array<Port?>): set<Port>
    reads ports
  {
    set p: Port | p in ports[..]
  }

  ghost function NicSides(ports: array<Port?>): set<OneSide>
    reads ports
  {
    set p, o | p in Plugged(ports) && o in p.Nics() :: o
  }

  ghost function DeqEnds(ports: array<Port?>): set<Ring>
    reads ports
  {
    set p, o | p in Plugged(ports) && o in p.DeqRings() :: o
  }

  ghost function EnqEnds(ports: array<Port?>): set<Ring>
    reads ports
  {
    set p, o | p in Plugged(ports) && o in p.EnqRings() :: o
  }

  ghost predicate AllAttached(ports: array<Port?>)
    reads ports
  {
    forall q :: 0 <= q < ports.Length ==> ports[q] != null
  }

  /** No port is plugged in twice, and every port counts what it gave out. */
  ghost predicate Wired(ports: array<Port?>)
    reads ports, Plugged(ports)
  {
    && (forall i, j :: 0 <= i < j < ports.Length && ports[i] != null ==> ports[i] != ports[j])
    && (forall i :: 0 <= i < ports.Length && ports[i] != null ==> ports[i].Counted())
  }

  ghost predicate SidesApart(ports: array<Port?>)
    reads ports
  {
    && (forall p :: p in Plugged(ports) ==> p.TwoSided())
    && (forall p, q :: p in Plugged(ports) && q in Plugged(ports) && p != q ==> p.Apart(q))
  }

  type Holder = (Block, nat)

  /** What the access ids of a port depend on, as a value. */
  datatype PortView =
    | Empty
    | View(rx: seq<Holder>, tx: seq<Holder>, nRxq: nat, nTxq: nat, attached: bool, link: Link)

  ghost function HoldersOf(v: PortView, d: Dir): seq<Holder> {
    if v.Empty? then [] else if d.Rx? then v.rx else v.tx
  }

  ghost function ViewOf(p: Port?): PortView
    reads p
  {
    if p == null then Empty
    else View(p.rxHolders, p.txHolders, p.Queues(Rx), p.Queues(Tx), p.attached, p.link)
  }

  ghost function Views(ports: array<Port?>): (s: seq<PortView>)
    reads ports, Plugged(ports)
    ensures |s| == ports.Length
    ensures forall q :: 0 <= q < ports.Length ==> s[q] == ViewOf(ports[q])
  {
    seq(ports.Length, q requires 0 <= q < ports.Length reads ports, Plugged(ports) => ViewOf(ports[q]))
  }

  /** The access ids of virtual cores from..from+n of `b`, if it asks. */
  ghost function Given(b: Block, from: nat, n: nat, d: Dir, q: nat): seq<Holder> {
    if b.Asks(d, q) then Own(b, from, n) else []
  }

  ghost function Own(b: Block, from: nat, n: nat): seq<Holder> {
    seq(n, k requires 0 <= k => (b, from + k))
  }

  /** `v` after virtual cores from..from+n of `b` were given its next ids. */
  ghost function Grown(v: PortView, b: Block, from: nat, n: nat, q: nat): PortView {
    if v.Empty? then v
    else v.(rx := v.rx + Given(b, from, n, Rx, q), tx := v.tx + Given(b, from, n, Tx, q))
  }

  ghost function AllGrown(views: seq<PortView>, b: Block, from: nat, n: nat): (s: seq<PortView>)
    ensures |s| == |views|
    ensures forall q :: 0 <= q < |views| ==> s[q] == Grown(views[q], b, from, n, q)
  {
    seq(|views|, q requires 0 <= q < |views| => Grown(views[q], b, from, n, q))
  }

  lemma AllGrownOnce(views: seq<PortView>, b: Block, n: nat)
    ensures AllGrown(AllGrown(views, b, 0, n), b, n, 1) == AllGrown(views, b, 0, n + 1)
  {
    OwnGrows(b, n);
    forall q | 0 <= q < |views|
      ensures Grown(Grown(views[q], b, 0, n, q), b, n, 1, q) == Grown(views[q], b, 0, n + 1, q)
    {
      if !views[q].Empty? {
        assert views[q].tx + Own(b, 0, n) + Own(b, n, 1) == views[q].tx + Own(b, 0, n + 1);
        if b.Asks(Rx, q) {
          assert views[q].rx + Own(b, 0, n) + Own(b, n, 1) == views[q].rx + Own(b, 0, n + 1);
        }
      }
    }
  }

  /** Between the two states, `p` gave its next access ids to virtual core `k`
      of `b` on the sides asked for, and nothing else about it changed. */
  twostate predicate Granted(p: Port, b: Block, k: nat, rx: bool, tx: bool)
    reads p
  {
    && p.rxHolders == old(p.rxHolders) + (if rx then [(b, k)] else [])
    && p.txHolders == old(p.txHolders) + (if tx then [(b, k)] else [])
    && p.nRxacc == old(p.nRxacc) + (if rx then 1 else 0)
    && p.nTxacc == old(p.nTxacc) + (if tx then 1 else 0)
    && p.nRxq == old(p.nRxq) && p.nTxq == old(p.nTxq)
    && p.attached == old(p.attached)
  }

  lemma OwnGrows(b: Block, n: nat)
    ensures Own(b, 0, n + 1) == Own(b, 0, n) + Own(b, n, 1)
  {
  }

  // ---- Blocks ----

  datatype Vcore = Vcore(lcore: nat, rxAcc: seq<nat>, txAcc: seq<nat>)

  function LcoresOf(vs: seq<Vcore>): (s: seq<nat>)
    ensures |s| == |vs|
    ensures forall k :: 0 <= k < |vs| ==> s[k] == vs[k].lcore
  {
    seq(|vs|, k requires 0 <= k < |vs| => vs[k].lcore)
  }

  /** The access id of a virtual core on side `d` of port `q`. */
  function AidOf(v: Vcore, d: Dir, q: nat): nat {
    var accs := if d.Rx? then v.rxAcc else v.txAcc;
    if q < |accs| then accs[q] else 0
  }

  /** These virtual cores of `b` hold consecutive access ids from `first`. */
  ghost predicate NewIds(b: Block, vs: seq<Vcore>, first: nat, d: Dir, q: nat) {
    b.Asks(d, q) ==> forall k :: 0 <= k < |vs| ==> AidOf(vs[k], d, q) == first + k
  }

  /** Virtual core `k` of `b` was given the next access id of every port it
      asks: the virtual cores went from `cores` to `vs`, the ports from
      `before` to `now`. */
  ghost predicate Served(b: Block, cores: seq<Vcore>, vs: seq<Vcore>,
                         before: seq<PortView>, now: seq<PortView>, k: nat)
  {
    && k < |cores| == |vs|
    && now == AllGrown(before, b, k, 1)
    && (forall j :: 0 <= j < |cores| && j != k ==> vs[j] == cores[j])
    && vs[k].lcore == cores[k].lcore
    && (forall d, q :: 0 <= q < |before| && b.Asks(d, q) ==> AidOf(vs[k], d, q) == |HoldersOf(before[q], d)|)
  }

  /** Virtual cores 0..n of `b` were given the next access ids of every port
      they ask, in order. */
  ghost predicate ServedAll(b: Block, vs: seq<Vcore>, before: seq<PortView>, now: seq<PortView>, n: nat) {
    && n <= |vs|
    && now == AllGrown(before, b, 0, n)
    && forall d, q :: 0 <= q < |before| && before[q] != Empty ==>
      NewIds(b, vs[..n], |HoldersOf(before[q], d)|, d, q)
  }

  lemma NoneServed(b: Block, vs: seq<Vcore>, views: seq<PortView>)
    ensures ServedAll(b, vs, views, views, 0)
  {
    assert Own(b, 0, 0) == [];
    assert forall q :: 0 <= q < |views| ==> Grown(views[q], b, 0, 0, q) == views[q];
    assert AllGrown(views, b, 0, 0) == views;
  }

  lemma OneMoreServed(b: Block, cores: seq<Vcore>, vs: seq<Vcore>,
                      before: seq<PortView>, mid: seq<PortView>, now: seq<PortView>, k: nat)
    requires ServedAll(b, cores, before, mid, k) && Served(b, cores, vs, mid, now, k)
    ensures ServedAll(b, vs, before, now, k + 1)
  {
    AllGrownOnce(before, b, k);
    forall d, q | 0 <= q < |before| && before[q] != Empty
      ensures NewIds(b, vs[..k + 1], |HoldersOf(before[q], d)|, d, q)
    {
      assert NewIds(b, cores[..k], |HoldersOf(before[q], d)|, d, q);
      assert mid[q] == Grown(before[q], b, 0, k, q);
      assert b.Asks(d, q) ==> |HoldersOf(mid[q], d)| == |HoldersOf(before[q], d)| + k;
      assert vs[..k] == cores[..k];
    }
  }

  class Block {
    /** The VNF's own port vector, shared by reference. */
    const ports: array<Port?>
    /** Nothing for a block that polls every port, the polled port for one
        that is bound to a port (l2fwd_numa.h). */
    const only: Option<nat>
    var coremask: Mask
    var vcores: seq<Vcore>

    constructor (ports: array<Port?>, only: Option<nat>)
      requires only.Some? ==> only.value < ports.Length
      ensures this.ports == ports && this.only == only && vcores == [] && coremask == 0
    {
      this.ports, this.only := ports, only;
      coremask, vcores := 0, [];
    }

    predicate Asks(d: Dir, q: nat) {
      d.Tx? || only.None? || only.value == q
    }

    predicate Shaped()
      reads this
    {
      && (only.Some? ==> only.value < ports.Length)
      && (forall k :: 0 <= k < |vcores| ==> |vcores[k].rxAcc| == ports.Length && |vcores[k].txAcc| == ports.Length)
    }

    /** Asks port `q` for a receive access id for virtual core `k` and stores
        it; an empty slot of the port vector is dereferenced. */
    method RequestRx(k: nat, q: nat) returns (fault: bool)
      requires Shaped() && Wired(ports) && k < |vcores| && q < ports.Length
      modifies this`vcores, Plugged(ports)
      ensures Shaped() && Wired(ports)
      ensures fault <==> ports[q] == null
      ensures !fault ==> vcores == old(vcores)[k := old(vcores[k].(rxAcc := vcores[k].rxAcc[q := ports[q].nRxacc]))]
      ensures forall i :: 0 <= i < ports.Length && ports[i] != null ==> Granted(ports[i], this, k, i == q, false)
    {
      if ports[q] == null {
        return true;
      }
      var aid := ports[q].RequestRxAccess((this, k));
      vcores := vcores[k := vcores[k].(rxAcc := vcores[k].rxAcc[q := aid])];
      return false;
    }

    method RequestTx(k: nat, q: nat) returns (fault: bool)
      requires Shaped() && Wired(ports) && k < |vcores| && q < ports.Length
      modifies this`vcores, Plugged(ports)
      ensures Shaped() && Wired(ports)
      ensures fault <==> ports[q] == null
      ensures !fault ==> vcores == old(vcores)[k := old(vcores[k].(txAcc := vcores[k].txAcc[q := ports[q].nTxacc]))]
      ensures forall i :: 0 <= i < ports.Length && ports[i] != null ==> Granted(ports[i], this, k, false, i == q)
    {
      if ports[q] == null {
        return true;
      }
      var aid := ports[q].RequestTxAccess((this, k));
      vcores := vcores[k := vcores[k].(txAcc := vcores[k].txAcc[q := aid])];
      return false;
    }

    /** Virtual core `k` of a block that polls every port. */
    method RequestAll(k: nat) returns (fault: bool)
      requires Shaped() && Wired(ports) && k < |vcores| && only.None?
      modifies this`vcores, Plugged(ports)
      ensures Shaped() && Wired(ports)
      ensures fault <==> !AllAttached(ports)
      ensures !fault ==> Granting(k)
    {
      for q := 0 to ports.Length
        invariant Shaped() && Wired(ports) && |vcores| == old(|vcores|)
        invariant forall i :: 0 <= i < q ==> ports[i] != null
        invariant forall i :: 0 <= i < ports.Length && ports[i] != null ==> Granted(ports[i], this, k, i < q, i < q)
        invariant forall j :: 0 <= j < |vcores| && j != k ==> vcores[j] == old(vcores[j])
        invariant vcores[k].lcore == old(vcores[k].lcore)
        invariant forall i :: 0 <= i < q ==> vcores[k].rxAcc[i] == old(ports[i].nRxacc)
        invariant forall i :: 0 <= i < q ==> vcores[k].txAcc[i] == old(ports[i].nTxacc)
      {
        fault := RequestSides(k, q);
        if fault {
          return;
        }
      }
      fault := false;
    }

    method RequestSides(k: nat, q: nat) returns (fault: bool)
      requires Shaped() && Wired(ports) && k < |vcores| && q < ports.Length
      modifies this`vcores, Plugged(ports)
      ensures Shaped() && Wired(ports)
      ensures fault <==> ports[q] == null
      ensures !fault ==> vcores == old(vcores)[k := old(vcores[k].(rxAcc := vcores[k].rxAcc[q := ports[q].nRxacc],
                                                                   txAcc := vcores[k].txAcc[q := ports[q].nTxacc]))]
      ensures forall i :: 0 <= i < ports.Length && ports[i] != null ==> Granted(ports[i], this, k, i == q, i == q)
    {
      fault := RequestRx(k, q);
      if !fault {
        fault := RequestTx(k, q);
      }
    }

    /** Virtual core `k` of a block that is bound to one port. */
    method RequestBound(k: nat) returns (fault: bool)
      requires Shaped() && Wired(ports) && k < |vcores| && only.Some?
      modifies this`vcores, Plugged(ports)
      ensures Shaped() && Wired(ports)
      ensures fault <==> !AllAttached(ports)
      ensures !fault ==> Granting(k)
    {
      fault := RequestRx(k, only.value);
      if !fault {
        label L:
        fault := RequestEveryTx(k);
        if !fault {
          forall q | 0 <= q < ports.Length
            ensures Granted(old(ports[q]), this, k, Asks(Rx, q), true)
          {
            assert Granted@L(ports[q], this, k, false, true);
          }
        }
      }
    }

    method RequestEveryTx(k: nat) returns (fault: bool)
      requires Shaped() && Wired(ports) && k < |vcores|
      modifies this`vcores, Plugged(ports)
      ensures Shaped() && Wired(ports)
      ensures fault <==> !AllAttached(ports)
      ensures !fault ==> forall q :: 0 <= q < ports.Length ==> Granted(ports[q], this, k, false, true)
      ensures !fault ==> |vcores| == old(|vcores|) && forall j :: 0 <= j < |vcores| && j != k ==>
          vcores[j] == old(vcores[j])
      ensures !fault ==> vcores[k].lcore == old(vcores[k].lcore) && vcores[k].rxAcc == old(vcores[k].rxAcc)
      ensures !fault ==> forall q :: 0 <= q < ports.Length ==> vcores[k].txAcc[q] == old(ports[q].nTxacc)
    {
      for q := 0 to ports.Length
        invariant Shaped() && Wired(ports) && |vcores| == old(|vcores|)
        invariant forall i :: 0 <= i < q ==> ports[i] != null
        invariant forall i :: 0 <= i < ports.Length && ports[i] != null ==> Granted(ports[i], this, k, false, i < q)
        invariant forall j :: 0 <= j < |vcores| && j != k ==> vcores[j] == old(vcores[j])
        invariant vcores[k].lcore == old(vcores[k].lcore) && vcores[k].rxAcc == old(vcores[k].rxAcc)
        invariant forall i :: 0 <= i < q ==> vcores[k].txAcc[i] == old(ports[i].nTxacc)
      {
        fault := RequestTx(k, q);
        if fault {
          return;
        }
      }
      fault := false;
    }

    twostate predicate Granting(k: nat)
      reads this, ports, Plugged(ports)
    {
      && Shaped() && ports[..] == old(ports[..]) && AllAttached(ports)
      && k < |vcores| == old(|vcores|)
      && (forall j :: 0 <= j < |vcores| && j != k ==> vcores[j] == old(vcores[j]))
      && vcores[k].lcore == old(vcores[k].lcore)
      && (forall q :: 0 <= q < ports.Length ==> Granted(old(ports[q]), this, k, Asks(Rx, q), true))
      && (forall d, q :: 0 <= q < ports.Length && Asks(d, q) ==> AidOf(vcores[k], d, q) == old(ports[q].Accesses(d)))
    }

    method RequestFor(k: nat) returns (fault: bool)
      requires Shaped() && Wired(ports) && k < |vcores|
      modifies this`vcores, Plugged(ports)
      ensures Shaped() && Wired(ports)
      ensures fault <==> !AllAttached(ports)
      ensures !fault ==> Served(this, old(vcores), vcores, old(Views(ports)), Views(ports), k)
    {
      if only.None? {
        fault := RequestAll(k);
      } else {
        fault := RequestBound(k);
      }
      if !fault {
        forall q | 0 <= q < ports.Length
          ensures Views(ports)[q] == Grown(old(Views(ports))[q], this, k, 1, q)
        {
          assert Granted(ports[q], this, k, Asks(Rx, q), true);
          assert Own(this, k, 1) == [(this, k)];
        }
        forall d, q | 0 <= q < ports.Length && Asks(d, q)
          ensures AidOf(vcores[k], d, q) == |HoldersOf(old(Views(ports))[q], d)|
        {
          assert old(ports[q].Counted());
        }
      }
    }

    /** set_coremask_impl: every virtual core requests its access ids. */
    method RequestAccess() returns (fault: bool)
      requires Shaped() && Wired(ports)
      modifies this`vcores, Plugged(ports)
      ensures Shaped() && Wired(ports)
      ensures fault <==> old(vcores) != [] && !AllAttached(ports)
      ensures !fault ==> LcoresOf(vcores) == LcoresOf(old(vcores))
      ensures !fault ==> ServedAll(this, vcores, old(Views(ports)), Views(ports), |vcores|)
    {
      fault := false;
      ghost var views := Views(ports);
      NoneServed(this, vcores, views);
      for k := 0 to |vcores|
        invariant Shaped() && Wired(ports)
        invariant 0 < k ==> AllAttached(ports)
        invariant LcoresOf(vcores) == LcoresOf(old(vcores))
        invariant ServedAll(this, vcores, views, Views(ports), k)
      {
        ghost var cores, now := vcores, Views(ports);
        ghost var lcores := LcoresOf(vcores);
        fault := RequestFor(k);
        if fault {
          return;
        }
        OneMoreServed(this, cores, vcores, views, now, Views(ports), k);
        assert forall j :: 0 <= j < |vcores| ==> LcoresOf(vcores)[j] == lcores[j];
      }
    }

    /** The virtual cores are the set bits of the mask, lowest first. */
    ghost predicate HasCores(mask: Mask)
      reads this
    {
      coremask == mask && LcoresOf(vcores) == Cores(mask)
    }

    /** Replaces the virtual cores and requests access ids for the new ones;
        the ids of the old ones are not given back. A zero mask asks nothing,
        so it is the only one that an empty port slot cannot fault. */
    method SetCoremask(mask: Mask) returns (fault: bool)
      requires Shaped() && Wired(ports)
      modifies this`coremask, this`vcores, Plugged(ports)
      ensures Shaped() && Wired(ports)
      ensures fault <==> mask != 0 && !AllAttached(ports)
      ensures !fault ==> HasCores(mask) && ServedAll(this, vcores, old(Views(ports)), Views(ports), |vcores|)
    {
      coremask := mask;
      FillVcores(32);
      NoCoresIffZero(mask);
      fault := RequestAccess();
    }

    method FillVcores(bits: nat)
      requires bits == 32 && (only.Some? ==> only.value < ports.Length)
      modifies this`vcores
      ensures Shaped() && LcoresOf(vcores) == Cores(coremask)
    {
      vcores := [];
      for i := 0 to bits
        invariant Shaped()
        invariant LcoresOf(vcores) + CoresFrom(Shifted(coremask, i), i) == Cores(coremask)
      {
        CoresStepAfter(LcoresOf(vcores), coremask, i);
        if Bit(coremask, i) {
          PushVcore(i);
        } else {
          assert LcoresOf(vcores) + [] == LcoresOf(vcores);
        }
      }
      CoresEnd(coremask, bits);
    }

    method PushVcore(lcore: nat)
      requires Shaped()
      modifies this`vcores
      ensures Shaped() && LcoresOf(vcores) == LcoresOf(old(vcores)) + [lcore]
    {
      vcores := vcores + [Vcore(lcore, seq(ports.Length, _ => 0), seq(ports.Length, _ => 0))];
      assert LcoresOf(vcores) == LcoresOf(old(vcores)) + [lcore];
    }

    /** The block's own reset: one virtual core requests access (to find out
        the socket it will mostly use), whether or not the ports are there. */
    method Reset() returns (fault: bool)
      requires Shaped() && Wired(ports)
      modifies this`coremask, this`vcores, Plugged(ports)
      ensures Shaped() && Wired(ports)
      ensures fault <==> !AllAttached(ports)
      ensures !fault ==> HasCores(1) && ServedAll(this, vcores, old(Views(ports)), Views(ports), |vcores|)
    {
      fault := SetCoremask(1);
    }

    /** The virtual core that runs on `lcore`: every virtual core finds itself,
        and a thread on any other core gets the exception. */
    method GetVlcoreId(lcore: nat) returns (r: Option<nat>)
      requires HasCores(coremask)
      ensures forall k :: 0 <= k < |vcores| && vcores[k].lcore == lcore ==> r == Some(k)
      ensures r.Some? ==> r.value < |vcores| && vcores[r.value].lcore == lcore
    {
      assert forall k :: 0 <= k < |vcores| ==> vcores[k].lcore == LcoresOf(vcores)[k];
      for i := 0 to |vcores|
        invariant forall k :: 0 <= k < i ==> vcores[k].lcore != lcore
      {
        if vcores[i].lcore == lcore {
          return Some(i);
        }
      }
      return None;
    }

    /** Launches one thread per virtual core; `fails` are the cores on which
        the launch throws, which ends the attempt. */
    method Deploy(fails: set<nat>) returns (code: int)
      ensures code == if vcores != [] && (forall c :: c in LcoresOf(vcores) ==> c !in fails) then 0 else -1
    {
      if |vcores| == 0 {
        return -1;
      }
      for i := 0 to |vcores|
        invariant forall k :: 0 <= k < i ==> LcoresOf(vcores)[k] !in fails
      {
        assert LcoresOf(vcores)[i] in LcoresOf(vcores);
        if vcores[i].lcore in fails {
          return -1;
        }
      }
      return 0;
    }
  }
}
