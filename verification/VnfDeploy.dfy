/** A VNF from attaching its ports to deployment (ssn_vnf.cc): reset, one
    coremask per block, deploy. Once deployed, the queues of every port are
    shared out among the virtual cores. */
module VnfDeploy {
  import opened Common
  import opened Coremask
  import opened QueueAccess
  import opened VnfAccess
  import opened VnfOwners

  class Vnf {
    const ports: array<Port?>
    var blocks: seq<Block>

    constructor (n: nat)
      ensures Valid() && blocks == [] && fresh(ports) && ports.Length == n
      ensures forall q :: 0 <= q < n ==> ports[q] == null
    {
      ports := new Port?[n](_ => null);
      blocks := [];
    }

    ghost predicate Valid()
      reads this, ports, Plugged(ports), blocks
    {
      && (forall i, j :: 0 <= i < j < |blocks| ==> blocks[i] != blocks[j])
      && (forall b :: b in blocks ==> b.ports == ports && b.Shaped())
      && Wired(ports) && SidesApart(ports)
      && (forall p :: p in Plugged(ports) ==> p.attached)
    }

    ghost function CastNow(): Cast
      reads this, blocks
    {
      map b | b in blocks :: b.vcores
    }

    /** The constructors of the concrete VNFs push their blocks. */
    method AddBlock(only: Option<nat>)
      requires Valid() && (only.Some? ==> only.value < ports.Length)
      modifies this`blocks
      ensures Valid() && |blocks| == |old(blocks)| + 1 && old(blocks) <= blocks
      ensures fresh(blocks[|old(blocks)|]) && blocks[|old(blocks)|].only == only
      ensures blocks[|old(blocks)|].vcores == []
    {
      var b := new Block(ports, only);
      blocks := blocks + [b];
    }

    /** Plugs a port in, unless the slot is taken or the port is plugged in
        somewhere. The port vector is shared, so the blocks that are told
        store it into the same slot again. */
    method AttachPort(pid: nat, port: Port) returns (r: Exit)
      requires Valid() && port.Counted() && port.TwoSided()
      requires forall p :: p in Plugged(ports) && p != port ==> p.Apart(port) && port.Apart(p)
      modifies ports, port`attached
      ensures Valid()
      ensures r == if ports.Length <= pid then OutOfRange
                   else if old(ports[pid]) != null || old(port.attached) then Returned(-1)
                   else Returned(0)
      ensures r == Returned(0) ==> port.attached && ports[..] == old(ports[..])[pid := port]
      ensures r != Returned(0) ==> port.attached == old(port.attached) && ports[..] == old(ports[..])
    {
      if ports.Length <= pid {
        return OutOfRange;
      }
      if ports[pid] != null || port.attached {
        return Returned(-1);
      }
      ports[pid] := port;
      port.attached := true;
      ghost var now := ports[..];
      for i := 0 to |blocks|
        modifies ports
        invariant ports[..] == now && port == ports[pid]
      {
        blocks[i].ports[pid] := port;
      }
      return Returned(0);
    }

    method DettachPort(pid: nat) returns (r: Exit)
      requires Valid()
      modifies ports, Plugged(ports)
      ensures Valid()
      ensures r == if ports.Length <= pid then OutOfRange else if old(ports[pid]) == null then Returned(-1)
          else Returned(0)
      ensures r == Returned(0) ==> ports[..] == old(ports[..])[pid := null] && !old(ports[pid]).attached
      ensures r != Returned(0) ==> ports[..] == old(ports[..])
    {
      if ports.Length <= pid {
        return OutOfRange;
      }
      if ports[pid] == null {
        return Returned(-1);
      }
      ports[pid].attached := false;
      ports[pid] := null;
      ghost var now := ports[..];
      for i := 0 to |blocks|
        modifies ports
        invariant ports[..] == now && ports[pid] == null
      {
        blocks[i].ports[pid] := null;
      }
      return Returned(0);
    }

    /** `b` took a new coremask and nothing else happened. */
    twostate predicate Took(b: Block)
      reads this, ports, Plugged(ports), blocks
    {
      && blocks == old(blocks) && b in blocks && ports[..] == old(ports[..])
      && ServedAll(b, b.vcores, old(Views(ports)), Views(ports), |b.vcores|)
      && forall c :: c in blocks && c != b ==> c.vcores == old(c.vcores) && c.coremask == old(c.coremask)
    }

    method Complete() returns (ok: bool)
      ensures ok <==> AllAttached(ports)
    {
      for q := 0 to ports.Length
        invariant forall i :: 0 <= i < q ==> ports[i] != null
      {
        if ports[q] == null {
          return false;
        }
      }
      return true;
    }

    method TakeMask(b: Block, mask: Mask)
      requires Valid() && AllAttached(ports) && b in blocks
      modifies b, Plugged(ports)
      ensures Valid() && b.HasCores(mask) && Took(b) && SameSetup(old(Views(ports)), Views(ports))
    {
      var fault := b.SetCoremask(mask);
    }

    /** Refused while a port is missing, so that no empty slot is used. */
    method SetCoremask(id: nat, mask: Mask) returns (r: Exit)
      requires Valid()
      modifies blocks, Plugged(ports)
      ensures Valid() && blocks == old(blocks)
      ensures !AllAttached(ports) ==> r == Returned(-1)
      ensures AllAttached(ports) ==> r == if |blocks| <= id then OutOfRange else Returned(0)
      ensures r != Returned(0) ==> unchanged(blocks) && unchanged(Plugged(ports))
      ensures r == Returned(0) ==> blocks[id].HasCores(mask) && Took(blocks[id])
    {
      var ok := Complete();
      if !ok {
        return Returned(-1);
      }
      if |blocks| <= id {
        return OutOfRange;
      }
      TakeMask(blocks[id], mask);
      return Returned(0);
    }

    ghost predicate Cleared()
      reads this, ports, Plugged(ports), blocks
    {
      && (forall b :: b in blocks ==> b.coremask == 0 && b.vcores == [])
      && (forall d, q :: 0 <= q < ports.Length && ports[q] != null ==> ports[q].Holders(d) == [])
    }

    /** Takes all virtual cores and access ids back. The check for missing
        ports comes after every block has already asked them for access, so
        it only helps a VNF without blocks: any other faults. */
    method Reset() returns (r: Exit)
      requires Valid()
      modifies blocks, Plugged(ports)
      ensures r == if AllAttached(ports) then Returned(0) else if blocks == [] then Returned(-1) else NullDereference
      ensures blocks == old(blocks)
      ensures r != NullDereference ==> Valid() && SameSetup(old(Views(ports)), Views(ports))
      ensures r == Returned(0) ==> Cleared()
    {
      for i := 0 to |blocks|
        invariant Valid() && blocks == old(blocks) && SameSetup(old(Views(ports)), Views(ports))
        invariant 0 < i ==> AllAttached(ports)
        invariant forall j :: 0 <= j < i ==> blocks[j].coremask == 0 && blocks[j].vcores == []
      {
        var fault := ClearBlock(blocks[i]);
        if fault {
          return NullDereference;
        }
      }
      var ok := Complete();
      if !ok {
        return Returned(-1);
      }
      ResetPorts();
      return Returned(0);
    }

    method ClearBlock(b: Block) returns (fault: bool)
      requires Valid() && b in blocks
      modifies b, Plugged(ports)
      ensures fault <==> !AllAttached(ports)
      ensures !fault ==> Valid() && SameSetup(old(Views(ports)), Views(ports)) && b.coremask == 0 && b.vcores == []
    {
      fault := b.Reset();
      if !fault {
        TakeMask(b, 0);
        NoCoresIffZero(0);
        assert LcoresOf(b.vcores) == [];
      }
    }

    /** The ports of `setup`, the first `n` of them without access ids. */
    ghost predicate ResetUpTo(setup: seq<PortView>, n: nat)
      reads this, ports, Plugged(ports), blocks
    {
      && Valid() && AllAttached(ports) && SameSetup(setup, Views(ports))
      && forall d, q :: 0 <= q < n && q < ports.Length ==> ports[q].Holders(d) == []
    }

    method ResetPorts()
      requires Valid() && AllAttached(ports)
      modifies Plugged(ports)
      ensures ResetUpTo(old(Views(ports)), ports.Length)
    {
      ghost var setup := Views(ports);
      for q := 0 to ports.Length
        invariant ResetUpTo(setup, q) == true
      {
        ResetPort(q, setup);
      }
    }

    method ResetPort(q: nat, ghost setup: seq<PortView>)
      requires q < ports.Length && ResetUpTo(setup, q) == true
      modifies Plugged(ports)
      ensures ResetUpTo(setup, q + 1) == true
    {
      assert ports[q] in Plugged(ports);
      ports[q].ResetAcc();
    }

    /** The check offered to callers before a deployment. */
    method Deployable() returns (ok: bool)
      requires Valid()
      ensures ok <==> AllAttached(ports) && forall b :: b in blocks ==> b.coremask != 0
    {
      ok := Complete();
      if !ok {
        return;
      }
      for i := 0 to |blocks|
        invariant forall j :: 0 <= j < i ==> blocks[j].coremask != 0
      {
        if blocks[i].coremask == 0 {
          return false;
        }
      }
      return true;
    }

    /** The ports are `views` and the virtual cores `cast`. It is compared with `true` where the verifier should take
        it as one fact and not take it apart, and so are DealtUpTo and Stage. */
    ghost predicate Stands(views: seq<PortView>, cast: Cast)
      reads this, ports, Plugged(ports), blocks
    {
      Valid() && views == Views(ports) && cast == CastNow()
    }

    ghost predicate DealtUpTo(n: nat)
      requires n <= ports.Length
      reads ports, Plugged(ports), NicSides(ports), DeqEnds(ports)`deqAccessors, EnqEnds(ports)`enqAccessors
    {
      forall q :: 0 <= q < n ==> ports[q] != null && ports[q].Dealt(Rx) && ports[q].Dealt(Tx)
    }

    /** The queues of the first `n` ports are dealt out. */
    ghost predicate Configured(views: seq<PortView>, cast: Cast, n: nat)
      requires n <= |views| == ports.Length && Ready(views)
      reads this, ports, Plugged(ports), blocks
      reads NicSides(ports), DeqEnds(ports)`deqAccessors, EnqEnds(ports)`enqAccessors
    {
      Stands(views, cast) && DealtUpTo(n) && OutcomeUpTo(views, n) == Done
    }

    /** Every access id of every port is dealt its queues. */
    method ConfigureAcc(ghost views: seq<PortView>, ghost cast: Cast) returns (r: Outcome)
      requires Ready(views) && |views| == ports.Length && Stands(views, cast) == true
      modifies NicSides(ports), DeqEnds(ports)`deqAccessors, EnqEnds(ports)`enqAccessors
      ensures Stands(views, cast) == true && r == OutcomeUpTo(views, |views|)
      ensures r.Done? ==> DealtUpTo(ports.Length) == true
    {
      hide *;
      ConfiguredNone(views, cast);
      for q := 0 to ports.Length
        invariant Configured(views, cast, q) == true
      {
        r := ConfigureNext(q, views, cast);
        if r != Done {
          return;
        }
      }
      ConfiguredAll(views, cast);
      r := Done;
    }

    lemma ConfiguredNone(views: seq<PortView>, cast: Cast)
      requires |views| == ports.Length && Ready(views) && Stands(views, cast)
      ensures Configured(views, cast, 0) == true
    {
    }

    lemma ConfiguredAll(views: seq<PortView>, cast: Cast)
      requires |views| == ports.Length && Ready(views) && Configured(views, cast, |views|)
      ensures Stands(views, cast) == true && DealtUpTo(ports.Length) == true && OutcomeUpTo(views, |views|) == Done
    {
    }

    method ConfigureNext(q: nat, ghost views: seq<PortView>, ghost cast: Cast) returns (r: Outcome)
      requires q < |views| == ports.Length && Ready(views) && Configured(views, cast, q) == true
      modifies NicSides(ports), DeqEnds(ports)`deqAccessors, EnqEnds(ports)`enqAccessors
      ensures r == Done ==> Configured(views, cast, q + 1) == true
      ensures r != Done ==> Stands(views, cast) == true && r == OutcomeUpTo(views, |views|)
    {
      r := ConfigureOne(q, views, cast);
      if r != Done {
        OutcomeStays(views, q + 1, |views|);
      }
    }

    method ConfigureOne(q: nat, ghost views: seq<PortView>, ghost cast: Cast) returns (r: Outcome)
      requires q < |views| == ports.Length && Ready(views) && Stands(views, cast) == true && DealtUpTo(q) == true
      modifies NicSides(ports), DeqEnds(ports)`deqAccessors, EnqEnds(ports)`enqAccessors
      ensures Stands(views, cast) == true && r == PortOutcome(views[q])
      ensures r.Done? ==> DealtUpTo(q + 1) == true
    {
      hide Stands, PortOutcome;
      PortIsReady(q, views, cast);
      r := ports[q].ConfigAcc();
    }

    lemma PortIsReady(q: nat, views: seq<PortView>, cast: Cast)
      requires q < |views| == ports.Length && Ready(views) && Stands(views, cast) && DealtUpTo(q)
      ensures ports[q] != null && ports[q].Deployable() && ports[q].TwoSided() && ports[q] in Plugged(ports)
      ensures ports[q].ConfigOutcome() == PortOutcome(views[q])
      ensures forall i :: 0 <= i < q ==> ports[i] != null && ports[i] in Plugged(ports) && ports[i].Apart(ports[q])
    {
      assert views[q] == ViewOf(ports[q]);
      assert ports[q].Counted();
      assert ports[q].SideOutcome(Rx) == SideOutcome(views[q], Rx);
      assert ports[q].SideOutcome(Tx) == SideOutcome(views[q], Tx);
    }

    method DeployBlocks(fails: set<nat>) returns (ok: bool)
      ensures ok == CastLaunches(CastNow(), fails)
    {
      for i := 0 to |blocks|
        invariant forall j :: 0 <= j < i ==> CoresLaunch(blocks[j].vcores, fails)
      {
        var code := blocks[i].Deploy(fails);
        if code < 0 {
          assert blocks[i] in CastNow();
          return false;
        }
      }
      return true;
    }

    method EachDeployable() returns (ok: bool)
      ensures ok == Ready(Views(ports))
    {
      for q := 0 to ports.Length
        invariant forall i :: 0 <= i < q ==> Views(ports)[i].View? && !Views(ports)[i].link.Unpatched?
      {
        assert Views(ports)[q] == ViewOf(ports[q]);
        if ports[q] == null || !ports[q].Deployable() {
          return false;
        }
      }
      return true;
    }

    /** Configures the access ids of all ports, then launches the blocks; `fails` are the cores on which no thread
        can be launched. */
    method Deploy(fails: set<nat>) returns (r: Exit)
      requires Valid()
      modifies NicSides(ports), DeqEnds(ports)`deqAccessors, EnqEnds(ports)`enqAccessors
      ensures Stands(old(Views(ports)), old(CastNow())) == true
      ensures old(!Ready(Views(ports))) ==> r == Returned(-1)
      ensures old(Ready(Views(ports))) ==>
        r == Ended(old(OutcomeUpTo(Views(ports), ports.Length)), old(CastLaunches(CastNow(), fails)))
      ensures r == Returned(0) ==> DealtUpTo(ports.Length) == true
    {
      var ready := EachDeployable();
      if ready {
        r := DealAndLaunch(fails, Views(ports), CastNow());
      } else {
        r := Returned(-1);
      }
    }

    method DealAndLaunch(fails: set<nat>, ghost views: seq<PortView>, ghost cast: Cast) returns (r: Exit)
      requires Ready(views) && |views| == ports.Length && Stands(views, cast) == true
      modifies NicSides(ports), DeqEnds(ports)`deqAccessors, EnqEnds(ports)`enqAccessors
      ensures Stands(views, cast) == true && r == Ended(OutcomeUpTo(views, |views|), CastLaunches(cast, fails))
      ensures r == Returned(0) ==> DealtUpTo(ports.Length) == true
    {
      var o := ConfigureAcc(views, cast);
      if o == Done {
        r := Launch(fails, views, cast);
      } else {
        r := Ended(o, false);
      }
    }

    method Launch(fails: set<nat>, ghost views: seq<PortView>, ghost cast: Cast) returns (r: Exit)
      requires Stands(views, cast) == true && DealtUpTo(ports.Length) == true
      ensures Stands(views, cast) == true && DealtUpTo(ports.Length) == true
      ensures r == Ended(Done, CastLaunches(cast, fails))
    {
      hide Stands, DealtUpTo;
      CastStands(views, cast);
      assert forall p :: p in Plugged(ports) ==> allocated(p);
      assert forall b :: b in blocks ==> allocated(b);
      assert forall o :: o in NicSides(ports) ==> allocated(o);
      assert forall o :: o in DeqEnds(ports) + EnqEnds(ports) ==> allocated(o);
      var ok := DeployBlocks(fails);
      r := Ended(Done, ok);
    }

    lemma CastStands(views: seq<PortView>, cast: Cast)
      requires Stands(views, cast)
      ensures cast == CastNow()
    {
    }

    /** An outcome of dealing out the queues other than success ends the deployment. */
    static function Ended(o: Outcome, launched: bool): Exit {
      match o
      case Thrown => Uncaught
      case DivisionByZero => DividesByZero
      case Done => Returned(if launched then 0 else -1)
    }

    /** Since the reset of the ports `setup` the first `n` blocks took their coremasks. It is compared with `true`
        where the verifier should take it as one fact. */
    ghost predicate Stage(masks: seq<Mask>, n: nat, setup: seq<PortView>)
      reads this, ports, Plugged(ports), blocks
    {
      && Valid() && |masks| == |blocks| && Empty !in setup && SameSetup(setup, Views(ports))
      && UpTo(blocks, CastNow(), Views(ports), masks, n)
    }

    /** One coremask for the next block. */
    method SetNext(masks: seq<Mask>, n: nat, ghost setup: seq<PortView>)
      requires n < |blocks| && Stage(masks, n, setup) == true
      modifies blocks, Plugged(ports)
      ensures Stage(masks, n + 1, setup) == true
    {
      ghost var b, cast, before := blocks[n], CastNow(), Views(ports);
      NoneMissing(setup);
      var code := SetCoremask(n, masks[n]);
      assert Took(b);
      assert CastNow() == cast[b := b.vcores];
      UpToStep(blocks, cast, b.vcores, before, Views(ports), masks, n);
    }

    lemma NoneMissing(setup: seq<PortView>)
      requires SameSetup(setup, Views(ports))
      ensures Empty !in setup <==> AllAttached(ports)
    {
      forall q | 0 <= q < ports.Length
        ensures setup[q] == Empty <==> ports[q] == null
      {
        assert Hardware(setup[q]) == Hardware(Views(ports)[q]);
      }
      assert forall q :: 0 <= q < ports.Length ==> setup[q] in setup;
    }

    lemma ClearedUpToZero(masks: seq<Mask>)
      requires Cleared()
      ensures UpTo(blocks, CastNow(), Views(ports), masks, 0)
    {
      assert forall d, q :: 0 <= q < ports.Length && ports[q] != null ==>
        HoldersOf(Views(ports)[q], d) == ports[q].Holders(d);
    }

    /** One coremask for each of the remaining blocks. */
    method SetCoremasks(masks: seq<Mask>, n: nat, ghost setup: seq<PortView>)
      requires n <= |blocks| && Stage(masks, n, setup) == true
      modifies blocks, Plugged(ports)
      ensures Stage(masks, |blocks|, setup) == true
      decreases |blocks| - n
    {
      hide Stage;
      if n < |blocks| {
        SetNext(masks, n, setup);
        SetCoremasks(masks, n + 1, setup);
      }
    }

    method DeployMasks(masks: seq<Mask>, fails: set<nat>, ghost views: seq<PortView>, ghost cast: Cast)
      returns (r: Exit)
      requires |masks| == |blocks| && Stands(views, cast) == true && UpTo(blocks, cast, views, masks, |blocks|) == true
      modifies NicSides(ports), DeqEnds(ports)`deqAccessors, EnqEnds(ports)`enqAccessors
      ensures Stands(views, cast) == true
      ensures (r == Returned(0)) == (Ready(views) && Fits(blocks, masks, views) && Launches(masks, fails))
      ensures r == Returned(0) ==> DealtUpTo(ports.Length) == true
    {
      if Ready(views) {
        FitsIsDone(blocks, masks, views);
      }
      MasksLaunch(blocks, cast, views, masks, fails);
      r := Deploy(fails);
    }

    method Prepare(masks: seq<Mask>) returns (r: Exit)
      requires Valid() && |masks| == |blocks|
      modifies blocks, Plugged(ports)
      ensures blocks == old(blocks)
      ensures r == Returned(0) <==> AllAttached(ports)
      ensures r == Returned(0) ==> Valid() && UpTo(blocks, CastNow(), Views(ports), masks, |blocks|)
      ensures r == Returned(0) ==>
        && (Ready(Views(ports)) <==> old(Ready(Views(ports))))
        && (Fits(blocks, masks, Views(ports)) <==> Fits(blocks, masks, old(Views(ports))))
    {
      r := Reset();
      if r == Returned(0) {
        ghost var setup := old(Views(ports));
        ClearedUpToZero(masks);
        NoneMissing(setup);
        SetCoremasks(masks, 0, setup);
        SetupDecides(blocks, masks, setup, Views(ports));
      }
    }

    /** The documented life of a VNF: reset, one coremask per block, deploy.
        It succeeds exactly when every port is plugged in and deployable, no
        mask is zero, the number of access ids asked for divides the queues of
        each side of each port, and the threads can be launched. */
    method BringUp(masks: seq<Mask>, fails: set<nat>) returns (r: Exit)
      requires Valid() && |masks| == |blocks|
      modifies blocks, Plugged(ports), NicSides(ports), DeqEnds(ports)`deqAccessors, EnqEnds(ports)`enqAccessors
      ensures blocks == old(blocks)
      ensures r == Returned(0) <==>
        && old(Ready(Views(ports))) && Fits(blocks, masks, old(Views(ports)))
        && Launches(masks, fails)
      ensures r == Returned(0) ==> Valid() && UpTo(blocks, CastNow(), Views(ports), masks, |blocks|)
      ensures r == Returned(0) ==> Ready(Views(ports)) && Fits(blocks, masks, Views(ports)) && DealtUpTo(ports.Length)
    {
      r := Prepare(masks);
      if r == Returned(0) {
        r := DeployMasks(masks, fails, Views(ports), CastNow());
      }
    }

    /** The queues that virtual core `k` of `b` uses on side `d` of port `q`. */
    ghost function Uses(b: Block, k: nat, d: Dir, q: nat): seq<nat>
      requires b in blocks && k < |b.vcores| && q < ports.Length && ports[q] != null
      reads this, ports, Plugged(ports), blocks
      reads NicSides(ports), DeqEnds(ports)`deqAccessors, EnqEnds(ports)`enqAccessors
    {
      var accessors := ports[q].Accessors(d);
      var a := AidOf(b.vcores[k], d, q);
      if a < |accessors| then accessors[a].ques else []
    }

    /** Once deployed, a virtual core owns no queue of a side it asked, so that its first burst there takes a remainder
        by zero, exactly when that side has no queues. */
    lemma OwnsNoneIff(masks: seq<Mask>, b: Block, k: nat, d: Dir, q: nat)
      requires Valid() && |masks| == |blocks| && UpTo(blocks, CastNow(), Views(ports), masks, |blocks|)
      requires Ready(Views(ports)) && Fits(blocks, masks, Views(ports)) && DealtUpTo(ports.Length)
      requires q < ports.Length && b in blocks && k < |b.vcores| && b.Asks(d, q)
      ensures Uses(b, k, d, q) == [] <==> ports[q].Queues(d) == 0
    {
      var holders := HoldersOf(Views(ports)[q], d);
      assert ports[q].Dealt(d);
      assert Asking(CastNow(), b, k, d, q) && Held(CastNow(), holders, d, q);
      SideFitsIff(blocks, masks, Views(ports), d, q);
      assert holders == ports[q].Holders(d) && |holders| == ports[q].Accesses(d);
      SliceEmptyIff(ports[q].Queues(d), |holders|, AidOf(b.vcores[k], d, q));
    }

    /** Once deployed, no queue of a port is used by two virtual cores, and
        every queue of a side that somebody asked for is used by one. */
    lemma QueuesAreOwnedOnce(masks: seq<Mask>, d: Dir, q: nat, x: nat)
      requires Valid() && |masks| == |blocks| && UpTo(blocks, CastNow(), Views(ports), masks, |blocks|)
      requires Ready(Views(ports)) && Fits(blocks, masks, Views(ports)) && DealtUpTo(ports.Length)
      requires q < ports.Length && ports[q].Accesses(d) != 0
      ensures forall b, k: nat, c, j: nat ::
        && b in blocks && k < |b.vcores| && b.Asks(d, q) && x in Uses(b, k, d, q)
        && c in blocks && j < |c.vcores| && c.Asks(d, q) && x in Uses(c, j, d, q)
        ==> b == c && k == j
      ensures x < ports[q].Queues(d) <==>
        exists b, k: nat :: b in blocks && k < |b.vcores| && b.Asks(d, q) && x in Uses(b, k, d, q)
    {
      var cast, holders := CastNow(), HoldersOf(Views(ports)[q], d);
      var n := ports[q].Queues(d);
      SideFitsIff(blocks, masks, Views(ports), d, q);
      assert ports[q].Dealt(d);
      assert holders == ports[q].Holders(d) && |holders| == ports[q].Accesses(d);
      QueuesShared(cast, holders, d, q, n, x);
      forall b, k: nat | b in blocks && k < |b.vcores| && b.Asks(d, q)
        ensures Asking(cast, b, k, d, q) && Uses(b, k, d, q) == QueuesOf(cast, b, k, d, q, n, |holders|)
      {
        assert Asking(cast, b, k, d, q);
      }
    }
  }
}
