/** Who owns which access id of a port, and hence which queues: no two virtual
    cores ever hold the same one, and the ids given out are all held exactly
    as long as no block takes a second coremask. */
module VnfOwners {
  import opened Coremask
  import opened QueueAccess
  import opened VnfAccess

  // ---- Who holds which access id ----

  /** The virtual cores of each block. */
  type Cast = map<Block, seq<Vcore>>

  ghost predicate Asking(cast: Cast, b: Block, k: nat, d: Dir, q: nat) {
    b in cast && k < |cast[b]| && b.Asks(d, q)
  }

  /** Every virtual core is the one the port gave its access id to; so two
      different virtual cores never hold the same one. */
  ghost predicate Held(cast: Cast, holders: seq<Holder>, d: Dir, q: nat) {
    forall b, k: nat :: b in cast && Asking(cast, b, k, d, q) ==>
      && AidOf(cast[b][k], d, q) < |holders|
      && holders[AidOf(cast[b][k], d, q)] == (b, k)
  }

  /** Every access id given out is held by the virtual core that asked. */
  ghost predicate Exact(cast: Cast, holders: seq<Holder>, d: Dir, q: nat) {
    forall a :: 0 <= a < |holders| ==>
      && Asking(cast, holders[a].0, holders[a].1, d, q)
      && AidOf(cast[holders[a].0][holders[a].1], d, q) == a
  }

  lemma HeldApart(cast: Cast, holders: seq<Holder>, d: Dir, q: nat, b: Block, k: nat, c: Block, j: nat)
    requires Held(cast, holders, d, q)
    requires Asking(cast, b, k, d, q) && Asking(cast, c, j, d, q)
    ensures AidOf(cast[b][k], d, q) == AidOf(cast[c][j], d, q) ==> b == c && k == j
  {
  }

  /** A new coremask for `b` keeps every access id with a single holder. */
  lemma HeldKept(cast: Cast, holders: seq<Holder>, b: Block, vs: seq<Vcore>, d: Dir, q: nat)
    requires b in cast && Held(cast, holders, d, q) && NewIds(b, vs, |holders|, d, q)
    ensures Held(cast[b := vs], holders + Given(b, 0, |vs|, d, q), d, q)
  {
    var now, cast' := holders + Given(b, 0, |vs|, d, q), cast[b := vs];
    forall c, k: nat | Asking(cast', c, k, d, q)
      ensures AidOf(cast'[c][k], d, q) < |now| && now[AidOf(cast'[c][k], d, q)] == (c, k)
    {
      if c != b {
        assert Asking(cast, c, k, d, q);
      }
    }
  }

  /** It keeps every access id in use exactly when `b` held none: the ids of
      replaced virtual cores are never given back. */
  lemma ExactIff(cast: Cast, holders: seq<Holder>, b: Block, vs: seq<Vcore>, d: Dir, q: nat)
    requires b in cast && NewIds(b, vs, |holders|, d, q)
    requires Held(cast, holders, d, q) && Exact(cast, holders, d, q)
    ensures Exact(cast[b := vs], holders + Given(b, 0, |vs|, d, q), d, q)
        <==> !b.Asks(d, q) || cast[b] == []
  {
    var now, cast' := holders + Given(b, 0, |vs|, d, q), cast[b := vs];
    assert forall a :: 0 <= a < |holders| ==> now[a] == holders[a];
    if b.Asks(d, q) && cast[b] != [] {
      var a := AidOf(cast[b][0], d, q);
      assert Asking(cast, b, 0, d, q);
      assert now[a] == (b, 0);
    } else {
      forall a | 0 <= a < |now|
        ensures Asking(cast', now[a].0, now[a].1, d, q) && AidOf(cast'[now[a].0][now[a].1], d, q) == a
      {
        if a < |holders| {
          assert Asking(cast, holders[a].0, holders[a].1, d, q);
          assert holders[a].0 != b;
        } else {
          assert now[a] == Own(b, 0, |vs|)[a - |holders|];
        }
      }
    }
  }

  /** The same, for the ports as they are before and after the coremask. */
  lemma MaskStep(cast: Cast, b: Block, vs: seq<Vcore>, before: seq<PortView>, now: seq<PortView>, d: Dir, q: nat)
    requires b in cast && q < |before| && before[q] != Empty
    requires ServedAll(b, vs, before, now, |vs|)
    requires Held(cast, HoldersOf(before[q], d), d, q)
    ensures Held(cast[b := vs], HoldersOf(now[q], d), d, q)
    ensures Exact(cast, HoldersOf(before[q], d), d, q) ==>
      (Exact(cast[b := vs], HoldersOf(now[q], d), d, q) <==> !b.Asks(d, q) || cast[b] == [])
    ensures |HoldersOf(now[q], d)| == |HoldersOf(before[q], d)| + if b.Asks(d, q) then |vs| else 0
  {
    var holders := HoldersOf(before[q], d);
    assert NewIds(b, vs, |holders|, d, q) by {
      assert vs[..|vs|] == vs;
    }
    assert HoldersOf(now[q], d) == holders + Given(b, 0, |vs|, d, q) by {
      assert now[q] == Grown(before[q], b, 0, |vs|, q);
    }
    HeldKept(cast, holders, b, vs, d, q);
    if Exact(cast, holders, d, q) {
      ExactIff(cast, holders, b, vs, d, q);
    }
  }

  /** The queues that virtual core `k` of `b` uses on side `d` of port `q`. */
  ghost function QueuesOf(cast: Cast, b: Block, k: nat, d: Dir, q: nat, nQue: nat, nAcc: nat): seq<nat>
    requires Asking(cast, b, k, d, q) && 0 < nAcc
  {
    Slice(nQue, nAcc, AidOf(cast[b][k], d, q))
  }

  /** When the counts divide, two different virtual cores use no queue in
      common, and if every access id is in use then every queue is used. */
  lemma QueuesShared(cast: Cast, holders: seq<Holder>, d: Dir, q: nat, nQue: nat, x: nat)
    requires Held(cast, holders, d, q) && holders != [] && nQue % |holders| == 0
    ensures forall b, k: nat, c, j: nat ::
      && Asking(cast, b, k, d, q) && x in QueuesOf(cast, b, k, d, q, nQue, |holders|)
      && Asking(cast, c, j, d, q) && x in QueuesOf(cast, c, j, d, q, nQue, |holders|)
      ==> b == c && k == j
    ensures Exact(cast, holders, d, q) && x < nQue ==>
      exists b, k: nat :: Asking(cast, b, k, d, q) && x in QueuesOf(cast, b, k, d, q, nQue, |holders|)
    ensures forall b, k: nat :: Asking(cast, b, k, d, q) && x in QueuesOf(cast, b, k, d, q, nQue, |holders|) ==>
        x < nQue
  {
    var n := |holders|;
    forall b, k: nat | Asking(cast, b, k, d, q) && x in QueuesOf(cast, b, k, d, q, nQue, n)
      ensures x < nQue && AidOf(cast[b][k], d, q) == x / (nQue / n)
    {
      SlicesPartition(nQue, n, AidOf(cast[b][k], d, q), x);
    }
    if Exact(cast, holders, d, q) && x < nQue {
      SlicesPartition(nQue, n, 0, x);
      var a := x / (nQue / n);
      SlicesPartition(nQue, n, a, x);
      var b, k := holders[a].0, holders[a].1;
      assert Asking(cast, b, k, d, q) && x in QueuesOf(cast, b, k, d, q, nQue, n);
    }
  }

  /** How many access ids of side `d` of port `q` the first `n` blocks ask for
      under these masks. */
  function Wanted(blocks: seq<Block>, masks: seq<Mask>, d: Dir, q: nat, n: nat): nat
    requires n <= |blocks| && n <= |masks|
  {
    if n == 0 then 0
    else Wanted(blocks, masks, d, q, n - 1) + if blocks[n - 1].Asks(d, q) then |Cores(masks[n - 1])| else 0
  }

  /** Since the last reset the first `n` blocks took their coremasks, and
      every access id given out is held by one of their virtual cores. */
  ghost predicate UpTo(blocks: seq<Block>, cast: Cast, views: seq<PortView>, masks: seq<Mask>, n: nat) {
    && n <= |blocks| && n <= |masks|
    && (forall b :: b in blocks ==> b in cast)
    && (forall j :: 0 <= j < n ==> LcoresOf(cast[blocks[j]]) == Cores(masks[j]))
    && (forall j :: n <= j < |blocks| ==> cast[blocks[j]] == [])
    && Owned(cast, views) && Counted(blocks, masks, views, n)
  }

  lemma UpToStep(blocks: seq<Block>, cast: Cast, vs: seq<Vcore>, before: seq<PortView>, now: seq<PortView>,
                 masks: seq<Mask>, n: nat)
    requires n < |blocks| && n < |masks| && UpTo(blocks, cast, before, masks, n)
    requires forall i, j :: 0 <= i < j < |blocks| ==> blocks[i] != blocks[j]
    requires Empty !in before
    requires ServedAll(blocks[n], vs, before, now, |vs|) && LcoresOf(vs) == Cores(masks[n])
    ensures UpTo(blocks, cast[blocks[n] := vs], now, masks, n + 1)
  {
    OwnedStep(cast, blocks[n], vs, before, now);
    CountedStep(blocks, masks, n, vs, before, now);
  }

  /** The same ports with the same queues are plugged in. */
  ghost predicate SameSetup(before: seq<PortView>, now: seq<PortView>) {
    |before| == |now| && forall q :: 0 <= q < |now| ==> Hardware(before[q]) == Hardware(now[q])
  }

  ghost function Hardware(v: PortView): PortView {
    if v.Empty? then v else v.(rx := [], tx := [])
  }

  /** On every port, the access ids are exactly those that the virtual cores
      hold, each held by one. */
  ghost predicate Owned(cast: Cast, views: seq<PortView>) {
    forall d, q :: 0 <= q < |views| ==>
      Held(cast, HoldersOf(views[q], d), d, q) && Exact(cast, HoldersOf(views[q], d), d, q)
  }

  ghost predicate Counted(blocks: seq<Block>, masks: seq<Mask>, views: seq<PortView>, n: nat)
    requires n <= |blocks| && n <= |masks|
  {
    forall d, q :: 0 <= q < |views| ==> |HoldersOf(views[q], d)| == Wanted(blocks, masks, d, q, n)
  }

  lemma OwnedStep(cast: Cast, b: Block, vs: seq<Vcore>, before: seq<PortView>, now: seq<PortView>)
    requires Owned(cast, before) && Empty !in before
    requires b in cast && cast[b] == [] && ServedAll(b, vs, before, now, |vs|)
    ensures Owned(cast[b := vs], now)
  {
    forall d, q | 0 <= q < |now|
      ensures Held(cast[b := vs], HoldersOf(now[q], d), d, q) && Exact(cast[b := vs], HoldersOf(now[q], d), d, q)
    {
      MaskStep(cast, b, vs, before, now, d, q);
    }
  }

  lemma CountedStep(blocks: seq<Block>, masks: seq<Mask>, n: nat, vs: seq<Vcore>,
                    before: seq<PortView>, now: seq<PortView>)
    requires n < |blocks| && n < |masks| && Counted(blocks, masks, before, n) && Empty !in before
    requires ServedAll(blocks[n], vs, before, now, |vs|) && |vs| == |Cores(masks[n])|
    ensures Counted(blocks, masks, now, n + 1)
  {
    forall d, q | 0 <= q < |now|
      ensures |HoldersOf(now[q], d)| == Wanted(blocks, masks, d, q, n + 1)
    {
      assert now[q] == Grown(before[q], blocks[n], 0, |vs|, q);
    }
  }

  ghost predicate Ready(views: seq<PortView>) {
    forall q :: 0 <= q < |views| ==> views[q].View? && !views[q].link.Unpatched?
  }

  /** What the blocks ask for under these masks divides the queues; a ring must be asked for something. */
  ghost predicate Fits(blocks: seq<Block>, masks: seq<Mask>, views: seq<PortView>)
    requires |blocks| == |masks|
  {
    FitsBelow(blocks, masks, views, |views|)
  }

  ghost predicate FitsBelow(blocks: seq<Block>, masks: seq<Mask>, views: seq<PortView>, n: nat)
    requires |blocks| == |masks| && n <= |views|
  {
    forall d, q :: 0 <= q < n && views[q].View? ==> SideFits(views[q], d, Wanted(blocks, masks, d, q, |blocks|))
  }

  predicate SideFits(v: PortView, d: Dir, w: nat)
    requires v.View?
  {
    if w == 0 then !v.link.Patched? else QueuesIn(v, d) % w == 0
  }

  function QueuesIn(v: PortView, d: Dir): nat
    requires v.View?
  {
    if d.Rx? then v.nRxq else v.nTxq
  }

  ghost function SideOutcome(v: PortView, d: Dir): Outcome
    requires v.View?
  {
    var n := |HoldersOf(v, d)|;
    if n == 0 then (if v.link.Patched? then DivisionByZero else Done)
    else if QueuesIn(v, d) % n != 0 then Thrown else Done
  }

  /** How dealing out the queues of a port ends: the receive side comes first. */
  ghost function PortOutcome(v: PortView): Outcome
    requires v.View?
  {
    if SideOutcome(v, Rx) != Done then SideOutcome(v, Rx) else SideOutcome(v, Tx)
  }

  /** How it ends for the first `n` ports: at the first one that does not succeed. */
  ghost function OutcomeUpTo(views: seq<PortView>, n: nat): Outcome
    requires n <= |views| && Ready(views)
  {
    if n == 0 then Done
    else if OutcomeUpTo(views, n - 1) != Done then OutcomeUpTo(views, n - 1) else PortOutcome(views[n - 1])
  }

  lemma {:induction false} OutcomeStays(views: seq<PortView>, n: nat, m: nat)
    requires n <= m <= |views| && Ready(views) && OutcomeUpTo(views, n) != Done
    ensures OutcomeUpTo(views, m) == OutcomeUpTo(views, n)
    decreases m
  {
    if n < m {
      OutcomeStays(views, n, m - 1);
    }
  }

  /** The queues can be dealt out exactly when what the masks ask for fits. */
  lemma FitsIsDone(blocks: seq<Block>, masks: seq<Mask>, views: seq<PortView>)
    requires |blocks| == |masks| && Counted(blocks, masks, views, |blocks|) && Ready(views)
    ensures Fits(blocks, masks, views) == (OutcomeUpTo(views, |views|) == Done)
  {
    FitsUpTo(blocks, masks, views, |views|);
  }

  lemma {:induction false} FitsUpTo(blocks: seq<Block>, masks: seq<Mask>, views: seq<PortView>, n: nat)
    requires |blocks| == |masks| && Counted(blocks, masks, views, |blocks|) && Ready(views) && n <= |views|
    ensures (OutcomeUpTo(views, n) == Done) == FitsBelow(blocks, masks, views, n)
    decreases n
  {
    if n != 0 {
      FitsUpTo(blocks, masks, views, n - 1);
      SideFitsIff(blocks, masks, views, Rx, n - 1);
      SideFitsIff(blocks, masks, views, Tx, n - 1);
      FitsOneMore(blocks, masks, views, n - 1);
    }
  }

  lemma FitsOneMore(blocks: seq<Block>, masks: seq<Mask>, views: seq<PortView>, n: nat)
    requires |blocks| == |masks| && n < |views| && views[n].View?
    ensures FitsBelow(blocks, masks, views, n + 1) == (FitsBelow(blocks, masks, views, n)
      && SideFits(views[n], Rx, Wanted(blocks, masks, Rx, n, |blocks|))
      && SideFits(views[n], Tx, Wanted(blocks, masks, Tx, n, |blocks|)))
  {
    if FitsBelow(blocks, masks, views, n) && SideFits(views[n], Rx, Wanted(blocks, masks, Rx, n, |blocks|))
       && SideFits(views[n], Tx, Wanted(blocks, masks, Tx, n, |blocks|)) {
      forall d, q | 0 <= q < n + 1 && views[q].View?
        ensures SideFits(views[q], d, Wanted(blocks, masks, d, q, |blocks|))
      {
        if q == n {
          match d case Rx => case Tx =>
        }
      }
    }
  }

  lemma SideFitsIff(blocks: seq<Block>, masks: seq<Mask>, views: seq<PortView>, d: Dir, q: nat)
    requires |blocks| == |masks| && Counted(blocks, masks, views, |blocks|) && Ready(views) && q < |views|
    ensures SideOutcome(views[q], d) == Done <==> SideFits(views[q], d, Wanted(blocks, masks, d, q, |blocks|))
  {
    assert |HoldersOf(views[q], d)| == Wanted(blocks, masks, d, q, |blocks|);
  }

  predicate Launches(masks: seq<Mask>, fails: set<nat>) {
    forall i :: 0 <= i < |masks| ==> masks[i] != 0 && forall c :: c in Cores(masks[i]) ==> c !in fails
  }

  predicate CoresLaunch(vs: seq<Vcore>, fails: set<nat>) {
    vs != [] && forall c :: c in LcoresOf(vs) ==> c !in fails
  }

  /** Every block has virtual cores, and on each of them a thread can be launched. */
  ghost predicate CastLaunches(cast: Cast, fails: set<nat>) {
    forall b :: b in cast ==> CoresLaunch(cast[b], fails)
  }

  lemma MasksLaunch(blocks: seq<Block>, cast: Cast, views: seq<PortView>, masks: seq<Mask>, fails: set<nat>)
    requires |masks| == |blocks| && UpTo(blocks, cast, views, masks, |blocks|)
    requires forall b :: b in cast ==> b in blocks
    ensures Launches(masks, fails) == CastLaunches(cast, fails)
  {
    forall i | 0 <= i < |blocks|
      ensures CoresLaunch(cast[blocks[i]], fails)
        == (masks[i] != 0 && forall c :: c in Cores(masks[i]) ==> c !in fails)
    {
      NoCoresIffZero(masks[i]);
    }
    if Launches(masks, fails) {
      forall b | b in cast
        ensures CoresLaunch(cast[b], fails)
      {
        var i :| 0 <= i < |blocks| && blocks[i] == b;
      }
    }
  }

  lemma SetupDecides(blocks: seq<Block>, masks: seq<Mask>, before: seq<PortView>, now: seq<PortView>)
    requires SameSetup(before, now) && |blocks| == |masks|
    ensures Ready(before) <==> Ready(now)
    ensures Fits(blocks, masks, before) <==> Fits(blocks, masks, now)
  {
    assert forall q :: 0 <= q < |now| ==> (before[q].View? <==> now[q].View?);
    forall q | 0 <= q < |now| && now[q].View?
      ensures before[q].link == now[q].link && before[q].nRxq == now[q].nRxq && before[q].nTxq == now[q].nTxq
    {
      assert Hardware(before[q]) == Hardware(now[q]);
    }
    assert forall d, q :: 0 <= q < |now| && now[q].View? ==>
      SideFits(before[q], d, Wanted(blocks, masks, d, q, |blocks|))
      == SideFits(now[q], d, Wanted(blocks, masks, d, q, |blocks|));
  }
}
