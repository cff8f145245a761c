/**
 What the operations of one lthread scheduler lead to over runs: nobody overtakes in the ready queue, a thread that is
 not running does not change, and a thread woken from a condition variable, a mutex or a join gets on when its turn
 comes.
 */
module SchedulerRuns {
  import opened Common
  import opened Scheduler
  import opened SchedulerEffects

  // ---------------------------------------------------------------- one step

  /** Something is appended to the ready queue, and a dispatch takes its first entry. */
  ghost predicate InOrder(s: State, s': State, step: Step) {
    && (step == Dispatch(Ready) ==> Q(s, Ready) != [])
    && (if step == Dispatch(Ready) then Q(s, Ready)[1..] else Q(s, Ready)) <= Q(s', Ready)
  }

  /** What a bystander keeps. */
  predicate Unmoved(s: State, s': State, t: Tid) {
    && t in s.threads && t in s'.threads && s'.threads[t].pc == s.threads[t].pc
    && s'.threads[t].exited == s.threads[t].exited && s'.threads[t].detached == s.threads[t].detached
  }

  /** The step resumes thread t. */
  predicate Takes(s: State, step: Step, t: Tid) {
    step.Dispatch? && Q(s, step.q) != [] && Q(s, step.q)[0] == t
  }

  /** A thread that neither runs nor is dispatched is left as it is, wherever it may be put. */
  ghost predicate Leaves(s: State, s': State, step: Step) {
    forall t :: t in s.threads && s.current != Some(t) && !Takes(s, step, t) ==> Unmoved(s, s', t)
  }

  lemma OnlyLeaves(s: State, s': State, step: Step, qs: set<Queue>, ms: set<nat>, ts: set<Tid>)
    requires Only(s, s', qs, ms, ts)
    requires forall t :: t in ts && t in s.threads && s.current != Some(t) && !Takes(s, step, t) ==> Unmoved(s, s', t)
    ensures Leaves(s, s', step) && (Ready !in qs ==> Q(s', Ready) == Q(s, Ready))
  {
  }

  lemma LockSteps(s: State, step: Step)
    requires Inv(s) && Enabled(s, step) && (step.Lock? || step.TryLock? || step.Unlock?)
    ensures InOrder(s, After(s, step), step) && Leaves(s, After(s, step), step)
  {
    hide Inv, After, Only, M;
    var s', t := After(s, step), s.current.value;
    match step {
      case Lock(m) =>
        LockTakesOrBlocks(s, m);
        if s' != s && M(s, m).owner == None {
          OnlyLeaves(s, s', step, {}, {m}, {});
        } else if s' != s {
          OnlyLeaves(s, s', step, {MutexQ(m)}, {m}, {t});
        }
      case TryLock(m) =>
        TryLockNeverBlocks(s, m);
        if s' != s {
          OnlyLeaves(s, s', step, {}, {m}, {});
        }
      case Unlock(m) =>
        UnlockWakesFirst(s, m);
        if s' != s && Q(s, MutexQ(m)) != [] {
          OnlyLeaves(s, s', step, {MutexQ(m), Ready}, {m}, {Q(s, MutexQ(m))[0]});
        } else if s' != s {
          OnlyLeaves(s, s', step, {}, {m}, {});
        }
    }
  }

  lemma CondSteps(s: State, step: Step)
    requires Inv(s) && Enabled(s, step) && (step.Wait? || step.Signal? || step.Broadcast?)
    ensures InOrder(s, After(s, step), step) && Leaves(s, After(s, step), step)
  {
    hide Inv, After, Only, M;
    var s', t := After(s, step), s.current.value;
    match step {
      case Wait(c) =>
        WaitGoesLast(s, c);
        OnlyLeaves(s, s', step, {CondQ(c)}, {}, {t});
      case Signal(c) =>
        SignalWakesFirst(s, c);
        if s' != s && Q(s, CondQ(c)) != [] {
          OnlyLeaves(s, s', step, {CondQ(c), Ready}, {}, {Q(s, CondQ(c))[0]});
        }
      case Broadcast(c) =>
        BroadcastWakesAll(s, c);
        BroadcastLeaves(s, c);
    }
  }

  lemma BroadcastLeaves(s: State, c: nat)
    requires Inv(s) && Enabled(s, Broadcast(c))
    ensures var s' := After(s, Broadcast(c)); InOrder(s, s', Broadcast(c)) && Leaves(s, s', Broadcast(c))
  {
    hide Inv, After, Only, M;
    var s', t, step := After(s, Broadcast(c)), s.current.value, Broadcast(c);
    BroadcastWakesAll(s, c);
    var s1 :| AllReady(s, s1, CondQ(c)) && t in s1.threads && s1.threads[t] == s.threads[t]
              && Only(s1, s', {Ready}, {}, {t}) && s'.current == None && s'.blocked == s.blocked
              && GoesTo(s1, s', t, User, Ready);
    OnlyLeaves(s, s1, step, {CondQ(c), Ready}, {}, Members(Q(s, CondQ(c))));
    OnlyLeaves(s1, s', step, {Ready}, {}, {t});
  }

  lemma ThreadSteps(s: State, step: Step)
    requires Inv(s) && Enabled(s, step)
    requires step.Create? || step.PeerCreate? || step.Yield? || step.Detach? || step.Shutdown? || step.Dispatch?
    ensures InOrder(s, After(s, step), step) && Leaves(s, After(s, step), step)
  {
    hide Inv, Only, M;
    var s' := After(s, step);
    match step {
      case Create(n) =>
        CreateAppends(s, n);
        OnlyLeaves(s, s', step, {Ready}, {}, {n});
      case PeerCreate(n) =>
        PeerCreateAppends(s, n);
        OnlyLeaves(s, s', step, {Peer}, {}, {n});
      case Yield =>
        YieldGoesLast(s);
        OnlyLeaves(s, s', step, {Ready}, {}, {s.current.value});
      case Detach =>
        DetachMarks(s);
        OnlyLeaves(s, s', step, {}, {}, {s.current.value});
      case Dispatch(q) =>
        DispatchTakesFirst(s, q);
        var same := if s'.current == None then s'.(freed := s.freed, leaked := s.leaked) else s';
        OnlyLeaves(s, same, step, {q}, {}, {Q(s, q)[0]});
      case _ =>
    }
  }

  lemma JoinSteps(s: State, step: Step)
    requires Inv(s) && Enabled(s, step) && JoinsOnce(s, step) && (step.Exit? || step.Return? || step.JoinThread?)
    ensures InOrder(s, After(s, step), step) && Leaves(s, After(s, step), step)
  {
    hide Inv, After, Only, M;
    var s', t := After(s, step), s.current.value;
    match step {
      case Exit =>
        ExitEffect(s);
        if !s.threads[t].detached {
          BeginsLeaves(s, s', step, t, s.threads[t].exited, false);
        }
      case Return =>
        ReturnEffect(s);
        if s.threads[t].detached {
          OnlyLeaves(s, s', step, {Ready}, {}, {t});
        } else {
          BeginsLeaves(s, s', step, t, true, true);
        }
      case JoinThread(x) =>
        JoinEffect(s, x);
        if s.threads[x].detached || s.threads[x].join == ThreadSet {
        } else if s.threads[x].join == Initial {
          OnlyLeaves(s, s', step, {}, {}, {t, x});
        } else {
          OnlyLeaves(s, s', step, {Ready}, {}, {t, x});
        }
    }
  }

  lemma BeginsLeaves(s: State, s': State, step: Step, t: Tid, exited: bool, handler: bool)
    requires t in s.threads && s.current == Some(t) && ExitBegins(s, s', t, exited, handler) && !step.Dispatch?
    ensures InOrder(s, s', step) && Leaves(s, s', step)
  {
    hide Only, M;
    match s.threads[t].ltJoin {
      case None => OnlyLeaves(s, s', step, {}, {}, {t});
      case Some(j) => OnlyLeaves(s, s', step, {Ready}, {}, {t, j});
    }
  }

  lemma ContinueStep(s: State)
    requires Inv(s) && Enabled(s, Continue)
    ensures InOrder(s, After(s, Continue), Continue) && Leaves(s, After(s, Continue), Continue)
  {
    hide Inv, After, Only, M;
    var s', t, step := After(s, Continue), s.current.value, Continue;
    match s.threads[t].pc {
      case InLock(m) =>
        LockGoesOn(s, m);
        if M(s, m).owner == None {
          OnlyLeaves(s, s', step, {}, {m}, {t});
        } else {
          OnlyLeaves(s, s', step, {MutexQ(m)}, {m}, {t});
        }
      case InCond(c) =>
        WaitGoesOn(s, c);
        OnlyLeaves(s, s', step, {}, {}, {t});
      case ExitParked(h) =>
        ExitGoesOn(s, h);
        OnlyLeaves(s, s', step, {Ready}, {}, {t});
      case ExitWait(h) =>
        ExitGoesOn(s, h);
        if s'.current == None {
          OnlyLeaves(s, s', step, {Ready}, {}, {t});
        } else {
          OnlyLeaves(s, s', step, {}, {}, {t});
        }
      case JoinParked(x) => JoinLeaves(s, x);
      case JoinWait(x) => JoinLeaves(s, x);
      case _ =>
    }
  }

  lemma JoinLeaves(s: State, x: Tid)
    requires Inv(s) && Enabled(s, Continue)
    requires s.threads[s.current.value].pc == JoinParked(x) || s.threads[s.current.value].pc == JoinWait(x)
    ensures InOrder(s, After(s, Continue), Continue) && Leaves(s, After(s, Continue), Continue)
  {
    hide Inv, After, Only, M;
    var s', t := After(s, Continue), s.current.value;
    JoinGoesOn(s, x);
    if s.threads[x].join == ValSet {
      OnlyLeaves(s, s', Continue, {}, {}, {t, x});
    } else {
      OnlyLeaves(s, s', Continue, {Ready}, {}, {t});
    }
  }

  /** In the ready queue nobody overtakes, and a thread changes only while it runs. */
  lemma NobodyOvertakes(s: State, step: Step)
    requires Inv(s) && Enabled(s, step) && JoinsOnce(s, step)
    ensures InOrder(s, After(s, step), step) && Leaves(s, After(s, step), step)
  {
    hide Inv, Enabled, After, InOrder, Leaves, JoinsOnce;
    match step {
      case Continue => ContinueStep(s);
      case Lock(_) => LockSteps(s, step);
      case TryLock(_) => LockSteps(s, step);
      case Unlock(_) => LockSteps(s, step);
      case Wait(_) => CondSteps(s, step);
      case Signal(_) => CondSteps(s, step);
      case Broadcast(_) => CondSteps(s, step);
      case Exit => JoinSteps(s, step);
      case Return => JoinSteps(s, step);
      case JoinThread(_) => JoinSteps(s, step);
      case _ => ThreadSteps(s, step);
    }
  }

  // ---------------------------------------------------------------- runs

  /** How often the ready queue is polled. */
  function Turns(steps: seq<Step>): nat {
    if steps == [] then 0 else (if steps[0] == Dispatch(Ready) then 1 else 0) + Turns(steps[1..])
  }

  lemma NotTaken(s: State, step: Step, i: nat)
    requires Inv(s) && Enabled(s, step) && i < |Q(s, Ready)| && (step == Dispatch(Ready) ==> i > 0)
    ensures var t := Q(s, Ready)[i]; t in s.threads && s.current != Some(t) && !Takes(s, step, t)
  {
    var t := Q(s, Ready)[i];
    assert QueueOk(s, Ready) && QueueOk(s, Peer) && PlaceOk(s, t);
  }

  /** A ready thread waits for exactly as many polls as there are threads in front of it, and until then keeps its
      continuation, whatever the others do. */
  lemma {:induction false} WaitsItsTurn(s: State, steps: seq<Step>, i: nat)
    requires Inv(s) && PoliteRun(s, steps) && i < |Q(s, Ready)| && Turns(steps) <= i
    ensures Run(s, steps).Some? && Inv(Run(s, steps).value)
    ensures var s' := Run(s, steps).value;
            var k := i - Turns(steps);
            k < |Q(s', Ready)| && Q(s', Ready)[k] == Q(s, Ready)[i] && Unmoved(s, s', Q(s, Ready)[i])
    decreases |steps|
  {
    hide Inv, Enabled, After;
    if steps == [] {
      InQueueLives(s, Ready, i);
    } else {
      var step, s1 := steps[0], After(s, steps[0]);
      StepInv(s, step);
      NotTaken(s, step, i);
      NobodyOvertakes(s, step);
      WaitsItsTurn(s1, steps[1..], if step == Dispatch(Ready) then i - 1 else i);
    }
  }

  lemma InQueueLives(s: State, q: Queue, i: nat)
    requires Inv(s) && i < |Q(s, q)|
    ensures Q(s, q)[i] in s.threads && s.threads[Q(s, q)[i]].place == InQueue(q) && LocalOk(s.threads[Q(s, q)[i]])
  {
    assert QueueOk(s, q);
  }

  /** When its turn comes the thread is resumed where it stopped. */
  lemma TurnComes(s: State, mid: seq<Step>, t: Tid) returns (s2: State, s3: State)
    requires Inv(s) && PoliteRun(s, mid) && Turns(mid) < |Q(s, Ready)| && Q(s, Ready)[Turns(mid)] == t
    requires t in s.threads && s.threads[t].pc != Fresh && !(s.threads[t].exited && s.threads[t].detached)
    requires Run(s, mid).Some? ==> Run(s, mid).value.current == None
    ensures Run(s, mid) == Some(s2) && Inv(s2) && t in s2.threads && Q(s2, Ready) != [] && Q(s2, Ready)[0] == t
    ensures Enabled(s2, Dispatch(Ready)) && After(s2, Dispatch(Ready)) == s3 && Inv(s3)
    ensures s3.current == Some(t) && t in s3.threads && s3.threads[t].pc == s.threads[t].pc
    ensures Only(s2, s3, {Ready}, {}, {t}) && Q(s3, Ready) == Q(s2, Ready)[1..] && s3.blocked == s2.blocked
  {
    hide Inv, After, Only;
    WaitsItsTurn(s, mid, Turns(mid));
    s2 := Run(s, mid).value;
    InQueueLives(s2, Ready, 0);
    s3 := After(s2, Dispatch(Ready));
    DispatchTakesFirst(s2, Ready);
    StepInv(s2, Dispatch(Ready));
  }

  lemma Resumes(s: State, s3: State)
    requires Enabled(s, Dispatch(Ready)) && After(s, Dispatch(Ready)) == s3 && Enabled(s3, Continue)
    ensures Run(s, [Dispatch(Ready), Continue]) == Some(After(s3, Continue))
  {
    TwoSteps(s, Dispatch(Ready), Continue, After(s3, Continue));
  }

  /** The first thread that waits on a condition variable is, after a signal, the polls for the threads that were
      ready before, whatever steps they make, and its own, back in its function and no longer counted as blocked. */
  lemma SignalledGetsOn(s: State, c: nat, mid: seq<Step>) returns (s2: State, s4: State)
    requires Inv(s) && Enabled(s, Signal(c)) && Q(s, CondQ(c)) != [] && Q(s, CondQ(c))[0] in s.threads
    requires !(s.threads[Q(s, CondQ(c))[0]].exited && s.threads[Q(s, CondQ(c))[0]].detached)
    requires PoliteRun(After(s, Signal(c)), mid) && Turns(mid) == |Q(s, Ready)|
    requires Run(After(s, Signal(c)), mid).Some? ==> Run(After(s, Signal(c)), mid).value.current == None
    ensures Run(After(s, Signal(c)), mid) == Some(s2) && Run(s2, [Dispatch(Ready), Continue]) == Some(s4)
    ensures var w := Q(s, CondQ(c))[0];
            s4.current == Some(w) && w in s4.threads && s4.threads[w].pc == User && s4.blocked == s2.blocked - 1
  {
    hide Inv, After, Only;
    var w, s1 := Q(s, CondQ(c))[0], After(s, Signal(c));
    InQueueLives(s, CondQ(c), 0);
    SignalWakesFirst(s, c);
    StepInv(s, Signal(c));
    var s3;
    s2, s3 := TurnComes(s1, mid, w);
    Waiting(s3, w);
    WaitGoesOn(s3, c);
    s4 := After(s3, Continue);
    Resumes(s2, s3);
  }

  /** The same for the first thread that waits for a mutex: it holds the mutex if that is free when its turn comes,
      and otherwise waits again, behind the others. */
  lemma UnlockedGetsOn(s: State, m: nat, mid: seq<Step>) returns (s2: State, s4: State)
    requires Inv(s) && Enabled(s, Unlock(m)) && M(s, m).owner == s.current
    requires Q(s, MutexQ(m)) != [] && Q(s, MutexQ(m))[0] in s.threads
    requires !(s.threads[Q(s, MutexQ(m))[0]].exited && s.threads[Q(s, MutexQ(m))[0]].detached)
    requires PoliteRun(After(s, Unlock(m)), mid) && Turns(mid) == |Q(s, Ready)|
    requires Run(After(s, Unlock(m)), mid).Some? ==> Run(After(s, Unlock(m)), mid).value.current == None
    ensures Run(After(s, Unlock(m)), mid) == Some(s2) && Run(s2, [Dispatch(Ready), Continue]) == Some(s4)
    ensures var w := Q(s, MutexQ(m))[0];
            && w in s4.threads
            && if M(s2, m).owner == None then
                 && M(s4, m).owner == Some(w) == s4.current && s4.threads[w].pc == User && s4.blocked == s2.blocked - 1
               else
                 && M(s4, m).owner == M(s2, m).owner && s4.current == None && s4.blocked == s2.blocked
                 && Q(s4, MutexQ(m)) == Q(s2, MutexQ(m)) + [w]
  {
    hide Inv, After, Only;
    var w, s1 := Q(s, MutexQ(m))[0], After(s, Unlock(m));
    InQueueLives(s, MutexQ(m), 0);
    UnlockWakesFirst(s, m);
    StepInv(s, Unlock(m));
    var s3;
    s2, s3 := TurnComes(s1, mid, w);
    Waiting(s3, w);
    SameMutex(s2, s3, w, m);
    LockGoesOn(s3, m);
    s4 := After(s3, Continue);
    Resumes(s2, s3);
  }

  lemma SameMutex(s2: State, s3: State, w: Tid, m: nat)
    requires Only(s2, s3, {Ready}, {}, {w})
    ensures M(s2, m) == M(s3, m) && Q(s2, MutexQ(m)) == Q(s3, MutexQ(m))
  {
  }

  /** When a thread returns that another one waits to join, the joiner is, after the polls for those that were ready
      before and its own, back in its function with the value taken. */
  lemma JoinedGetsOn(s: State, mid: seq<Step>) returns (s2: State, s4: State)
    requires Inv(s) && Enabled(s, Return)
    requires !s.threads[s.current.value].detached && s.threads[s.current.value].ltJoin.Some?
    requires s.threads[s.current.value].ltJoin.value in s.threads
    requires var j := s.threads[s.current.value].ltJoin.value; !(s.threads[j].exited && s.threads[j].detached)
    requires PoliteRun(After(s, Return), mid) && Turns(mid) == |Q(s, Ready)|
    requires Run(After(s, Return), mid).Some? ==> Run(After(s, Return), mid).value.current == None
    ensures Run(After(s, Return), mid) == Some(s2) && Run(s2, [Dispatch(Ready), Continue]) == Some(s4)
    ensures var t := s.current.value;
            var j := s.threads[t].ltJoin.value;
            && s4.current == Some(j) && j in s4.threads && s4.threads[j].pc == User && s4.blocked == s2.blocked - 1
            && t in s4.threads && s4.threads[t].join == ValRead
  {
    hide Inv, After, Only;
    var t, s1 := s.current.value, After(s, Return);
    var j := s.threads[t].ltJoin.value;
    ReturnEffect(s);
    StepInv(s, Return);
    var s3;
    s2, s3 := TurnComes(s1, mid, j);
    Waiting(s3, j);
    StillSet(s1, mid, s2, s3, j, t);
    JoinGoesOn(s3, t);
    s4 := After(s3, Continue);
    Resumes(s2, s3);
  }

  /** The exiting thread is behind its joiner, so its value is still there. */
  lemma StillSet(s1: State, mid: seq<Step>, s2: State, s3: State, j: Tid, t: Tid)
    requires Inv(s1) && PoliteRun(s1, mid) && Turns(mid) + 1 < |Q(s1, Ready)| && Q(s1, Ready)[Turns(mid) + 1] == t
    requires t in s1.threads && s1.threads[t].pc.ExitWait? && j != t
    requires Run(s1, mid) == Some(s2) && Inv(s3) && Only(s2, s3, {Ready}, {}, {j})
    requires j in s3.threads && s3.threads[j].pc == JoinParked(t) && s3.current == Some(j)
    ensures t in s3.threads && s3.threads[t].join == ValSet
  {
    hide Inv;
    WaitsItsTurn(s1, mid, Turns(mid) + 1);
    assert t in s2.threads && s3.threads[t] == s2.threads[t];
    ThreadFacts(s3, t);
    ThreadFacts(s3, j);
  }
}
