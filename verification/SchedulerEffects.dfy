/**
 What each operation of one lthread scheduler does to the queues, the mutexes and the threads, and that nothing else
 changes; and what follows for runs: the ready queue is first in, first out, and a woken thread gets on.
 */
module SchedulerEffects {
  import opened Common
  import opened Scheduler

  /** Outside these queues, mutexes and threads nothing has changed. */
  ghost predicate Only(s: State, s': State, qs: set<Queue>, ms: set<nat>, ts: set<Tid>) {
    && (forall q :: q !in qs ==> Q(s', q) == Q(s, q))
    && (forall m :: m !in ms ==> M(s', m) == M(s, m))
    && (forall t :: t !in ts ==> (t in s'.threads <==> t in s.threads))
    && (forall t :: t !in ts && t in s.threads ==> s'.threads[t] == s.threads[t])
    && s'.runFlag == s.runFlag && s'.freed == s.freed && s'.leaked == s.leaked
  }

  /** Thread t is put at the end of queue q, with this continuation. */
  ghost predicate GoesTo(s: State, s': State, t: Tid, pc: Pc, q: Queue)
    requires t in s.threads
  {
    Q(s', q) == Q(s, q) + [t] && t in s'.threads && s'.threads[t] == s.threads[t].(pc := pc, place := InQueue(q))
  }

  /** The first thread of queue q goes to the end of the ready queue; the others stay in their order. */
  ghost predicate FirstIsReady(s: State, s': State, q: Queue)
    requires Q(s, q) != [] && Q(s, q)[0] in s.threads
  {
    var w := Q(s, q)[0];
    Q(s', q) == Q(s, q)[1..] && GoesTo(s, s', w, s.threads[w].pc, Ready)
  }

  // ---------------------------------------------------------------- threads come and run

  lemma CreateAppends(s: State, t: Tid)
    requires Inv(s) && Enabled(s, Create(t))
    ensures var s' := After(s, Create(t));
            && Only(s, s', {Ready}, {}, {t}) && s'.current == s.current && s'.blocked == s.blocked
            && Q(s', Ready) == Q(s, Ready) + [t] && t in s'.threads
            && s'.threads[t] == Thread(Fresh, false, false, Initial, None, InQueue(Ready))
  {
  }

  lemma PeerCreateAppends(s: State, t: Tid)
    requires Inv(s) && Enabled(s, PeerCreate(t))
    ensures var s' := After(s, PeerCreate(t));
            && Only(s, s', {Peer}, {}, {t}) && s'.current == s.current && s'.blocked == s.blocked
            && Q(s', Peer) == Q(s, Peer) + [t] && t in s'.threads
            && s'.threads[t] == Thread(Fresh, false, false, Initial, None, InQueue(Peer))
  {
  }

  /** The first entry of the polled queue is resumed, or given back if it has exited and is detached. */
  lemma DispatchTakesFirst(s: State, q: Queue)
    requires Inv(s) && Enabled(s, Dispatch(q))
    ensures var s' := After(s, Dispatch(q));
            var t := Q(s, q)[0];
            && Q(s', q) == Q(s, q)[1..] && s'.blocked == s.blocked
            && if s.threads[t].exited && s.threads[t].detached then
                 && s'.current == None && t !in s'.threads && s'.freed == s.freed + {t}
                 && Only(s, s'.(freed := s.freed, leaked := s.leaked), {q}, {}, {t})
               else
                 && s'.current == Some(t) && Only(s, s', {q}, {}, {t}) && t in s'.threads
                 && s'.threads[t] == s.threads[t].(place := Running,
                                                   pc := if s.threads[t].pc == Fresh then User else s.threads[t].pc)
  {
    hide Inv;
  }

  lemma YieldGoesLast(s: State)
    requires Inv(s) && Enabled(s, Yield)
    ensures var s' := After(s, Yield);
            && Only(s, s', {Ready}, {}, {s.current.value}) && s'.current == None && s'.blocked == s.blocked
            && GoesTo(s, s', s.current.value, User, Ready)
  {
  }

  // ---------------------------------------------------------------- mutexes

  /** A free mutex is taken at once; one that another thread holds blocks; one's own is left alone. */
  lemma LockTakesOrBlocks(s: State, m: nat)
    requires Inv(s) && Enabled(s, Lock(m))
    ensures var s' := After(s, Lock(m));
            var t := s.current.value;
            if M(s, m).owner == Some(t) then s' == s
            else
              && M(s', m).count == M(s, m).count + 1
              && if M(s, m).owner == None then
                   && Only(s, s', {}, {m}, {}) && M(s', m).owner == Some(t)
                   && s'.current == Some(t) && s'.blocked == s.blocked
                 else
                   && Only(s, s', {MutexQ(m)}, {m}, {t}) && M(s', m).owner == M(s, m).owner
                   && s'.current == None && s'.blocked == s.blocked + 1 && GoesTo(s, s', t, InLock(m), MutexQ(m))
  {
    hide Inv;
    assert s.threads[s.current.value].pc == User;
  }

  lemma TryLockNeverBlocks(s: State, m: nat)
    requires Inv(s) && Enabled(s, TryLock(m))
    ensures var s' := After(s, TryLock(m));
            var t := s.current.value;
            && s'.current == Some(t) && s'.blocked == s.blocked
            && if M(s, m).owner.Some? then s' == s
               else Only(s, s', {}, {m}, {}) && M(s', m) == Mutex(Some(t), M(s, m).count + 1)
  {
    hide Inv;
    assert s.threads[s.current.value].pc == User;
  }

  /** Only the owner unlocks.  The first thread that waits becomes ready; the count then is that of the others. */
  lemma UnlockWakesFirst(s: State, m: nat)
    requires Inv(s) && Enabled(s, Unlock(m))
    ensures var s' := After(s, Unlock(m));
            && s'.current == s.current && s'.blocked == s.blocked
            && if M(s, m).owner != s.current then s' == s
               else
                 && M(s', m).owner == None
                 && if Q(s, MutexQ(m)) == [] then Only(s, s', {}, {m}, {}) && M(s', m).count == 0
                    else
                      && Only(s, s', {MutexQ(m), Ready}, {m}, {Q(s, MutexQ(m))[0]})
                      && M(s', m).count == |Q(s, MutexQ(m))| - 1
                      && Q(s, MutexQ(m))[0] in s.threads && FirstIsReady(s, s', MutexQ(m))
  {
    assert MutexOk(s, m) && QueueOk(s, MutexQ(m));
  }

  // ---------------------------------------------------------------- condition variables

  lemma WaitGoesLast(s: State, c: nat)
    requires Inv(s) && Enabled(s, Wait(c))
    ensures var s' := After(s, Wait(c));
            && Only(s, s', {CondQ(c)}, {}, {s.current.value}) && s'.current == None && s'.blocked == s.blocked + 1
            && GoesTo(s, s', s.current.value, InCond(c), CondQ(c))
  {
  }

  lemma SignalWakesFirst(s: State, c: nat)
    requires Inv(s) && Enabled(s, Signal(c))
    ensures var s' := After(s, Signal(c));
            && s'.current == s.current && s'.blocked == s.blocked
            && if Q(s, CondQ(c)) == [] then s' == s
               else Only(s, s', {CondQ(c), Ready}, {}, {Q(s, CondQ(c))[0]}) && FirstIsReady(s, s', CondQ(c))
  {
    assert QueueOk(s, CondQ(c));
  }

  function Members(ts: seq<Tid>): set<Tid> { set t | t in ts }

  ghost predicate MadeReady(s: State, s': State, ws: seq<Tid>) {
    forall t :: t in ws ==> t in s.threads && t in s'.threads && s'.threads[t] == s.threads[t].(place := InQueue(Ready))
  }

  /** All threads of queue q are ready, first entry first. */
  ghost predicate AllReady(s: State, s': State, q: Queue) {
    && s'.current == s.current && s'.blocked == s.blocked
    && Only(s, s', {q, Ready}, {}, Members(Q(s, q)))
    && Q(s', q) == [] && Q(s', Ready) == Q(s, Ready) + Q(s, q) && MadeReady(s, s', Q(s, q))
  }

  lemma WakeEffect(s: State, q: Queue)
    requires q != Ready && Q(s, q) != [] && Q(s, q)[0] in s.threads
    ensures var s' := Wake(s, q);
            && s'.current == s.current && s'.blocked == s.blocked
            && Only(s, s', {q, Ready}, {}, {Q(s, q)[0]}) && FirstIsReady(s, s', q)
  {
  }

  lemma OnlyTwice(s: State, s1: State, s2: State, qs: set<Queue>, ts1: set<Tid>, ts2: set<Tid>)
    requires Only(s, s1, qs, {}, ts1) && Only(s1, s2, qs, {}, ts2)
    ensures Only(s, s2, qs, {}, ts1 + ts2)
  {
    hide Q, M;
  }

  lemma SameThread(s: State, s': State, qs: set<Queue>, ts: set<Tid>, t: Tid)
    requires Only(s, s', qs, {}, ts) && t !in ts
    ensures t in s.threads <==> t in s'.threads
    ensures t in s.threads ==> s'.threads[t] == s.threads[t]
  {
    hide Q, M;
  }

  lemma OneMoreReady(s: State, s1: State, s': State, q: Queue)
    requires q != Ready && Q(s, q) != [] && Q(s, q)[0] in s.threads && Q(s, q)[0] !in Q(s, q)[1..]
    requires s1.current == s.current && s1.blocked == s.blocked
    requires Only(s, s1, {q, Ready}, {}, {Q(s, q)[0]}) && FirstIsReady(s, s1, q) && AllReady(s1, s', q)
    ensures AllReady(s, s', q)
  {
    hide Q, M, Only;
    var w, ws := Q(s, q)[0], Q(s, q)[1..];
    assert Q(s1, q) == ws && Q(s, q) == [w] + ws;
    assert Q(s', Ready) == Q(s, Ready) + Q(s, q);
    OnlyTwice(s, s1, s', {q, Ready}, {w}, Members(ws));
    assert {w} + Members(ws) == Members(Q(s, q));
    forall t | t in Q(s, q)
      ensures t in s.threads && t in s'.threads && s'.threads[t] == s.threads[t].(place := InQueue(Ready))
    {
      if t == w {
        SameThread(s1, s', {q, Ready}, Members(ws), w);
      } else {
        SameThread(s, s1, {q, Ready}, {w}, t);
      }
    }
  }

  lemma {:induction false} DrainEffect(s: State, c: nat)
    requires Inv(s) && forall i :: 0 <= i < |Q(s, CondQ(c))| ==> Q(s, CondQ(c))[i] in s.threads
    ensures AllReady(s, Drain(s, CondQ(c)), CondQ(c))
    decreases |Q(s, CondQ(c))|
  {
    hide Only, MadeReady, FirstIsReady;
    var q := CondQ(c);
    if Q(s, q) == [] {
      NothingDrained(s, q);
    } else {
      var s1 := Wake(s, q);
      WakeCondInv(s, c);
      assert QueueOk(s, q) && QueueOk(s1, q);
      DrainEffect(s1, c);
      WakeEffect(s, q);
      OneMoreReady(s, s1, Drain(s1, q), q);
    }
  }

  lemma NothingDrained(s: State, q: Queue)
    requires Q(s, q) == []
    ensures AllReady(s, s, q)
  {
  }

  /** Broadcast makes all that wait ready, first entry first, and then yields. */
  lemma BroadcastWakesAll(s: State, c: nat)
    requires Inv(s) && Enabled(s, Broadcast(c))
    ensures var s' := After(s, Broadcast(c));
            var t := s.current.value;
            exists s1 :: AllReady(s, s1, CondQ(c)) && t in s1.threads && s1.threads[t] == s.threads[t]
                         && Only(s1, s', {Ready}, {}, {t}) && s'.current == None && s'.blocked == s.blocked
                         && GoesTo(s1, s', t, User, Ready)
  {
    hide AllReady, Only, GoesTo, Drain, SwitchTo, Inv;
    var t, s1 := s.current.value, Drain(s, CondQ(c));
    DrainEffect(s, c);
    NotWaiting(s, s1, c);
    SwitchEffect(s1, t);
  }

  lemma NotWaiting(s: State, s1: State, c: nat)
    requires Inv(s) && RunsUser(s) && AllReady(s, s1, CondQ(c))
    ensures s.current.value in s1.threads && s1.threads[s.current.value] == s.threads[s.current.value]
    ensures s1.current == s.current && s1.blocked == s.blocked
  {
    assert QueueOk(s, CondQ(c)) && PlaceOk(s, s.current.value);
  }

  lemma SwitchEffect(s: State, t: Tid)
    requires t in s.threads
    ensures var s' := SwitchTo(s, t, User, Ready);
            Only(s, s', {Ready}, {}, {t}) && s'.current == None && s'.blocked == s.blocked
              && GoesTo(s, s', t, User, Ready)
  {
  }

  // ---------------------------------------------------------------- exit and join

  lemma ThreadFacts(s: State, t: Tid)
    requires Inv(s) && t in s.threads
    ensures LocalOk(s.threads[t]) && PlaceOk(s, t) && JoinedOk(s, t) && JoinerOk(s, t)
  {
  }

  lemma Waiting(s: State, t: Tid)
    requires Inv(s) && t in s.threads && Suspended(s.threads[t].pc)
    ensures s.blocked > 0
  {
    assert t in SuspendedSet(s);
  }

  lemma DetachMarks(s: State)
    requires Inv(s) && Enabled(s, Detach)
    ensures var s' := After(s, Detach);
            var t := s.current.value;
            && Only(s, s', {}, {}, {t}) && s'.current == s.current && s'.blocked == s.blocked
            && t in s'.threads && s'.threads[t] == s.threads[t].(detached := true)
  {
  }

  /** How a thread that is not detached begins its exit: it parks until somebody joins it, or gives its value to the
      joiner that is parked on it, which becomes ready in front of it. */
  ghost predicate ExitBegins(s: State, s': State, t: Tid, exited: bool, handler: bool)
    requires t in s.threads
  {
    var th := s.threads[t].(exited := exited);
    && s'.current == None && t in s'.threads
    && match s.threads[t].ltJoin
       case None =>
         && Only(s, s', {}, {}, {t}) && s'.blocked == s.blocked + 1
         && s'.threads[t] == th.(join := Exiting, pc := ExitParked(handler), place := Parked)
       case Some(j) =>
         && Only(s, s', {Ready}, {}, {t, j}) && s'.blocked == s.blocked && j != t
         && Q(s', Ready) == Q(s, Ready) + [j, t] && j in s.threads && j in s'.threads
         && s'.threads[t] == th.(join := ValSet, pc := ExitWait(handler), place := InQueue(Ready))
         && s.threads[j].pc == JoinParked(t) && s'.threads[j] == s.threads[j].(place := InQueue(Ready))
  }

  /** An explicit lthread_exit: nothing for a detached thread. */
  lemma ExitEffect(s: State)
    requires Inv(s) && Enabled(s, Exit)
    ensures var t := s.current.value;
            if s.threads[t].detached then After(s, Exit) == s
            else ExitBegins(s, After(s, Exit), t, s.threads[t].exited, false)
  {
    var t := s.current.value;
    if !s.threads[t].detached {
      BeginExitEffect(s, t, false);
    }
  }

  lemma BeginExitEffect(s: State, t: Tid, handler: bool)
    requires Inv(s) && RunsUser(s) && ExitDefined(s) && s.current == Some(t) && !s.threads[t].detached
    requires s.threads[t].join != Initial ==> s.threads[t].ltJoin.Some? && s.threads[t].ltJoin.value in s.threads
    ensures ExitBegins(s, BeginExit(s, t, handler), t, s.threads[t].exited, handler)
  {
    hide Inv;
    ThreadFacts(s, t);
  }

  /** The thread's function returns: a detached thread only waits to be given back. */
  lemma ReturnEffect(s: State)
    requires Inv(s) && Enabled(s, Return)
    ensures var t := s.current.value;
            var s' := After(s, Return);
            if s.threads[t].detached then
              && Only(s, s', {Ready}, {}, {t}) && s'.current == None && s'.blocked == s.blocked
              && Q(s', Ready) == Q(s, Ready) + [t] && t in s'.threads
              && s'.threads[t] == s.threads[t].(exited := true, pc := Ended, place := InQueue(Ready))
            else ExitBegins(s, s', t, true, true)
  {
    hide Inv, ExitBegins;
    var t := s.current.value;
    ThreadFacts(s, t);
    if !s.threads[t].detached {
      ReturnBegins(s);
    }
  }

  lemma ReturnBegins(s: State)
    requires Inv(s) && Enabled(s, Return) && !s.threads[s.current.value].detached
    ensures ExitBegins(s, After(s, Return), s.current.value, true, true)
  {
    hide Inv, ExitBegins;
    ThreadFacts(s, s.current.value);
    if s.threads[s.current.value].join == Initial {
      ReturnParks(s);
    } else {
      ReturnReleases(s);
    }
  }

  lemma ReturnParks(s: State)
    requires Inv(s) && Enabled(s, Return)
    requires !s.threads[s.current.value].detached && s.threads[s.current.value].join == Initial
    ensures ExitBegins(s, After(s, Return), s.current.value, true, true)
  {
    hide Inv;
    ThreadFacts(s, s.current.value);
  }

  lemma ReturnReleases(s: State)
    requires Inv(s) && Enabled(s, Return)
    requires !s.threads[s.current.value].detached && s.threads[s.current.value].join != Initial
    ensures ExitBegins(s, After(s, Return), s.current.value, true, true)
  {
    hide Inv;
    ThreadFacts(s, s.current.value);
  }

  /** The joiner `j` takes the value that thread x has stored. */
  ghost predicate Collects(s: State, s': State, j: Tid, x: Tid)
    requires j in s.threads && x in s.threads
  {
    && s'.current == Some(j) && j in s'.threads && x in s'.threads
    && s'.threads[x] == s.threads[x].(join := ValRead) && s'.threads[j] == s.threads[j].(pc := User)
  }

  /** The first joiner parks until the thread exits. */
  ghost predicate JoinParks(s: State, s': State, t: Tid, x: Tid) {
    && s'.current == None && t in s.threads && x in s.threads && t in s'.threads && x in s'.threads
    && Only(s, s', {}, {}, {t, x}) && s'.blocked == s.blocked + 1
    && (t != x ==> && s'.threads[t] == s.threads[t].(pc := JoinParked(x), place := Parked)
                   && s'.threads[x] == s.threads[x].(ltJoin := Some(t), join := ThreadSet))
    && (t == x ==>
          s'.threads[t] == s.threads[t].(ltJoin := Some(t), join := ThreadSet, pc := JoinParked(t), place := Parked))
  }

  /** Joining a thread that is parked in its exit makes it ready in front of the joiner. */
  ghost predicate JoinReleases(s: State, s': State, t: Tid, x: Tid) {
    && s'.current == None && t in s'.threads && x in s'.threads && t != x && t in s.threads && x in s.threads
    && Only(s, s', {Ready}, {}, {t, x}) && s'.blocked == s.blocked
    && Q(s', Ready) == Q(s, Ready) + [x, t]
    && s'.threads[t] == s.threads[t].(pc := JoinWait(x), place := InQueue(Ready))
    && s'.threads[x] == s.threads[x].(ltJoin := Some(t), place := InQueue(Ready))
  }

  /** Joining is refused for a detached thread and for one that is being joined. */
  lemma JoinEffect(s: State, x: Tid)
    requires Inv(s) && Enabled(s, JoinThread(x)) && JoinsOnce(s, JoinThread(x))
    ensures var t := s.current.value;
            var s' := After(s, JoinThread(x));
            if s.threads[x].detached || s.threads[x].join == ThreadSet then s' == s
            else if s.threads[x].join == Initial then JoinParks(s, s', t, x)
            else JoinReleases(s, s', t, x)
  {
    hide Inv, JoinParks, JoinReleases;
    if !s.threads[x].detached && s.threads[x].join == Initial {
      FirstJoin(s, x);
    } else if !s.threads[x].detached && s.threads[x].join != ThreadSet {
      LateJoin(s, x);
    }
  }

  lemma FirstJoin(s: State, x: Tid)
    requires Inv(s) && Enabled(s, JoinThread(x)) && !s.threads[x].detached && s.threads[x].join == Initial
    ensures JoinParks(s, After(s, JoinThread(x)), s.current.value, x)
  {
    hide Inv;
  }

  lemma LateJoin(s: State, x: Tid)
    requires Inv(s) && Enabled(s, JoinThread(x)) && JoinsOnce(s, JoinThread(x)) && !s.threads[x].detached
    requires s.threads[x].join != Initial && s.threads[x].join != ThreadSet
    ensures JoinReleases(s, After(s, JoinThread(x)), s.current.value, x)
  {
    hide Inv;
    ThreadFacts(s, x);
    ThreadFacts(s, s.current.value);
  }

  // ---------------------------------------------------------------- going on after a switch

  /** Back in lock: the mutex is taken if it is free by now, or waited for again. */
  lemma LockGoesOn(s: State, m: nat)
    requires Inv(s) && Enabled(s, Continue) && s.threads[s.current.value].pc == InLock(m)
    ensures var t := s.current.value;
            var s' := After(s, Continue);
            && M(s', m).count == M(s, m).count + 1
            && if M(s, m).owner == None then
                 && Only(s, s', {}, {m}, {t}) && M(s', m).owner == Some(t) && s'.current == Some(t)
                 && s'.blocked == s.blocked - 1 && t in s'.threads && s'.threads[t] == s.threads[t].(pc := User)
               else
                 && Only(s, s', {MutexQ(m)}, {m}, {t}) && M(s', m).owner == M(s, m).owner && s'.current == None
                 && s'.blocked == s.blocked && GoesTo(s, s', t, InLock(m), MutexQ(m))
  {
  }

  lemma WaitGoesOn(s: State, c: nat)
    requires Inv(s) && Enabled(s, Continue) && s.threads[s.current.value].pc == InCond(c)
    ensures var t := s.current.value;
            var s' := After(s, Continue);
            && Only(s, s', {}, {}, {t}) && s'.current == Some(t) && s'.blocked == s.blocked - 1
            && t in s'.threads && s'.threads[t] == s.threads[t].(pc := User)
  {
  }

  /** A joiner that goes on takes the value if it is there, and yields if not. */
  ghost predicate JoinGoes(s: State, s': State, t: Tid, x: Tid)
    requires t in s.threads
  {
    && x in s.threads && x != t
    && if s.threads[x].join == ValSet then Only(s, s', {}, {}, {t, x}) && Collects(s, s', t, x)
       else Only(s, s', {Ready}, {}, {t}) && s'.current == None && GoesTo(s, s', t, JoinWait(x), Ready)
  }

  lemma JoinGoesOn(s: State, x: Tid)
    requires Inv(s) && Enabled(s, Continue)
    requires s.threads[s.current.value].pc == JoinParked(x) || s.threads[s.current.value].pc == JoinWait(x)
    ensures var t := s.current.value;
            var s' := After(s, Continue);
            && s'.blocked == (if s.threads[t].pc.JoinParked? then s.blocked - 1 else s.blocked)
            && JoinGoes(s, s', t, x)
  {
    hide Inv, JoinGoes, JoinPass;
    var t := s.current.value;
    ThreadFacts(s, t);
    JoinPassGoes(if s.threads[t].pc.JoinParked? then Unblocked(s) else s, t, x);
    SameGoes(s, Unblocked(s), After(s, Continue), t, x);
  }

  lemma JoinPassGoes(s: State, t: Tid, x: Tid)
    requires t in s.threads && x in s.threads && s.current == Some(t)
    requires LocalOk(s.threads[t]) && JoinerOk(s, t) && s.threads[t].place == Running && Joiner(s.threads[t].pc)
    requires s.threads[t].pc.target == x
    ensures JoinGoes(s, JoinPass(s, t, x), t, x) && JoinPass(s, t, x).blocked == s.blocked
  {
  }

  lemma SameGoes(s: State, s1: State, s': State, t: Tid, x: Tid)
    requires t in s.threads && s1 == s.(blocked := s1.blocked)
    ensures JoinGoes(s1, s', t, x) <==> JoinGoes(s, s', t, x)
  {
  }

  /** An exiting thread that goes on stores its value, or waits for it to be read, or ends: after an explicit call it
      is back in its function, detached and marked as exited. */
  ghost predicate ExitGoes(s: State, s': State, t: Tid, h: bool)
    requires t in s.threads
  {
    var th := s.threads[t];
    && t in s'.threads
    && if th.pc.ExitWait? && th.join == ValRead then
         var ended := th.(join := Initial, detached := true, exited := true);
         if h then
           && Only(s, s', {Ready}, {}, {t}) && s'.current == None && Q(s', Ready) == Q(s, Ready) + [t]
           && s'.threads[t] == ended.(pc := Ended, place := InQueue(Ready))
         else Only(s, s', {}, {}, {t}) && s'.current == Some(t) && s'.threads[t] == ended.(pc := User)
       else
         && Only(s, s', {Ready}, {}, {t}) && s'.current == None && Q(s', Ready) == Q(s, Ready) + [t]
         && s'.threads[t] == th.(join := ValSet, pc := ExitWait(h), place := InQueue(Ready))
  }

  lemma ExitStores(s: State, h: bool)
    requires Inv(s) && Enabled(s, Continue) && s.threads[s.current.value].pc == ExitParked(h)
    ensures ExitGoes(s, After(s, Continue), s.current.value, h) && After(s, Continue).blocked == s.blocked - 1
  {
    hide Inv;
  }

  lemma ExitWaits(s: State, h: bool)
    requires Inv(s) && Enabled(s, Continue) && s.threads[s.current.value].pc == ExitWait(h)
    ensures ExitGoes(s, After(s, Continue), s.current.value, h) && After(s, Continue).blocked == s.blocked
  {
    hide Inv, ExitGoes;
    var t := s.current.value;
    ThreadFacts(s, t);
    if s.threads[t].join == ValRead {
      ExitEnds(s, t, h);
    } else {
      ExitYields(s, t, h);
    }
  }

  lemma ExitEnds(s: State, t: Tid, h: bool)
    requires t in s.threads && s.current == Some(t) && s.threads[t].pc == ExitWait(h) && s.threads[t].join == ValRead
    ensures ExitGoes(s, WaitForRead(s, t, h), t, h) && WaitForRead(s, t, h).blocked == s.blocked
  {
  }

  lemma ExitYields(s: State, t: Tid, h: bool)
    requires t in s.threads && s.current == Some(t) && s.threads[t].pc == ExitWait(h) && s.threads[t].join == ValSet
    ensures ExitGoes(s, WaitForRead(s, t, h), t, h) && WaitForRead(s, t, h).blocked == s.blocked
  {
  }

  lemma ExitGoesOn(s: State, h: bool)
    requires Inv(s) && Enabled(s, Continue)
    requires s.threads[s.current.value].pc == ExitParked(h) || s.threads[s.current.value].pc == ExitWait(h)
    ensures ExitGoes(s, After(s, Continue), s.current.value, h)
    ensures After(s, Continue).blocked == if s.threads[s.current.value].pc.ExitParked? then s.blocked - 1 else s.blocked
  {
    hide Inv, ExitGoes, After;
    if s.threads[s.current.value].pc.ExitParked? {
      ExitStores(s, h);
    } else {
      ExitWaits(s, h);
    }
  }
}
