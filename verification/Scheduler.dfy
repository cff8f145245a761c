/**
 One lthread scheduler: lthread_sched.c, the mutexes, the condition variables and the exit/join code, with
 the code between two switches taken as atomic.  Peers on other cores appear only as creators of threads.
 Sleeping, cancelling and migrating threads are not part of this model.
 */
module Scheduler {
  import opened Common

  type Tid = nat

  datatype Queue = Ready | Peer | MutexQ(m: nat) | CondQ(c: nat)

  /** Where a thread's continuation stands.  `handler` tells an exit made by `_lthread_exit_handler` from
      an explicit call of lthread_exit, which returns to the thread's function. */
  datatype Pc =
    | Fresh
    | User
    | InLock(m: nat)
    | InCond(c: nat)
    | ExitParked(handler: bool)
    | ExitWait(handler: bool)
    | JoinParked(target: Tid)
    | JoinWait(target: Tid)
    | Ended

  datatype Join = Initial | Exiting | ThreadSet | ValSet | ValRead

  datatype Place = Running | Parked | InQueue(q: Queue)

  /** `place` is history: where the thread was put last. */
  datatype Thread = Thread(pc: Pc, exited: bool, detached: bool, join: Join, ltJoin: Option<Tid>, place: Place)

  datatype Mutex = Mutex(owner: Option<Tid>, count: nat)

  /** `freed` and `leaked` are history: the threads given back by `_lthread_free`, and how many of them
      were freed inside `_suspend`. */
  datatype State = State(
    threads: map<Tid, Thread>,
    queues: map<Queue, seq<Tid>>,
    current: Option<Tid>,
    blocked: nat,
    mutexes: map<nat, Mutex>,
    runFlag: bool,
    freed: set<Tid>,
    leaked: nat)

  datatype Step =
    | PeerCreate(t: Tid)        // lthread_create on another scheduler, for this one
    | Shutdown
    | Dispatch(q: Queue)        // poll a ready queue and resume what it gives
    | Continue                  // the resumed thread goes on inside lock, wait, exit or join
    | Create(t: Tid)
    | Yield
    | Lock(m: nat)
    | TryLock(m: nat)
    | Unlock(m: nat)
    | Wait(c: nat)
    | Signal(c: nat)
    | Broadcast(c: nat)
    | Detach
    | Exit
    | JoinThread(t: Tid)
    | Return                    // the thread's function returns to `_lthread_exec`

  function Q(s: State, q: Queue): seq<Tid> { if q in s.queues then s.queues[q] else [] }

  function M(s: State, m: nat): Mutex { if m in s.mutexes then s.mutexes[m] else Mutex(None, 0) }

  /** The thread's continuation is between the increment and the decrement of nb_blocked_threads. */
  predicate Suspended(pc: Pc) { pc.InLock? || pc.InCond? || pc.ExitParked? || pc.JoinParked? }

  function Init(): State { State(map[], map[], None, 0, map[], true, {}, 0) }

  // ---------------------------------------------------------------------------------------------
  // Building blocks

  function Push(s: State, q: Queue, t: Tid): State
    requires t in s.threads
  {
    s.(queues := s.queues[q := Q(s, q) + [t]], threads := s.threads[t := s.threads[t].(place := InQueue(q))])
  }

  /** Take the first entry of `q` and make it ready. */
  function Wake(s: State, q: Queue): State
    requires Q(s, q) != [] && Q(s, q)[0] in s.threads
  {
    Push(s.(queues := s.queues[q := Q(s, q)[1..]]), Ready, Q(s, q)[0])
  }

  /** The running thread gives up the cpu with continuation `pc` and goes to queue `q`. */
  function SwitchTo(s: State, t: Tid, pc: Pc, q: Queue): State
    requires t in s.threads
  {
    Push(s.(current := None, threads := s.threads[t := s.threads[t].(pc := pc)]), q, t)
  }

  /** The same, but it goes nowhere: some other thread holds a pointer to it. */
  function Park(s: State, t: Tid, pc: Pc): State
    requires t in s.threads
  {
    s.(current := None, blocked := s.blocked + 1, threads := s.threads[t := s.threads[t].(pc := pc, place := Parked)])
  }

  function NewThread(q: Queue): Thread { Thread(Fresh, false, false, Initial, None, InQueue(q)) }

  function AddThread(s: State, t: Tid, q: Queue): State {
    s.(threads := s.threads[t := NewThread(q)], queues := s.queues[q := Q(s, q) + [t]])
  }

  // ---------------------------------------------------------------------------------------------
  // The operations

  /** One pass of the loop in lthread_mutex_lock, for a thread that counts as running. */
  function LockPass(s: State, t: Tid, m: nat): State
    requires t in s.threads
  {
    var mu := M(s, m);
    if mu.owner == None then
      s.(mutexes := s.mutexes[m := Mutex(Some(t), mu.count + 1)], threads := s.threads[t := s.threads[t].(pc := User)])
    else
      SwitchTo(s.(mutexes := s.mutexes[m := mu.(count := mu.count + 1)], blocked := s.blocked + 1), t, InLock(m),
        MutexQ(m))
  }

  /** Unlocking by the owner makes the first blocked thread ready. */
  function UnlockAll(s: State, m: nat): State
    requires M(s, m).count > 1 ==> Q(s, MutexQ(m)) != [] && Q(s, MutexQ(m))[0] in s.threads
  {
    var mu := M(s, m);
    if mu.count > 1 then Wake(s, MutexQ(m)).(mutexes := s.mutexes[m := Mutex(None, mu.count - 2)])
    else s.(mutexes := s.mutexes[m := Mutex(None, if mu.count == 0 then 0 else mu.count - 1)])
  }

  /** Broadcast drains the queue into the ready queue, first entry first. */
  function Drain(s: State, q: Queue): State
    requires forall i :: 0 <= i < |Q(s, q)| ==> Q(s, q)[i] in s.threads
    requires q != Ready
    decreases |Q(s, q)|
  {
    if Q(s, q) == [] then s else Drain(Wake(s, q), q)
  }

  /** lthread_exit of a thread that is not detached. */
  function BeginExit(s: State, t: Tid, handler: bool): State
    requires t in s.threads
    requires s.threads[t].join != Initial ==> s.threads[t].ltJoin.Some? && s.threads[t].ltJoin.value in s.threads
  {
    if s.threads[t].join == Initial then
      Park(s.(threads := s.threads[t := s.threads[t].(join := Exiting)]), t, ExitParked(handler))
    else
      SwitchTo(Push(s.(threads := s.threads[t := s.threads[t].(join := ValSet)]), Ready, s.threads[t].ltJoin.value),
               t, ExitWait(handler), Ready)
  }

  /** What follows the wait loop of lthread_exit. */
  function EndExit(s: State, t: Tid, handler: bool): State
    requires t in s.threads
  {
    var th := s.threads[t].(join := Initial, detached := true, exited := true, pc := User);
    var s' := s.(threads := s.threads[t := th]);
    if handler then SwitchTo(s', t, Ended, Ready) else s'
  }

  /** The wait loop of lthread_join. */
  function JoinPass(s: State, t: Tid, target: Tid): State
    requires t in s.threads && target in s.threads
  {
    if s.threads[target].join == ValSet then
      var s' := s.(threads := s.threads[target := s.threads[target].(join := ValRead)]);
      s'.(threads := s'.threads[t := s'.threads[t].(pc := User)])
    else SwitchTo(s, t, JoinWait(target), Ready)
  }

  /** `_lthread_resume` */
  function Resume(s: State, q: Queue): State
    requires Q(s, q) != [] && Q(s, q)[0] in s.threads
  {
    var t := Q(s, q)[0];
    var th := s.threads[t];
    var s' := s.(queues := s.queues[q := Q(s, q)[1..]]);
    if th.exited && th.detached then
      s'.(threads := s.threads - {t}, freed := s.freed + {t}, leaked := s.leaked + if Suspended(th.pc) then 1 else 0)
    else
      s'.(current := Some(t),
        threads := s.threads[t := th.(place := Running, pc := if th.pc == Fresh then User else th.pc)])
  }

  predicate RunsUser(s: State) {
    s.current.Some? && s.current.value in s.threads && s.threads[s.current.value].pc == User
  }

  /** The pointers an operation follows are valid; the rest is decided by the code. */
  predicate Enabled(s: State, step: Step) {
    match step
    case PeerCreate(t) => t !in s.threads && t !in s.freed
    case Shutdown => true
    case Dispatch(q) => s.current == None && (q == Ready || q == Peer) && Q(s, q) != [] && Q(s, q)[0] in s.threads
    case Continue =>
      && s.current.Some? && s.current.value in s.threads
      && (Suspended(s.threads[s.current.value].pc) ==> s.blocked > 0)
      && match s.threads[s.current.value].pc {
           case JoinParked(target) => target in s.threads
           case JoinWait(target) => target in s.threads
           case pc => pc.InLock? || pc.InCond? || pc.ExitParked? || pc.ExitWait?
         }
    case Create(t) => RunsUser(s) && t !in s.threads && t !in s.freed
    case Unlock(m) => RunsUser(s) && (M(s, m).owner == s.current && M(s, m).count > 1 ==>
                                        Q(s, MutexQ(m)) != [] && Q(s, MutexQ(m))[0] in s.threads)
    case Signal(c) => RunsUser(s) && (Q(s, CondQ(c)) != [] ==> Q(s, CondQ(c))[0] in s.threads)
    case Broadcast(c) => RunsUser(s) && forall i :: 0 <= i < |Q(s, CondQ(c))| ==> Q(s, CondQ(c))[i] in s.threads
    case Exit => RunsUser(s) && ExitDefined(s)
    case Return => RunsUser(s) && ExitDefined(s)
    case JoinThread(t) => RunsUser(s) && t in s.threads
    case _ => RunsUser(s)
  }

  predicate ExitDefined(s: State)
    requires RunsUser(s)
  {
    var th := s.threads[s.current.value];
    !th.detached && th.join != Initial ==> th.ltJoin.Some? && th.ltJoin.value in s.threads
  }

  function With(s: State, t: Tid, th: Thread): State { s.(threads := s.threads[t := th]) }

  /** lthread_exit after its suspend: the value is stored and the wait loop tested once. */
  function StoreValue(s: State, t: Tid, handler: bool): State
    requires t in s.threads
  {
    SwitchTo(With(s, t, s.threads[t].(join := ValSet)), t, ExitWait(handler), Ready)
  }

  /** One test of the wait loop in lthread_exit. */
  function WaitForRead(s: State, t: Tid, handler: bool): State
    requires t in s.threads
  {
    if s.threads[t].join == ValRead then EndExit(s, t, handler) else SwitchTo(s, t, ExitWait(handler), Ready)
  }

  /** The decrement of nb_blocked_threads after a switch. */
  function Unblocked(s: State): State { s.(blocked := if s.blocked > 0 then s.blocked - 1 else 0) }

  function ContinueAt(s: State, t: Tid): State
    requires t in s.threads
    requires Joiner(s.threads[t].pc) ==> s.threads[t].pc.target in s.threads
  {
    match s.threads[t].pc
    case InLock(m) => LockPass(Unblocked(s), t, m)
    case InCond(_) => With(Unblocked(s), t, s.threads[t].(pc := User))
    case ExitParked(h) => StoreValue(Unblocked(s), t, h)
    case ExitWait(h) => WaitForRead(s, t, h)
    case JoinParked(target) => JoinPass(Unblocked(s), t, target)
    case JoinWait(target) => JoinPass(s, t, target)
    case _ => s
  }

  function JoinBy(s: State, t: Tid, target: Tid): State
    requires t in s.threads && target in s.threads
  {
    var tg := s.threads[target];
    if tg.detached || tg.join == ThreadSet then s   // EINVAL
    else if tg.join == Initial then
      Park(With(s, target, tg.(ltJoin := Some(t), join := ThreadSet)), t, JoinParked(target))
    else
      JoinPass(Push(With(s, target, tg.(ltJoin := Some(t))), Ready, target), t, target)
  }

  function UserStep(s: State, t: Tid, step: Step): State
    requires Enabled(s, step) && s.current == Some(t)
    requires !step.PeerCreate? && !step.Shutdown? && !step.Dispatch? && !step.Continue?
  {
    var th := s.threads[t];
    match step
    case Create(n) => AddThread(s, n, Ready)
    case Yield => SwitchTo(s, t, User, Ready)
    case Lock(m) => if M(s, m).owner == Some(t) then s else LockPass(s, t, m)   // EDEADLK
    case TryLock(m) => if M(s, m).owner == None then LockPass(s, t, m) else s   // EDEADLK or EBUSY
    case Unlock(m) => if M(s, m).owner == Some(t) then UnlockAll(s, m) else s   // EPERM
    case Wait(c) => SwitchTo(s.(blocked := s.blocked + 1), t, InCond(c), CondQ(c))
    case Signal(c) => if Q(s, CondQ(c)) == [] then s else Wake(s, CondQ(c))
    case Broadcast(c) => DrainKeeps(s, CondQ(c)); SwitchTo(Drain(s, CondQ(c)), t, User, Ready)
    case Detach => With(s, t, th.(detached := true))
    case Exit => if th.detached then s else BeginExit(s, t, false)
    case JoinThread(n) => JoinBy(s, t, n)
    case Return =>
      var s' := With(s, t, th.(exited := true));
      if th.detached then SwitchTo(s', t, Ended, Ready) else BeginExit(s', t, true)
  }

  lemma DrainKeeps(s: State, q: Queue)
    requires forall i :: 0 <= i < |Q(s, q)| ==> Q(s, q)[i] in s.threads
    requires q != Ready
    ensures Drain(s, q).threads.Keys == s.threads.Keys
    decreases |Q(s, q)|
  {
    if Q(s, q) != [] { DrainKeeps(Wake(s, q), q); }
  }

  function After(s: State, step: Step): State
    requires Enabled(s, step)
  {
    match step
    case PeerCreate(t) => AddThread(s, t, Peer)
    case Shutdown => s.(runFlag := false)
    case Dispatch(q) => Resume(s, q)
    case Continue => ContinueAt(s, s.current.value)
    case _ => UserStep(s, s.current.value, step)
  }

  function Run(s: State, steps: seq<Step>): Option<State>
    decreases |steps|
  {
    if steps == [] then Some(s)
    else if Enabled(s, steps[0]) then Run(After(s, steps[0]), steps[1..])
    else None
  }

  /** `_lthread_sched_isdone`, looked at between two threads. */
  predicate IsDone(s: State) {
    s.current == None && !s.runFlag && Q(s, Ready) == [] && Q(s, Peer) == [] && s.blocked == 0
  }

  // ---------------------------------------------------------------------------------------------
  // The invariant

  ghost predicate QueueOk(s: State, q: Queue) {
    && (forall i :: 0 <= i < |Q(s, q)| ==> Q(s, q)[i] in s.threads && s.threads[Q(s, q)[i]].place == InQueue(q))
    && (forall i, j :: 0 <= i < j < |Q(s, q)| ==> Q(s, q)[i] != Q(s, q)[j])
  }

  predicate PlaceOk(s: State, t: Tid)
    requires t in s.threads
  {
    && (s.threads[t].place == Running <==> s.current == Some(t))
    && (s.threads[t].place.InQueue? ==> t in Q(s, s.threads[t].place.q))
  }

  /** Every entry of a queue is a live thread put there last, entered once; every live thread is running,
      parked, or in the queue it was put in last. */
  ghost predicate Placed(s: State) {
    && (forall q :: QueueOk(s, q))
    && (forall t :: t in s.threads ==> PlaceOk(s, t))
    && (s.current.Some? ==> s.current.value in s.threads)
    && s.freed !! s.threads.Keys
  }

  predicate AtReady(p: Place) { p == Running || p == InQueue(Ready) }

  predicate InExit(pc: Pc) { pc.ExitParked? || pc.ExitWait? }

  /** What a thread's continuation says about where it is and how far its own exit has come. */
  predicate LocalOk(th: Thread) {
    && (match th.pc
        case Fresh => th.place == InQueue(Ready) || th.place == InQueue(Peer)
        case User => AtReady(th.place)
        case InLock(m) => AtReady(th.place) || th.place == InQueue(MutexQ(m))
        case InCond(c) => AtReady(th.place) || th.place == InQueue(CondQ(c))
        case ExitParked(_) =>
          && !th.detached && th.join == Exiting
          && (if th.ltJoin == None then th.place == Parked else AtReady(th.place))
        case ExitWait(_) =>
          !th.detached && (th.join == ValSet || th.join == ValRead) && th.ltJoin.Some? && AtReady(th.place)
        case JoinParked(_) => th.place == Parked || AtReady(th.place)
        case JoinWait(_) => AtReady(th.place)
        case Ended => th.exited && th.detached && th.place == InQueue(Ready))
    && (!InExit(th.pc) ==> th.join == Initial || th.join == ThreadSet)
    && (!InExit(th.pc) && !th.detached && th.join == Initial ==> th.ltJoin == None)
  }

  ghost predicate Locals(s: State) { forall t :: t in s.threads ==> LocalOk(s.threads[t]) }

  /** A thread that has a joiner recorded has it parked on itself. */
  predicate JoinedOk(s: State, t: Tid)
    requires t in s.threads
  {
    s.threads[t].join == ThreadSet ==>
      && s.threads[t].ltJoin.Some?
      && s.threads[t].ltJoin.value in s.threads
      && s.threads[s.threads[t].ltJoin.value].pc == JoinParked(t)
      && s.threads[s.threads[t].ltJoin.value].place == Parked
  }

  predicate Joiner(pc: Pc) { pc.JoinParked? || pc.JoinWait? }

  /** A joiner that is not parked waits for a thread that is in its exit and knows it as its joiner. */
  predicate JoinerOk(s: State, j: Tid)
    requires j in s.threads
  {
    var th := s.threads[j];
    Joiner(th.pc) && th.place != Parked ==>
      && th.pc.target in s.threads
      && InExit(s.threads[th.pc.target].pc)
      && s.threads[th.pc.target].ltJoin == Some(j)
      && (s.threads[th.pc.target].join == Exiting || s.threads[th.pc.target].join == ValSet)
  }

  ghost predicate Joins(s: State) {
    forall t :: t in s.threads ==> JoinedOk(s, t) && JoinerOk(s, t)
  }

  predicate MutexOk(s: State, m: nat) {
    M(s, m).count == |Q(s, MutexQ(m))| + (if M(s, m).owner.Some? then 1 else 0)
  }

  ghost predicate Mutexes(s: State) { forall m :: MutexOk(s, m) }

  function SuspendedSet(s: State): set<Tid> {
    set t | t in s.threads && Suspended(s.threads[t].pc)
  }

  predicate Counted(s: State) { s.blocked == |SuspendedSet(s)| + s.leaked }

  ghost predicate Inv(s: State) {
    Placed(s) && Locals(s) && Joins(s) && Mutexes(s) && Counted(s)
  }

  /** No second thread joins a thread that already has a joiner. */
  predicate JoinsOnce(s: State, step: Step) {
    (step.JoinThread? && step.t in s.threads && !s.threads[step.t].detached && s.threads[step.t].join != ThreadSet)
    ==> s.threads[step.t].ltJoin == None
  }

  // ---------------------------------------------------------------------------------------------
  // The building blocks keep every thread in one place

  /** A record changes, its place does not. */
  lemma WithPlaced(s: State, t: Tid, th: Thread)
    requires Placed(s) && t in s.threads && th.place == s.threads[t].place
    ensures Placed(With(s, t, th))
  {
    var s' := With(s, t, th);
    forall q ensures QueueOk(s', q) { assert QueueOk(s, q); assert Q(s', q) == Q(s, q); }
    forall x | x in s'.threads ensures PlaceOk(s', x) { assert PlaceOk(s, x); }
  }

  /** A thread that is in no queue enters one. */
  lemma PushPlaced(s: State, q: Queue, t: Tid)
    requires t in s.threads && forall p :: QueueOk(s, p) && t !in Q(s, p)
    requires forall x :: x in s.threads && x != t ==> PlaceOk(s, x)
    requires s.current != Some(t) && s.freed !! s.threads.Keys
    requires s.current.Some? ==> s.current.value in s.threads
    ensures Placed(Push(s, q, t))
  {
    var s' := Push(s, q, t);
    forall p ensures QueueOk(s', p) {
      assert QueueOk(s, p) && t !in Q(s, p);
      assert forall i :: 0 <= i < |Q(s, p)| ==> Q(s, p)[i] in Q(s, p);
    }
    forall x | x in s'.threads ensures PlaceOk(s', x) {
      if x == t { assert Q(s', q)[|Q(s, q)|] == t; }
      else {
        assert PlaceOk(s, x);
        if s.threads[x].place.InQueue? { assert x in Q(s, s.threads[x].place.q); }
      }
    }
  }

  /** A thread that is running or parked is in no queue. */
  lemma InNoQueue(s: State, t: Tid)
    requires Placed(s) && t in s.threads && !s.threads[t].place.InQueue?
    ensures forall q :: t !in Q(s, q)
  {
    forall q ensures t !in Q(s, q) { assert QueueOk(s, q); }
  }

  lemma SwitchPlaced(s: State, t: Tid, pc: Pc, q: Queue)
    requires Placed(s) && s.current == Some(t)
    ensures Placed(SwitchTo(s, t, pc, q))
  {
    assert PlaceOk(s, t);
    InNoQueue(s, t);
    var s1 := s.(current := None, threads := s.threads[t := s.threads[t].(pc := pc)]);
    forall p ensures QueueOk(s1, p) && t !in Q(s1, p) { assert QueueOk(s, p); }
    forall x | x in s1.threads && x != t ensures PlaceOk(s1, x) { assert PlaceOk(s, x); }
    PushPlaced(s1, q, t);
  }

  lemma ParkPlaced(s: State, t: Tid, pc: Pc)
    requires Placed(s) && s.current == Some(t)
    ensures Placed(Park(s, t, pc))
  {
    var s' := Park(s, t, pc);
    assert PlaceOk(s, t);
    InNoQueue(s, t);
    forall q ensures QueueOk(s', q) {
      assert QueueOk(s, q) && t !in Q(s, q);
      assert forall i :: 0 <= i < |Q(s, q)| ==> Q(s, q)[i] in Q(s, q);
    }
    forall x | x in s'.threads ensures PlaceOk(s', x) { assert PlaceOk(s, x); }
  }

  lemma ReadyPlaced(s: State, t: Tid)
    requires Placed(s) && t in s.threads && s.threads[t].place == Parked
    ensures Placed(Push(s, Ready, t))
  {
    assert PlaceOk(s, t);
    InNoQueue(s, t);
    PushPlaced(s, Ready, t);
  }

  /** Taking the first entry off a queue leaves its thread in no queue. */
  lemma PopPlaced(s: State, q: Queue)
    requires Placed(s) && Q(s, q) != []
    ensures var s' := s.(queues := s.queues[q := Q(s, q)[1..]]);
            && Q(s, q)[0] in s.threads && s.current != Some(Q(s, q)[0])
            && (forall p :: QueueOk(s', p) && Q(s, q)[0] !in Q(s', p))
            && (forall x :: x in s.threads && x != Q(s, q)[0] ==> PlaceOk(s', x))
  {
    var t, s' := Q(s, q)[0], s.(queues := s.queues[q := Q(s, q)[1..]]);
    assert QueueOk(s, q);
    assert PlaceOk(s, t);
    forall p ensures QueueOk(s', p) && t !in Q(s', p) {
      assert QueueOk(s, p);
      assert Q(s', p) == if p == q then Q(s, q)[1..] else Q(s, p);
    }
    forall x | x in s.threads && x != t ensures PlaceOk(s', x) {
      assert PlaceOk(s, x);
      if s.threads[x].place == InQueue(q) {
        var i :| 0 <= i < |Q(s, q)| && Q(s, q)[i] == x;
        assert Q(s', q)[i - 1] == x;
      }
    }
  }

  lemma WakePlaced(s: State, q: Queue)
    requires Placed(s) && Q(s, q) != []
    ensures Q(s, q)[0] in s.threads && Placed(Wake(s, q))
  {
    PopPlaced(s, q);
    PushPlaced(s.(queues := s.queues[q := Q(s, q)[1..]]), Ready, Q(s, q)[0]);
  }

  lemma ResumePlaced(s: State, q: Queue)
    requires Placed(s) && s.current == None && Q(s, q) != []
    ensures Q(s, q)[0] in s.threads && Placed(Resume(s, q))
  {
    PopPlaced(s, q);
    var t, s1, s' := Q(s, q)[0], s.(queues := s.queues[q := Q(s, q)[1..]]), Resume(s, q);
    forall p ensures QueueOk(s', p) {
      assert QueueOk(s1, p) && t !in Q(s1, p);
      assert forall i :: 0 <= i < |Q(s1, p)| ==> Q(s1, p)[i] in Q(s1, p);
    }
    forall x | x in s'.threads ensures PlaceOk(s', x) {
      if x != t { assert PlaceOk(s1, x); }
    }
  }

  lemma AddPlaced(s: State, t: Tid, q: Queue)
    requires Placed(s) && t !in s.threads && t !in s.freed
    ensures Placed(AddThread(s, t, q))
  {
    var s1 := s.(threads := s.threads[t := NewThread(q)]);
    NewThreadFrame(s, t, q, s1);
    PushPlaced(s1, q, t);
    assert Push(s1, q, t) == AddThread(s, t, q);
  }

  lemma NewThreadFrame(s: State, t: Tid, q: Queue, s1: State)
    requires Placed(s) && t !in s.threads && s1 == s.(threads := s.threads[t := NewThread(q)])
    ensures forall p :: QueueOk(s1, p) && t !in Q(s1, p)
    ensures forall x :: x in s1.threads && x != t ==> PlaceOk(s1, x)
  {
    forall p ensures QueueOk(s1, p) && t !in Q(s1, p) {
      assert QueueOk(s, p);
      assert Q(s1, p) == Q(s, p);
      assert forall i :: 0 <= i < |Q(s, p)| ==> Q(s, p)[i] in s.threads;
    }
    forall x | x in s1.threads && x != t ensures PlaceOk(s1, x) { assert PlaceOk(s, x); }
  }

  // ---------------------------------------------------------------------------------------------
  // Counting the suspended threads

  lemma CardinalityUpTo(a: set<Tid>, b: set<Tid>, t: Tid)
    requires a - {t} == b - {t}
    ensures |b| + (if t in a then 1 else 0) == |a| + (if t in b then 1 else 0)
  {
    assert t in a ==> a == (a - {t}) + {t};
    assert t !in a ==> a == a - {t};
    assert t in b ==> b == (b - {t}) + {t};
    assert t !in b ==> b == b - {t};
  }

  lemma SuspendedChange(s: State, s': State, t: Tid)
    requires t in s.threads && s'.threads.Keys == s.threads.Keys
    requires forall x :: x in s.threads && x != t ==> s'.threads[x].pc == s.threads[x].pc
    ensures |SuspendedSet(s')| + (if Suspended(s.threads[t].pc) then 1 else 0)
            == |SuspendedSet(s)| + (if Suspended(s'.threads[t].pc) then 1 else 0)
  {
    forall x ensures x in SuspendedSet(s) - {t} <==> x in SuspendedSet(s') - {t} {}
    CardinalityUpTo(SuspendedSet(s), SuspendedSet(s'), t);
  }

  lemma SuspendedRemove(s: State, s': State, t: Tid)
    requires t in s.threads && s'.threads == s.threads - {t}
    ensures |SuspendedSet(s')| + (if Suspended(s.threads[t].pc) then 1 else 0) == |SuspendedSet(s)|
  {
    assert SuspendedSet(s) - {t} == SuspendedSet(s');
  }

  lemma SuspendedAdd(s: State, t: Tid, q: Queue)
    requires t !in s.threads
    ensures SuspendedSet(AddThread(s, t, q)) == SuspendedSet(s)
  {
  }

  // ---------------------------------------------------------------------------------------------
  // Exit and join: what leaves the relation between exiting threads and their joiners alone

  predicate Neutral(pc: Pc) { !InExit(pc) && !Joiner(pc) }

  predicate SameForJoins(a: Thread, b: Thread) {
    && a.join == b.join && a.ltJoin == b.ltJoin
    && ((a.pc == b.pc && (a.place == Parked <==> b.place == Parked)) || (Neutral(a.pc) && Neutral(b.pc)))
  }

  lemma JoinsKept(s: State, s': State)
    requires Joins(s) && s.threads.Keys <= s'.threads.Keys
    requires forall x :: x in s.threads ==> SameForJoins(s.threads[x], s'.threads[x])
    requires forall x :: x in s'.threads && x !in s.threads ==> exists q :: s'.threads[x] == NewThread(q)
    ensures Joins(s')
  {
    forall x | x in s'.threads ensures JoinedOk(s', x) && JoinerOk(s', x) {
      if x in s.threads { assert JoinedOk(s, x) && JoinerOk(s, x); }
    }
  }

  // ---------------------------------------------------------------------------------------------
  // Every step keeps the invariant

  lemma MutexesKept(s: State, s': State)
    requires Mutexes(s) && s'.mutexes == s.mutexes && forall m :: Q(s', MutexQ(m)) == Q(s, MutexQ(m))
    ensures Mutexes(s')
  {
    forall m ensures MutexOk(s', m) { assert MutexOk(s, m); }
  }

  lemma AddInv(s: State, t: Tid, q: Queue)
    requires Inv(s) && t !in s.threads && t !in s.freed && (q == Ready || q == Peer)
    ensures Inv(AddThread(s, t, q))
  {
    AddPlaced(s, t, q);
    SuspendedAdd(s, t, q);
    JoinsKept(s, AddThread(s, t, q));
    MutexesKept(s, AddThread(s, t, q));
  }

  /** The running thread, at a point in its own code, leaves for a queue. */
  lemma SwitchInv(s: State, t: Tid, pc: Pc, q: Queue)
    requires Placed(s) && Locals(s) && Joins(s) && s.current == Some(t)
    requires Neutral(s.threads[t].pc) && Neutral(pc) && LocalOk(s.threads[t].(pc := pc, place := InQueue(q)))
    ensures var s' := SwitchTo(s, t, pc, q); Placed(s') && Locals(s') && Joins(s')
  {
    SwitchPlaced(s, t, pc, q);
    JoinsKept(s, SwitchTo(s, t, pc, q));
  }

  /** The first thread blocked on a mutex or a condition variable becomes ready. */
  lemma WakeInv(s: State, q: Queue)
    requires Placed(s) && Locals(s) && Joins(s) && (q.MutexQ? || q.CondQ?) && Q(s, q) != []
    ensures Q(s, q)[0] in s.threads
    ensures var s' := Wake(s, q);
            && Placed(s') && Locals(s') && Joins(s') && SuspendedSet(s') == SuspendedSet(s)
            && Q(s', q) == Q(s, q)[1..] && forall p :: p != q && p != Ready ==> Q(s', p) == Q(s, p)
    ensures q.MutexQ? ==> s.threads[Q(s, q)[0]].pc == InLock(q.m)
  {
    WakePlaced(s, q);
    assert QueueOk(s, q);
    hide Placed, Joins;
    var t := Q(s, q)[0];
    assert LocalOk(s.threads[t]);
    WakeQueues(s, q);
    JoinsKept(s, Wake(s, q));
  }

  lemma WakeQueues(s: State, q: Queue)
    requires q != Ready && Q(s, q) != [] && Q(s, q)[0] in s.threads
    ensures Q(Wake(s, q), q) == Q(s, q)[1..] && forall p :: p != q && p != Ready ==> Q(Wake(s, q), p) == Q(s, p)
  {
  }

  lemma LockPassMutexes(s: State, t: Tid, m: nat)
    requires Mutexes(s) && t in s.threads
    ensures Mutexes(LockPass(s, t, m))
  {
    forall k ensures MutexOk(LockPass(s, t, m), k) { assert MutexOk(s, k); }
  }

  lemma LockPassCounted(s: State, t: Tid, m: nat)
    requires t in s.threads && (s.threads[t].pc == User || s.threads[t].pc == InLock(m))
    requires s.blocked + (if s.threads[t].pc == User then 0 else 1) == |SuspendedSet(s)| + s.leaked
    ensures Counted(LockPass(s, t, m))
  {
    SuspendedChange(s, LockPass(s, t, m), t);
  }

  lemma LockTakesInv(s: State, t: Tid, m: nat)
    requires Placed(s) && Locals(s) && Joins(s) && s.current == Some(t) && M(s, m).owner == None
    requires s.threads[t].pc == User || s.threads[t].pc == InLock(m)
    ensures var s' := LockPass(s, t, m); Placed(s') && Locals(s') && Joins(s')
  {
    LockTakesPlaced(s, t, m);
    JoinsKept(s, LockPass(s, t, m));
  }

  lemma LockTakesPlaced(s: State, t: Tid, m: nat)
    requires Placed(s) && Locals(s) && s.current == Some(t) && M(s, m).owner == None
    requires s.threads[t].pc == User || s.threads[t].pc == InLock(m)
    ensures Placed(LockPass(s, t, m)) && Locals(LockPass(s, t, m))
  {
    var s1 := s.(mutexes := s.mutexes[m := Mutex(Some(t), M(s, m).count + 1)]);
    assert LocalOk(s.threads[t]) && PlaceOk(s, t);
    SameThreads(s, s1);
    WithPlaced(s1, t, s.threads[t].(pc := User));
    assert LockPass(s, t, m) == With(s1, t, s.threads[t].(pc := User));
  }

  lemma LockBlocksPlaced(s: State, t: Tid, m: nat)
    requires Placed(s) && s.current == Some(t) && M(s, m).owner.Some?
    ensures Placed(LockPass(s, t, m))
  {
    var s1 := s.(mutexes := s.mutexes[m := M(s, m).(count := M(s, m).count + 1)], blocked := s.blocked + 1);
    SameThreads(s, s1);
    SwitchPlaced(s1, t, InLock(m), MutexQ(m));
  }

  lemma LockBlocksInv(s: State, t: Tid, m: nat)
    requires Locals(s) && Joins(s) && t in s.threads && M(s, m).owner.Some?
    requires s.threads[t].pc == User || s.threads[t].pc == InLock(m)
    ensures var s' := LockPass(s, t, m); Locals(s') && Joins(s')
  {
    assert LocalOk(s.threads[t]);
    JoinsKept(s, LockPass(s, t, m));
  }

  lemma LockPassInv(s: State, t: Tid, m: nat)
    requires Placed(s) && Locals(s) && Joins(s) && Mutexes(s) && s.current == Some(t)
    requires s.threads[t].pc == User || s.threads[t].pc == InLock(m)
    requires s.blocked + (if s.threads[t].pc == User then 0 else 1) == |SuspendedSet(s)| + s.leaked
    ensures Inv(LockPass(s, t, m))
  {
    if M(s, m).owner == None { LockTakesInv(s, t, m); } else { LockBlocksPlaced(s, t, m); LockBlocksInv(s, t, m); }
    LockPassMutexes(s, t, m);
    LockPassCounted(s, t, m);
  }

  /** Fields other than the threads, the queues and the running thread do not matter to their places. */
  lemma SameThreads(s: State, s': State)
    requires s'.threads == s.threads && s'.queues == s.queues && s'.current == s.current && s'.freed == s.freed
    ensures Placed(s) ==> Placed(s')
    ensures Locals(s) ==> Locals(s')
    ensures Joins(s) ==> Joins(s')
  {
    if Placed(s) {
      forall q ensures QueueOk(s', q) { assert QueueOk(s, q); assert Q(s', q) == Q(s, q); }
      forall t | t in s'.threads ensures PlaceOk(s', t) { assert PlaceOk(s, t); }
    }
    if Joins(s) {
      forall t | t in s'.threads ensures JoinedOk(s', t) && JoinerOk(s', t) { assert JoinedOk(s, t) && JoinerOk(s, t); }
    }
  }

  lemma UnlockInv(s: State, m: nat)
    requires Inv(s) && M(s, m).owner.Some?
    requires M(s, m).count > 1 ==> Q(s, MutexQ(m)) != [] && Q(s, MutexQ(m))[0] in s.threads
    ensures Inv(UnlockAll(s, m))
  {
    var s' := UnlockAll(s, m);
    assert MutexOk(s, m);
    if M(s, m).count > 1 {
      WakeInv(s, MutexQ(m));
      SameThreads(Wake(s, MutexQ(m)), s');
      assert SuspendedSet(s') == SuspendedSet(s);
    } else {
      SameThreads(s, s');
      assert SuspendedSet(s') == SuspendedSet(s);
    }
    forall k ensures MutexOk(s', k) { assert MutexOk(s, k); }
  }

  lemma WakeCondInv(s: State, c: nat)
    requires Inv(s) && Q(s, CondQ(c)) != []
    ensures Q(s, CondQ(c))[0] in s.threads && Inv(Wake(s, CondQ(c)))
  {
    WakeInv(s, CondQ(c));
    MutexesKept(s, Wake(s, CondQ(c)));
  }

  lemma DrainInv(s: State, c: nat)
    requires Inv(s) && forall i :: 0 <= i < |Q(s, CondQ(c))| ==> Q(s, CondQ(c))[i] in s.threads
    ensures Inv(Drain(s, CondQ(c)))
    decreases |Q(s, CondQ(c))|
  {
    if Q(s, CondQ(c)) != [] {
      WakeCondInv(s, c);
      assert QueueOk(Wake(s, CondQ(c)), CondQ(c));
      DrainInv(Wake(s, CondQ(c)), c);
    }
  }

  lemma DrainQueues(s: State, q: Queue)
    requires q != Ready && forall i :: 0 <= i < |Q(s, q)| ==> Q(s, q)[i] in s.threads
    ensures var s' := Drain(s, q);
            s'.current == s.current && Q(s', q) == [] && Q(s', Ready) == Q(s, Ready) + Q(s, q)
    decreases |Q(s, q)|
  {
    if Q(s, q) != [] {
      var s1 := Wake(s, q);
      assert Q(s1, q) == Q(s, q)[1..] && Q(s1, Ready) == Q(s, Ready) + [Q(s, q)[0]];
      DrainQueues(s1, q);
      assert Q(s, Ready) + Q(s, q) == Q(s1, Ready) + Q(s1, q);
    }
  }

  /** Draining a queue only moves the threads that are in it. */
  lemma DrainMovesOnlyWaiters(s: State, c: nat, t: Tid)
    requires Inv(s) && forall i :: 0 <= i < |Q(s, CondQ(c))| ==> Q(s, CondQ(c))[i] in s.threads
    requires t in s.threads && s.threads[t].place == Running
    ensures t in Drain(s, CondQ(c)).threads && Drain(s, CondQ(c)).threads[t] == s.threads[t]
    decreases |Q(s, CondQ(c))|
  {
    var q := CondQ(c);
    if Q(s, q) != [] {
      assert QueueOk(s, q);
      WakeCondInv(s, c);
      DrainMovesOnlyWaiters(Wake(s, q), c, t);
    }
  }

  lemma ResumeJoins(s: State, q: Queue)
    requires Locals(s) && Joins(s) && Q(s, q) != [] && Q(s, q)[0] in s.threads
    requires s.threads[Q(s, q)[0]].place == InQueue(q)
    ensures Joins(Resume(s, q))
  {
    var th, s' := s.threads[Q(s, q)[0]], Resume(s, q);
    assert LocalOk(th);
    if th.exited && th.detached {
      forall x | x in s'.threads ensures JoinedOk(s', x) && JoinerOk(s', x) { assert JoinedOk(s, x) && JoinerOk(s, x); }
    } else {
      JoinsKept(s, s');
    }
  }

  lemma ResumeCounted(s: State, q: Queue)
    requires Counted(s) && Q(s, q) != [] && Q(s, q)[0] in s.threads
    ensures Counted(Resume(s, q))
  {
    var th := s.threads[Q(s, q)[0]];
    if th.exited && th.detached { SuspendedRemove(s, Resume(s, q), Q(s, q)[0]); }
    else { SuspendedChange(s, Resume(s, q), Q(s, q)[0]); }
  }

  lemma ResumeLocals(s: State, q: Queue)
    requires Placed(s) && Locals(s) && Q(s, q) != [] && Q(s, q)[0] in s.threads && (q == Ready || q == Peer)
    ensures Locals(Resume(s, q))
  {
    assert QueueOk(s, q) && LocalOk(s.threads[Q(s, q)[0]]);
  }

  lemma ResumeInv(s: State, q: Queue)
    requires Inv(s) && Enabled(s, Dispatch(q))
    ensures Inv(Resume(s, q))
  {
    assert QueueOk(s, q);
    ResumePlaced(s, q);
    ResumeLocals(s, q);
    ResumeJoins(s, q);
    ResumeCounted(s, q);
    MutexesKept(s, Resume(s, q));
  }

  // -- exiting and joining: two records change at most

  predicate OnlyChanged(s: State, s': State, t: Tid, u: Tid) {
    && s'.threads.Keys == s.threads.Keys && t in s.threads && u in s.threads
    && forall x :: x in s.threads && x != t && x != u ==> s'.threads[x] == s.threads[x]
  }

  lemma LocalsUpdate(s: State, s': State, t: Tid, u: Tid)
    requires Locals(s) && OnlyChanged(s, s', t, u) && LocalOk(s'.threads[t]) && LocalOk(s'.threads[u])
    ensures Locals(s')
  {
  }

  /** Whoever relied on the record of `t`, other than `t` and `u`, still can. */
  predicate Relied(s: State, s': State, t: Tid, u: Tid)
    requires t in s.threads && t in s'.threads
  {
    var a, b := s.threads[t], s'.threads[t];
    && (a.pc.JoinParked? && a.place == Parked ==>
      (b.pc == a.pc && b.place == Parked) || a.pc.target == t || a.pc.target == u)
    && (InExit(a.pc) && (a.join == Exiting || a.join == ValSet) && a.ltJoin.Some? ==>
          (InExit(b.pc) && (b.join == Exiting || b.join == ValSet) && b.ltJoin == a.ltJoin) || a.ltJoin == Some(t)
            || a.ltJoin == Some(u))
  }

  lemma JoinsUpdate(s: State, s': State, t: Tid, u: Tid)
    requires Joins(s) && OnlyChanged(s, s', t, u)
    requires Relied(s, s', t, u) && Relied(s, s', u, t)
    requires JoinedOk(s', t) && JoinerOk(s', t) && JoinedOk(s', u) && JoinerOk(s', u)
    ensures Joins(s')
  {
    forall x | x in s'.threads ensures JoinedOk(s', x) && JoinerOk(s', x) {
      if x != t && x != u { assert JoinedOk(s, x) && JoinerOk(s, x); }
    }
  }

  lemma CountedUpdate(s: State, s': State, t: Tid, u: Tid)
    requires OnlyChanged(s, s', t, u) && s'.leaked == s.leaked && (t != u ==> s'.threads[u].pc == s.threads[u].pc)
    requires s'.blocked + (if Suspended(s.threads[t].pc) then 1 else 0)
             == |SuspendedSet(s)| + s.leaked + (if Suspended(s'.threads[t].pc) then 1 else 0)
    ensures Counted(s')
  {
    SuspendedChange(s, s', t);
  }

  /** lthread_exit before any join: the thread parks itself. */
  lemma ParkForJoinInv(s: State, t: Tid, h: bool)
    requires Inv(s) && s.current == Some(t) && s.threads[t].pc == User
    requires !s.threads[t].detached && s.threads[t].join == Initial
    ensures Inv(BeginExit(s, t, h))
  {
    var s1 := With(s, t, s.threads[t].(join := Exiting));
    assert LocalOk(s.threads[t]);
    WithPlaced(s, t, s.threads[t].(join := Exiting));
    ParkPlaced(s1, t, ExitParked(h));
    UpdateInv(s, Park(s1, t, ExitParked(h)), t, t);
  }

  /** The shared end of all steps that change the records of at most two threads. */
  lemma UpdateInv(s: State, s': State, t: Tid, u: Tid)
    requires Locals(s) && Joins(s) && Mutexes(s) && OnlyChanged(s, s', t, u)
    requires LocalOk(s'.threads[t]) && LocalOk(s'.threads[u])
    requires Relied(s, s', t, u) && Relied(s, s', u, t)
    requires JoinedOk(s', t) && JoinerOk(s', t) && JoinedOk(s', u) && JoinerOk(s', u)
    requires s'.leaked == s.leaked && (t != u ==> s'.threads[u].pc == s.threads[u].pc)
    requires s'.blocked + (if Suspended(s.threads[t].pc) then 1 else 0)
             == |SuspendedSet(s)| + s.leaked + (if Suspended(s'.threads[t].pc) then 1 else 0)
    requires s'.mutexes == s.mutexes && forall m :: Q(s', MutexQ(m)) == Q(s, MutexQ(m))
    ensures Locals(s') && Joins(s') && Mutexes(s') && Counted(s')
  {
    LocalsUpdate(s, s', t, u);
    JoinsUpdate(s, s', t, u);
    CountedUpdate(s, s', t, u);
    MutexesKept(s, s');
  }

  lemma WakeJoinerPlaced(s: State, t: Tid, h: bool)
    requires Placed(s) && s.current == Some(t) && s.threads[t].join != Initial
    requires s.threads[t].ltJoin.Some? && s.threads[t].ltJoin.value in s.threads
    requires s.threads[s.threads[t].ltJoin.value].place == Parked
    ensures Placed(BeginExit(s, t, h))
  {
    assert PlaceOk(s, t);
    var j, s1 := s.threads[t].ltJoin.value, With(s, t, s.threads[t].(join := ValSet));
    WithPlaced(s, t, s.threads[t].(join := ValSet));
    ReadyPlaced(s1, j);
    SwitchPlaced(Push(s1, Ready, j), t, ExitWait(h), Ready);
  }

  lemma WakeJoinerFrame(s: State, t: Tid, h: bool)
    requires t in s.threads && s.threads[t].join == ThreadSet
    requires s.threads[t].ltJoin.Some? && s.threads[t].ltJoin.value in s.threads && s.threads[t].ltJoin.value != t
    ensures var s', j := BeginExit(s, t, h), s.threads[t].ltJoin.value;
            && OnlyChanged(s, s', t, j)
            && s'.threads[t] == s.threads[t].(join := ValSet, pc := ExitWait(h), place := InQueue(Ready))
            && s'.threads[j] == s.threads[j].(place := InQueue(Ready))
            && s'.mutexes == s.mutexes && s'.blocked == s.blocked && s'.leaked == s.leaked
            && forall m :: Q(s', MutexQ(m)) == Q(s, MutexQ(m))
  {
  }

  /** lthread_exit after a join: the joiner is made ready. */
  lemma WakeJoinerInv(s: State, t: Tid, h: bool)
    requires Inv(s) && s.current == Some(t) && s.threads[t].pc == User
    requires !s.threads[t].detached && s.threads[t].join == ThreadSet
    ensures s.threads[t].ltJoin.Some? && s.threads[t].ltJoin.value in s.threads && Inv(BeginExit(s, t, h))
  {
    assert JoinedOk(s, t) && LocalOk(s.threads[t]) && LocalOk(s.threads[s.threads[t].ltJoin.value]);
    WakeJoinerPlaced(s, t, h);
    WakeJoinerFrame(s, t, h);
    UpdateInv(s, BeginExit(s, t, h), t, s.threads[t].ltJoin.value);
  }

  lemma BeginExitInv(s: State, t: Tid, h: bool)
    requires Inv(s) && s.current == Some(t) && s.threads[t].pc == User && !s.threads[t].detached
    ensures s.threads[t].join != Initial ==> s.threads[t].ltJoin.Some? && s.threads[t].ltJoin.value in s.threads
    ensures Inv(BeginExit(s, t, h))
  {
    assert LocalOk(s.threads[t]);
    if s.threads[t].join == Initial { ParkForJoinInv(s, t, h); } else { WakeJoinerInv(s, t, h); }
  }

  /** A state whose running thread has just come back from `_suspend` and taken itself off the count. */
  ghost predicate Resumed(s: State, t: Tid) {
    && Placed(s) && Locals(s) && Joins(s) && Mutexes(s) && s.current == Some(t)
    && s.blocked + (if Suspended(s.threads[t].pc) then 1 else 0) == |SuspendedSet(s)| + s.leaked
  }

  lemma StoreValueInv(s: State, t: Tid, h: bool)
    requires Resumed(s, t) && s.threads[t].pc == ExitParked(h)
    ensures Inv(StoreValue(s, t, h))
  {
    var s1 := With(s, t, s.threads[t].(join := ValSet));
    assert LocalOk(s.threads[t]) && PlaceOk(s, t);
    WithPlaced(s, t, s.threads[t].(join := ValSet));
    SwitchPlaced(s1, t, ExitWait(h), Ready);
    UpdateInv(s, SwitchTo(s1, t, ExitWait(h), Ready), t, t);
  }

  lemma EndExitInv(s: State, t: Tid, h: bool)
    requires Resumed(s, t) && s.threads[t].pc == ExitWait(h) && s.threads[t].join == ValRead
    ensures Inv(EndExit(s, t, h))
  {
    var th := s.threads[t].(join := Initial, detached := true, exited := true, pc := User);
    assert LocalOk(s.threads[t]) && PlaceOk(s, t);
    WithPlaced(s, t, th);
    if h { SwitchPlaced(With(s, t, th), t, Ended, Ready); }
    UpdateInv(s, EndExit(s, t, h), t, t);
  }

  lemma WaitForReadInv(s: State, t: Tid, h: bool)
    requires Resumed(s, t) && s.threads[t].pc == ExitWait(h)
    ensures Inv(WaitForRead(s, t, h))
  {
    assert LocalOk(s.threads[t]) && PlaceOk(s, t);
    if s.threads[t].join == ValRead {
      EndExitInv(s, t, h);
    } else {
      SwitchPlaced(s, t, ExitWait(h), Ready);
      UpdateInv(s, SwitchTo(s, t, ExitWait(h), Ready), t, t);
    }
  }

  lemma CollectInv(s: State, t: Tid, target: Tid)
    requires Resumed(s, t) && Joiner(s.threads[t].pc) && target == s.threads[t].pc.target
    requires target in s.threads && s.threads[target].join == ValSet
    ensures Inv(JoinPass(s, t, target))
  {
    assert LocalOk(s.threads[t]) && PlaceOk(s, t) && JoinerOk(s, t) && LocalOk(s.threads[target]);
    var s1 := With(s, target, s.threads[target].(join := ValRead));
    WithPlaced(s, target, s.threads[target].(join := ValRead));
    WithPlaced(s1, t, s1.threads[t].(pc := User));
    UpdateInv(s, With(s1, t, s1.threads[t].(pc := User)), t, target);
  }

  lemma JoinPassInv(s: State, t: Tid, target: Tid)
    requires Resumed(s, t) && Joiner(s.threads[t].pc) && target == s.threads[t].pc.target
    ensures target in s.threads && Inv(JoinPass(s, t, target))
  {
    assert LocalOk(s.threads[t]) && PlaceOk(s, t) && JoinerOk(s, t);
    if s.threads[target].join == ValSet {
      CollectInv(s, t, target);
    } else {
      SwitchPlaced(s, t, JoinWait(target), Ready);
      UpdateInv(s, SwitchTo(s, t, JoinWait(target), Ready), t, t);
    }
  }

  lemma JoinFirstPlaced(s: State, t: Tid, target: Tid)
    requires Placed(s) && s.current == Some(t) && target in s.threads
    requires !s.threads[target].detached && s.threads[target].join == Initial
    ensures Placed(JoinBy(s, t, target))
  {
    var th := s.threads[target].(ltJoin := Some(t), join := ThreadSet);
    WithPlaced(s, target, th);
    ParkPlaced(With(s, target, th), t, JoinParked(target));
  }

  lemma JoinFirstFrame(s: State, t: Tid, target: Tid)
    requires t in s.threads && target in s.threads && !s.threads[target].detached && s.threads[target].join == Initial
    ensures var s', th := JoinBy(s, t, target), s.threads[target].(ltJoin := Some(t), join := ThreadSet);
            && OnlyChanged(s, s', t, target)
            && (t != target ==> s'.threads[target] == th
                                && s'.threads[t] == s.threads[t].(pc := JoinParked(target), place := Parked))
            && (t == target ==> s'.threads[t] == th.(pc := JoinParked(target), place := Parked))
            && s'.mutexes == s.mutexes && s'.blocked == s.blocked + 1 && s'.leaked == s.leaked && s'.queues == s.queues
  {
  }

  /** lthread_join of a thread that is not exiting yet. */
  lemma JoinFirstRest(s: State, t: Tid, target: Tid)
    requires Locals(s) && Joins(s) && Mutexes(s) && Counted(s) && t in s.threads && target in s.threads
    requires s.threads[t].pc == User && s.threads[t].place == Running
    requires !s.threads[target].detached && s.threads[target].join == Initial
    ensures var s' := JoinBy(s, t, target); Locals(s') && Joins(s') && Mutexes(s') && Counted(s')
  {
    assert LocalOk(s.threads[t]) && LocalOk(s.threads[target]);
    JoinFirstFrame(s, t, target);
    UpdateInv(s, JoinBy(s, t, target), t, target);
  }

  lemma JoinFirstInv(s: State, t: Tid, target: Tid)
    requires Inv(s) && s.current == Some(t) && s.threads[t].pc == User && target in s.threads
    requires !s.threads[target].detached && s.threads[target].join == Initial
    ensures Inv(JoinBy(s, t, target))
  {
    assert LocalOk(s.threads[target]) && PlaceOk(s, t);
    JoinFirstPlaced(s, t, target);
    JoinFirstRest(s, t, target);
  }

  lemma JoinExitingPlaced(s: State, t: Tid, target: Tid)
    requires Placed(s) && s.current == Some(t) && target in s.threads && s.threads[target].place == Parked
    requires !s.threads[target].detached && s.threads[target].join == Exiting
    ensures Placed(JoinBy(s, t, target))
  {
    assert PlaceOk(s, t);
    var s1 := With(s, target, s.threads[target].(ltJoin := Some(t)));
    WithPlaced(s, target, s.threads[target].(ltJoin := Some(t)));
    ReadyPlaced(s1, target);
    SwitchPlaced(Push(s1, Ready, target), t, JoinWait(target), Ready);
  }

  lemma JoinExitingFrame(s: State, t: Tid, target: Tid)
    requires t in s.threads && target in s.threads && t != target
    requires !s.threads[target].detached && s.threads[target].join == Exiting
    ensures var s' := JoinBy(s, t, target);
            && OnlyChanged(s, s', t, target)
            && s'.threads[target] == s.threads[target].(ltJoin := Some(t), place := InQueue(Ready))
            && s'.threads[t] == s.threads[t].(pc := JoinWait(target), place := InQueue(Ready))
            && s'.mutexes == s.mutexes && s'.blocked == s.blocked && s'.leaked == s.leaked
            && forall m :: Q(s', MutexQ(m)) == Q(s, MutexQ(m))
  {
  }

  /** lthread_join of a thread that is parked in its exit. */
  lemma JoinExitingRest(s: State, t: Tid, target: Tid)
    requires Locals(s) && Joins(s) && Mutexes(s) && Counted(s) && t in s.threads && target in s.threads
    requires s.threads[t].pc == User && s.threads[t].place == Running
    requires s.threads[target].join == Exiting && s.threads[target].ltJoin == None
    ensures var s' := JoinBy(s, t, target); Locals(s') && Joins(s') && Mutexes(s') && Counted(s')
  {
    assert LocalOk(s.threads[t]) && LocalOk(s.threads[target]);
    JoinExitingFrame(s, t, target);
    UpdateInv(s, JoinBy(s, t, target), t, target);
  }

  lemma JoinExitingInv(s: State, t: Tid, target: Tid)
    requires Inv(s) && s.current == Some(t) && s.threads[t].pc == User && target in s.threads
    requires s.threads[target].join == Exiting && s.threads[target].ltJoin == None
    ensures Inv(JoinBy(s, t, target))
  {
    assert LocalOk(s.threads[target]) && PlaceOk(s, t);
    JoinExitingPlaced(s, t, target);
    JoinExitingRest(s, t, target);
  }

  lemma JoinInv(s: State, t: Tid, target: Tid)
    requires Inv(s) && s.current == Some(t) && s.threads[t].pc == User && target in s.threads
    requires JoinsOnce(s, JoinThread(target))
    ensures Inv(JoinBy(s, t, target))
  {
    var tg := s.threads[target];
    assert LocalOk(tg);
    if !tg.detached && tg.join != ThreadSet {
      if tg.join == Initial { JoinFirstInv(s, t, target); } else { JoinExitingInv(s, t, target); }
    }
  }

  // -- the rest

  lemma UnblockedInv(s: State, t: Tid)
    requires Inv(s) && s.current == Some(t) && Suspended(s.threads[t].pc)
    ensures Resumed(Unblocked(s), t)
  {
    SameThreads(s, Unblocked(s));
    MutexesKept(s, Unblocked(s));
    assert SuspendedSet(Unblocked(s)) == SuspendedSet(s);
    assert t in SuspendedSet(s);
  }

  lemma SignalledInv(s: State, t: Tid)
    requires Resumed(s, t) && s.threads[t].pc.InCond?
    ensures Inv(With(s, t, s.threads[t].(pc := User)))
  {
    assert LocalOk(s.threads[t]) && PlaceOk(s, t) && JoinedOk(s, t);
    WithPlaced(s, t, s.threads[t].(pc := User));
    UpdateInv(s, With(s, t, s.threads[t].(pc := User)), t, t);
  }

  lemma ContinueInv(s: State, t: Tid)
    requires Inv(s) && s.current == Some(t) && s.threads[t].pc != User
    ensures Joiner(s.threads[t].pc) ==> s.threads[t].pc.target in s.threads
    ensures Inv(ContinueAt(s, t))
  {
    assert JoinerOk(s, t) && PlaceOk(s, t) && LocalOk(s.threads[t]);
    if Suspended(s.threads[t].pc) { UnblockedInv(s, t); }
    match s.threads[t].pc
    case InLock(m) => LockPassInv(Unblocked(s), t, m);
    case InCond(_) => SignalledInv(Unblocked(s), t);
    case ExitParked(h) => StoreValueInv(Unblocked(s), t, h);
    case ExitWait(h) => WaitForReadInv(s, t, h);
    case JoinParked(target) => JoinPassInv(Unblocked(s), t, target);
    case JoinWait(target) => JoinPassInv(s, t, target);
    case _ =>
  }

  lemma YieldInv(s: State, t: Tid)
    requires Inv(s) && s.current == Some(t) && s.threads[t].pc == User
    ensures Inv(SwitchTo(s, t, User, Ready))
  {
    assert LocalOk(s.threads[t]);
    SwitchInv(s, t, User, Ready);
    MutexesKept(s, SwitchTo(s, t, User, Ready));
    SuspendedChange(s, SwitchTo(s, t, User, Ready), t);
  }

  lemma WaitInv(s: State, t: Tid, c: nat)
    requires Inv(s) && s.current == Some(t) && s.threads[t].pc == User
    ensures Inv(SwitchTo(s.(blocked := s.blocked + 1), t, InCond(c), CondQ(c)))
  {
    var s1 := s.(blocked := s.blocked + 1);
    assert LocalOk(s.threads[t]);
    SameThreads(s, s1);
    SwitchInv(s1, t, InCond(c), CondQ(c));
    MutexesKept(s, SwitchTo(s1, t, InCond(c), CondQ(c)));
    SuspendedChange(s, SwitchTo(s1, t, InCond(c), CondQ(c)), t);
  }

  lemma BroadcastInv(s: State, c: nat)
    requires Inv(s) && Enabled(s, Broadcast(c))
    ensures Inv(After(s, Broadcast(c)))
  {
    assert PlaceOk(s, s.current.value);
    DrainInv(s, c);
    DrainQueues(s, CondQ(c));
    DrainMovesOnlyWaiters(s, c, s.current.value);
    YieldInv(Drain(s, CondQ(c)), s.current.value);
  }

  lemma DetachInv(s: State)
    requires Inv(s) && Enabled(s, Detach)
    ensures Inv(After(s, Detach))
  {
    hide Placed, Joins, Mutexes;
    var t := s.current.value;
    assert LocalOk(s.threads[t]);
    WithPlaced(s, t, s.threads[t].(detached := true));
    JoinsKept(s, After(s, Detach));
    MutexesKept(s, After(s, Detach));
    SuspendedChange(s, After(s, Detach), t);
  }

  lemma MarkExitedInv(s: State, t: Tid)
    requires Inv(s) && s.current == Some(t) && s.threads[t].pc == User
    ensures Inv(With(s, t, s.threads[t].(exited := true)))
  {
    var s1 := With(s, t, s.threads[t].(exited := true));
    assert LocalOk(s.threads[t]);
    WithPlaced(s, t, s.threads[t].(exited := true));
    JoinsKept(s, s1);
    MutexesKept(s, s1);
    SuspendedChange(s, s1, t);
  }

  lemma LeaveForGoodInv(s: State, t: Tid)
    requires Inv(s) && s.current == Some(t) && s.threads[t].pc == User && s.threads[t].exited && s.threads[t].detached
    ensures Inv(SwitchTo(s, t, Ended, Ready))
  {
    assert LocalOk(s.threads[t]);
    SwitchInv(s, t, Ended, Ready);
    MutexesKept(s, SwitchTo(s, t, Ended, Ready));
    SuspendedChange(s, SwitchTo(s, t, Ended, Ready), t);
  }

  lemma ReturnInv(s: State)
    requires Inv(s) && Enabled(s, Return)
    ensures Inv(After(s, Return))
  {
    var t := s.current.value;
    var s1 := With(s, t, s.threads[t].(exited := true));
    MarkExitedInv(s, t);
    if s.threads[t].detached { LeaveForGoodInv(s1, t); } else { BeginExitInv(s1, t, true); }
  }

  lemma LockStepInv(s: State, t: Tid, step: Step)
    requires Inv(s) && Enabled(s, step) && s.current == Some(t) && (step.Lock? || step.TryLock? || step.Unlock?)
    ensures Inv(UserStep(s, t, step))
  {
    assert PlaceOk(s, t);
    match step
    case Lock(m) => if M(s, m).owner != Some(t) { LockPassInv(s, t, m); }
    case TryLock(m) => if M(s, m).owner == None { LockPassInv(s, t, m); }
    case Unlock(m) => if M(s, m).owner == Some(t) { UnlockInv(s, m); }
  }

  lemma ExitStepInv(s: State, t: Tid, step: Step)
    requires Inv(s) && Enabled(s, step) && JoinsOnce(s, step) && s.current == Some(t)
    requires step.Detach? || step.Exit? || step.JoinThread?
    ensures Inv(UserStep(s, t, step))
  {
    match step
    case Detach => DetachInv(s);
    case Exit => if !s.threads[t].detached { BeginExitInv(s, t, false); }
    case JoinThread(n) => JoinInv(s, t, n);
  }

  lemma YieldStepInv(s: State)
    requires Inv(s) && Enabled(s, Yield)
    ensures Inv(After(s, Yield))
  {
    YieldInv(s, s.current.value);
    assert After(s, Yield) == SwitchTo(s, s.current.value, User, Ready);
  }

  lemma WaitStepInv(s: State, c: nat)
    requires Inv(s) && Enabled(s, Wait(c))
    ensures Inv(After(s, Wait(c)))
  {
    WaitInv(s, s.current.value, c);
    assert After(s, Wait(c)) == SwitchTo(s.(blocked := s.blocked + 1), s.current.value, InCond(c), CondQ(c));
  }

  lemma StayStepInv(s: State, t: Tid, step: Step)
    requires Inv(s) && Enabled(s, step) && s.current == Some(t) && (step.Create? || step.Signal?)
    ensures Inv(UserStep(s, t, step))
  {
    if step.Create? { AddInv(s, step.t, Ready); }
    else if Q(s, CondQ(step.c)) != [] { WakeCondInv(s, step.c); }
  }

  lemma ShutdownInv(s: State)
    requires Inv(s)
    ensures Inv(s.(runFlag := false))
  {
    var s' := s.(runFlag := false);
    SameThreads(s, s');
    MutexesKept(s, s');
    assert SuspendedSet(s') == SuspendedSet(s);
  }

  lemma StepInv(s: State, step: Step)
    requires Inv(s) && Enabled(s, step) && JoinsOnce(s, step)
    ensures Inv(After(s, step))
  {
    match step
    case PeerCreate(t) => AddInv(s, t, Peer);
    case Shutdown => ShutdownInv(s);
    case Dispatch(q) => ResumeInv(s, q);
    case Continue => ContinueInv(s, s.current.value);
    case Broadcast(c) => BroadcastInv(s, c);
    case Return => ReturnInv(s);
    case Lock(_) => LockStepInv(s, s.current.value, step);
    case TryLock(_) => LockStepInv(s, s.current.value, step);
    case Unlock(_) => LockStepInv(s, s.current.value, step);
    case Detach => ExitStepInv(s, s.current.value, step);
    case Exit => ExitStepInv(s, s.current.value, step);
    case JoinThread(_) => ExitStepInv(s, s.current.value, step);
    case Yield => YieldStepInv(s);
    case Wait(c) => WaitStepInv(s, c);
    case _ => StayStepInv(s, s.current.value, step);
  }

  // ---------------------------------------------------------------------------------------------
  // Main results about every run in which no thread is joined twice

  ghost predicate PoliteRun(s: State, steps: seq<Step>)
    decreases |steps|
  {
    steps == [] || (Enabled(s, steps[0]) && JoinsOnce(s, steps[0]) && PoliteRun(After(s, steps[0]), steps[1..]))
  }

  lemma InitInv()
    ensures Inv(Init())
  {
    assert SuspendedSet(Init()) == {};
    assert forall m :: MutexOk(Init(), m);
  }

  lemma {:induction false} RunInv(s: State, steps: seq<Step>)
    requires Inv(s) && PoliteRun(s, steps)
    ensures Run(s, steps).Some? && Inv(Run(s, steps).value)
    decreases |steps|
  {
    if steps != [] {
      StepInv(s, steps[0]);
      RunInv(After(s, steps[0]), steps[1..]);
    }
  }

  /** How often a thread occurs in a queue. */
  function Entries(queue: seq<Tid>, t: Tid): nat { multiset(queue)[t] }

  lemma {:induction false} EntriesOfDistinct(queue: seq<Tid>, t: Tid)
    requires forall i, j :: 0 <= i < j < |queue| ==> queue[i] != queue[j]
    ensures Entries(queue, t) == if t in queue then 1 else 0
    decreases |queue|
  {
    if queue != [] {
      var last := |queue| - 1;
      assert queue == queue[..last] + [queue[last]];
      EntriesOfDistinct(queue[..last], t);
      assert forall i :: 0 <= i < last ==> queue[i] in queue[..last];
    }
  }

  /** Every thread that is not freed is in exactly one place: on the cpu and in no queue, in exactly one
      queue exactly once, or parked inside exit or join and in no queue. */
  lemma OnePlace(steps: seq<Step>, t: Tid)
    requires PoliteRun(Init(), steps)
    ensures Run(Init(), steps).Some?
    ensures var s := Run(Init(), steps).value;
            if t !in s.threads then s.current != Some(t) && forall q :: Entries(Q(s, q), t) == 0
            else match s.threads[t].place
                 case Running => s.current == Some(t) && forall q :: Entries(Q(s, q), t) == 0
                 case Parked =>
                   && s.current != Some(t) && (forall q :: Entries(Q(s, q), t) == 0)
                   && (s.threads[t].pc.ExitParked? || s.threads[t].pc.JoinParked?)
                 case InQueue(q) =>
                   s.current != Some(t) && forall p :: Entries(Q(s, p), t) == if p == q then 1 else 0
  {
    InitInv();
    RunInv(Init(), steps);
    var s := Run(Init(), steps).value;
    if t in s.threads { assert PlaceOk(s, t) && LocalOk(s.threads[t]); }
    forall q ensures Entries(Q(s, q), t) == if t in s.threads && s.threads[t].place == InQueue(q) then 1 else 0 {
      assert QueueOk(s, q);
      EntriesOfDistinct(Q(s, q), t);
    }
  }

  /** A thread that is not running is ready, or suspended. */
  lemma ReadyOrSuspended(s: State, t: Tid)
    requires Inv(s) && t in s.threads && s.current == None
    ensures t in Q(s, Ready) || t in Q(s, Peer) || t in SuspendedSet(s)
  {
    assert PlaceOk(s, t) && LocalOk(s.threads[t]);
  }

  /** The scheduler loop stops exactly when it has been told to and no thread is left: all that were ever
      created have been freed.  (Between two threads, and if none was freed inside `_suspend`.) */
  lemma DoneIffNoThreads(steps: seq<Step>)
    requires PoliteRun(Init(), steps)
    ensures Run(Init(), steps).Some?
    ensures var s := Run(Init(), steps).value;
            && (IsDone(s) ==> s.threads == map[])
            && (s.current == None && s.leaked == 0 ==> (IsDone(s) <==> !s.runFlag && s.threads == map[]))
  {
    InitInv();
    RunInv(Init(), steps);
    var s := Run(Init(), steps).value;
    if s.current == None {
      forall t | t in s.threads ensures !IsDone(s) { ReadyOrSuspended(s, t); }
      assert QueueOk(s, Ready) && QueueOk(s, Peer);
      assert Q(s, Ready) != [] ==> Q(s, Ready)[0] in s.threads;
      assert Q(s, Peer) != [] ==> Q(s, Peer)[0] in s.threads;
      if s.threads == map[] { assert SuspendedSet(s) == {}; }
    }
  }

  /** A thread that has been freed is gone, and is never in a queue or on the cpu again. */
  lemma FreedOnce(steps: seq<Step>, t: Tid)
    requires PoliteRun(Init(), steps)
    ensures Run(Init(), steps).Some?
    ensures var s := Run(Init(), steps).value;
            t in s.freed ==> t !in s.threads && s.current != Some(t) && forall q :: t !in Q(s, q)
  {
    InitInv();
    RunInv(Init(), steps);
    var s := Run(Init(), steps).value;
    if t in s.freed {
      forall q ensures t !in Q(s, q) { assert QueueOk(s, q); }
    }
  }

  /** `nb_blocked_threads` counts the threads whose continuation is inside `_suspend`, plus those that were
      freed there; so it is exact if and only if none was. */
  lemma BlockedCountExact(steps: seq<Step>)
    requires PoliteRun(Init(), steps)
    ensures Run(Init(), steps).Some?
    ensures var s := Run(Init(), steps).value;
            s.blocked == |SuspendedSet(s)| <==> s.leaked == 0
  {
    InitInv();
    RunInv(Init(), steps);
  }

  // ---------------------------------------------------------------------------------------------
  // Mutexes: no wake-up is lost, as long as no thread blocks after its own exit

  /** The step makes the running thread wait inside `_suspend`. */
  predicate Suspends(s: State, step: Step) {
    RunsUser(s) &&
    match step
    case Lock(m) => M(s, m).owner.Some? && M(s, m).owner != s.current
    case Wait(_) => true
    case JoinThread(t) => t in s.threads && !s.threads[t].detached && s.threads[t].join == Initial
    case _ => false
  }

  /** The running thread does not block once lthread_exit has marked it for freeing.  (lthread_exit called
      from a thread's own function returns to that function.) */
  predicate NoBlockAfterExit(s: State, step: Step) {
    Suspends(s, step) ==> !(s.threads[s.current.value].exited && s.threads[s.current.value].detached)
  }

  /** No thread is suspended that the scheduler would free instead of resuming it. */
  predicate NoZombie(s: State) {
    forall t :: t in s.threads && s.threads[t].exited && s.threads[t].detached ==> !Suspended(s.threads[t].pc)
  }

  /** Some thread has been woken from the queue of `m` and is about to compete for it again. */
  predicate Contender(s: State, t: Tid, m: nat) {
    t in s.threads && s.threads[t].pc == InLock(m) && AtReady(s.threads[t].place)
  }

  ghost predicate WakeUpPending(s: State, m: nat) {
    M(s, m).owner == None && Q(s, MutexQ(m)) != [] ==> exists t :: Contender(s, t, m)
  }

  ghost predicate StrictInv(s: State) {
    Inv(s) && NoZombie(s) && s.leaked == 0 && forall m :: WakeUpPending(s, m)
  }

  /** A step that leaves the mutexes, their queues and the woken waiters alone. */
  lemma WakeUpsKept(s: State, s': State)
    requires forall m :: WakeUpPending(s, m)
    requires s'.mutexes == s.mutexes && forall m :: Q(s', MutexQ(m)) == Q(s, MutexQ(m))
    requires forall t, m :: Contender(s, t, m) ==> Contender(s', t, m)
    ensures forall m :: WakeUpPending(s', m)
  {
    forall m ensures WakeUpPending(s', m) {
      assert WakeUpPending(s, m);
      if M(s', m).owner == None && Q(s', MutexQ(m)) != [] {
        var t :| Contender(s, t, m);
        assert Contender(s', t, m);
      }
    }
  }

  /** Taking a free mutex uses up a contender and leaves the mutex owned; blocking joins its queue. */
  lemma LockPassWakeUps(s: State, t: Tid, m: nat)
    requires t in s.threads && forall k :: k != m ==> WakeUpPending(s, k)
    requires s.threads[t].pc == User || s.threads[t].pc == InLock(m)
    ensures forall k :: WakeUpPending(LockPass(s, t, m), k)
  {
    var s' := LockPass(s, t, m);
    forall k ensures WakeUpPending(s', k) {
      if k != m && M(s', k).owner == None && Q(s', MutexQ(k)) != [] {
        assert WakeUpPending(s, k);
        var x :| Contender(s, x, k);
        assert Contender(s', x, k);
      }
    }
  }

  /** Releasing a mutex others wait for creates its contender. */
  lemma UnlockWakeUps(s: State, t: Tid, m: nat)
    requires Inv(s) && M(s, m).owner == Some(t) && forall k :: WakeUpPending(s, k)
    requires M(s, m).count > 1 ==> Q(s, MutexQ(m)) != [] && Q(s, MutexQ(m))[0] in s.threads
    ensures forall k :: WakeUpPending(UnlockAll(s, m), k)
  {
    var s' := UnlockAll(s, m);
    assert MutexOk(s, m);
    if M(s, m).count > 1 { WakeInv(s, MutexQ(m)); }
    forall k ensures WakeUpPending(s', k) {
      if M(s', k).owner == None && Q(s', MutexQ(k)) != [] {
        if k == m {
          assert Contender(s', Q(s, MutexQ(m))[0], m);
        } else {
          assert WakeUpPending(s, k);
          var x :| Contender(s, x, k);
          assert Contender(s', x, k);
        }
      }
    }
  }

  /** Steps that are neither a pass of the lock loop nor an unlock. */
  predicate LeavesMutexes(s: State, step: Step) {
    match step
    case Lock(m) => M(s, m).owner == s.current
    case TryLock(m) => M(s, m).owner != None
    case Unlock(m) => M(s, m).owner != s.current
    case Continue => s.current.Some? && s.current.value in s.threads && !s.threads[s.current.value].pc.InLock?
    case _ => true
  }

  lemma DrainLeavesLockers(s: State, c: nat)
    requires Inv(s) && forall i :: 0 <= i < |Q(s, CondQ(c))| ==> Q(s, CondQ(c))[i] in s.threads
    ensures Drain(s, CondQ(c)).mutexes == s.mutexes
    ensures forall m :: Q(Drain(s, CondQ(c)), MutexQ(m)) == Q(s, MutexQ(m))
    ensures forall t, m :: Contender(s, t, m) ==> Contender(Drain(s, CondQ(c)), t, m)
    decreases |Q(s, CondQ(c))|
  {
    hide Inv, Wake, Contender;
    if Q(s, CondQ(c)) != [] {
      WakeLeavesLockers(s, c);
      DrainLeavesLockers(Wake(s, CondQ(c)), c);
    }
  }

  lemma WakeLeavesLockers(s: State, c: nat)
    requires Inv(s) && Q(s, CondQ(c)) != [] && Q(s, CondQ(c))[0] in s.threads
    ensures var s' := Wake(s, CondQ(c));
            && Inv(s') && Q(s', CondQ(c)) == Q(s, CondQ(c))[1..] && s'.mutexes == s.mutexes
            && (forall i :: 0 <= i < |Q(s', CondQ(c))| ==> Q(s', CondQ(c))[i] in s'.threads)
            && (forall m :: Q(s', MutexQ(m)) == Q(s, MutexQ(m)))
            && forall t, m :: Contender(s, t, m) ==> Contender(s', t, m)
  {
    assert QueueOk(s, CondQ(c));
    WakeCondInv(s, c);
    assert QueueOk(Wake(s, CondQ(c)), CondQ(c));
  }

  /** Whoever was about to compete for a mutex still is, and no mutex queue has changed. */
  ghost predicate KeepsContenders(s: State, s': State) {
    && s'.mutexes == s.mutexes
    && (forall m :: Q(s', MutexQ(m)) == Q(s, MutexQ(m)))
    && (forall t, m :: Contender(s, t, m) ==> Contender(s', t, m))
  }

  lemma DispatchContenders(s: State, q: Queue)
    requires Inv(s) && NoZombie(s) && Enabled(s, Dispatch(q))
    ensures KeepsContenders(s, Resume(s, q))
  {
    assert QueueOk(s, q);
  }

  lemma RecordContenders(s: State, s': State, t: Tid, u: Tid)
    requires OnlyChanged(s, s', t, u) && !s.threads[t].pc.InLock? && !s.threads[u].pc.InLock?
    requires s'.mutexes == s.mutexes && forall m :: Q(s', MutexQ(m)) == Q(s, MutexQ(m))
    ensures KeepsContenders(s, s')
  {
  }

  lemma JoinPassContenders(s: State, t: Tid, target: Tid)
    requires t in s.threads && target in s.threads && !s.threads[t].pc.InLock? && !s.threads[target].pc.InLock?
    ensures KeepsContenders(s, JoinPass(s, t, target))
  {
    RecordContenders(s, JoinPass(s, t, target), t, target);
  }

  lemma StoreContenders(s: State, t: Tid, h: bool)
    requires t in s.threads && s.threads[t].pc == ExitParked(h)
    ensures KeepsContenders(s, StoreValue(Unblocked(s), t, h))
  {
    RecordContenders(s, StoreValue(Unblocked(s), t, h), t, t);
  }

  lemma ContinueContenders(s: State, t: Tid)
    requires s.current == Some(t) && t in s.threads && s.threads[t].pc != User && !s.threads[t].pc.InLock?
    requires Joiner(s.threads[t].pc) ==>
               s.threads[t].pc.target in s.threads && !s.threads[s.threads[t].pc.target].pc.InLock?
    ensures KeepsContenders(s, ContinueAt(s, t))
  {
    match s.threads[t].pc
    case InCond(_) => RecordContenders(s, ContinueAt(s, t), t, t);
    case ExitParked(h) => StoreContenders(s, t, h);
    case ExitWait(h) => RecordContenders(s, WaitForRead(s, t, h), t, t);
    case JoinParked(target) => JoinPassContenders(Unblocked(s), t, target);
    case JoinWait(target) => JoinPassContenders(s, t, target);
    case _ =>
  }

  lemma ExitContenders(s: State, t: Tid, h: bool)
    requires Inv(s) && s.current == Some(t) && s.threads[t].pc == User && !s.threads[t].detached
    requires s.threads[t].join != Initial ==> s.threads[t].ltJoin.Some? && s.threads[t].ltJoin.value in s.threads
    ensures KeepsContenders(s, BeginExit(s, t, h))
  {
    assert JoinedOk(s, t) && LocalOk(s.threads[t]);
  }

  lemma JoinContenders(s: State, t: Tid, target: Tid)
    requires s.current == Some(t) && t in s.threads && s.threads[t].pc == User && target in s.threads
    ensures KeepsContenders(s, JoinBy(s, t, target))
  {
  }

  lemma SignalContenders(s: State, c: nat)
    requires Inv(s) && Q(s, CondQ(c)) != [] && Q(s, CondQ(c))[0] in s.threads
    ensures KeepsContenders(s, Wake(s, CondQ(c)))
  {
    assert QueueOk(s, CondQ(c));
    assert LocalOk(s.threads[Q(s, CondQ(c))[0]]);
  }

  lemma BroadcastContenders(s: State, c: nat)
    requires Inv(s) && Enabled(s, Broadcast(c))
    ensures KeepsContenders(s, After(s, Broadcast(c)))
  {
    assert PlaceOk(s, s.current.value);
    DrainMovesOnlyWaiters(s, c, s.current.value);
    DrainLeavesLockers(s, c);
  }

  lemma DetachedReturns(s: State, t: Tid)
    requires Inv(s) && Enabled(s, Return) && s.current == Some(t) && s.threads[t].detached
    ensures KeepsContenders(s, After(s, Return))
  {
  }

  lemma ReturnContenders(s: State)
    requires Inv(s) && Enabled(s, Return)
    ensures KeepsContenders(s, After(s, Return))
  {
    var t := s.current.value;
    if s.threads[t].detached {
      DetachedReturns(s, t);
    } else {
      MarkExitedInv(s, t);
      ExitContenders(With(s, t, s.threads[t].(exited := true)), t, true);
    }
  }

  /** Steps of the running thread that touch no record but its own. */
  lemma OwnContenders(s: State, step: Step)
    requires RunsUser(s) && Enabled(s, step) && (step.Yield? || step.Wait? || step.Detach?)
    ensures KeepsContenders(s, After(s, step))
  {
  }

  lemma ContendersKept(s: State, step: Step)
    requires Inv(s) && NoZombie(s) && Enabled(s, step) && LeavesMutexes(s, step)
    ensures KeepsContenders(s, After(s, step))
  {
    match step
    case PeerCreate(_) =>
    case Shutdown =>
    case Dispatch(q) => DispatchContenders(s, q);
    case Continue =>
      assert JoinerOk(s, s.current.value) && PlaceOk(s, s.current.value);
      ContinueContenders(s, s.current.value);
    case Create(_) =>
    case Exit => if !s.threads[s.current.value].detached { ExitContenders(s, s.current.value, false); }
    case JoinThread(t) => JoinContenders(s, s.current.value, t);
    case Signal(c) => if Q(s, CondQ(c)) != [] { SignalContenders(s, c); }
    case Broadcast(c) => BroadcastContenders(s, c);
    case Return => ReturnContenders(s);
    case Lock(_) =>
    case TryLock(_) =>
    case Unlock(_) =>
    case _ => OwnContenders(s, step);
  }

  // -- zombies

  predicate Zombie(th: Thread) { th.exited && th.detached && Suspended(th.pc) }

  lemma NoZombieUpdate(s: State, s': State, t: Tid, u: Tid)
    requires NoZombie(s) && OnlyChanged(s, s', t, u) && !Zombie(s'.threads[t]) && !Zombie(s'.threads[u])
    ensures NoZombie(s')
  {
  }

  lemma LockPassNoZombie(s: State, t: Tid, m: nat)
    requires NoZombie(s) && t in s.threads && (M(s, m).owner == None || !(s.threads[t].exited && s.threads[t].detached))
    ensures NoZombie(LockPass(s, t, m)) && LockPass(s, t, m).leaked == s.leaked
  {
    NoZombieUpdate(s, LockPass(s, t, m), t, t);
  }

  lemma JoinPassNoZombie(s: State, t: Tid, target: Tid)
    requires NoZombie(s) && t in s.threads && target in s.threads
    ensures NoZombie(JoinPass(s, t, target)) && JoinPass(s, t, target).leaked == s.leaked
  {
    NoZombieUpdate(s, JoinPass(s, t, target), t, target);
  }

  lemma StoreValueNoZombie(s: State, t: Tid, h: bool)
    requires NoZombie(s) && t in s.threads
    ensures NoZombie(StoreValue(s, t, h)) && StoreValue(s, t, h).leaked == s.leaked
  {
    NoZombieUpdate(s, StoreValue(s, t, h), t, t);
  }

  lemma WaitForReadNoZombie(s: State, t: Tid, h: bool)
    requires NoZombie(s) && t in s.threads
    ensures NoZombie(WaitForRead(s, t, h)) && WaitForRead(s, t, h).leaked == s.leaked
  {
    NoZombieUpdate(s, WaitForRead(s, t, h), t, t);
  }

  lemma SignalledNoZombie(s: State, t: Tid)
    requires NoZombie(s) && t in s.threads
    ensures NoZombie(With(s, t, s.threads[t].(pc := User)))
  {
  }

  lemma ContinueNoZombie(s: State, t: Tid)
    requires NoZombie(s) && t in s.threads && s.threads[t].pc != User
    requires Joiner(s.threads[t].pc) ==> s.threads[t].pc.target in s.threads
    ensures NoZombie(ContinueAt(s, t)) && ContinueAt(s, t).leaked == s.leaked
  {
    assert NoZombie(Unblocked(s));
    match s.threads[t].pc
    case InLock(m) => LockPassNoZombie(Unblocked(s), t, m);
    case InCond(_) => SignalledNoZombie(Unblocked(s), t);
    case ExitParked(h) => StoreValueNoZombie(Unblocked(s), t, h);
    case ExitWait(h) => WaitForReadNoZombie(s, t, h);
    case JoinParked(target) => JoinPassNoZombie(Unblocked(s), t, target);
    case JoinWait(target) => JoinPassNoZombie(s, t, target);
    case _ =>
  }

  lemma DrainNoZombie(s: State, q: Queue)
    requires NoZombie(s) && q != Ready && forall i :: 0 <= i < |Q(s, q)| ==> Q(s, q)[i] in s.threads
    ensures NoZombie(Drain(s, q)) && Drain(s, q).leaked == s.leaked
    decreases |Q(s, q)|
  {
    if Q(s, q) != [] { DrainNoZombie(Wake(s, q), q); }
  }

  lemma ExitNoZombie(s: State, t: Tid, h: bool)
    requires NoZombie(s) && t in s.threads && !s.threads[t].detached
    requires s.threads[t].join != Initial ==> s.threads[t].ltJoin.Some? && s.threads[t].ltJoin.value in s.threads
    ensures NoZombie(BeginExit(s, t, h)) && BeginExit(s, t, h).leaked == s.leaked
  {
    var u := if s.threads[t].join == Initial then t else s.threads[t].ltJoin.value;
    NoZombieUpdate(s, BeginExit(s, t, h), t, u);
  }

  lemma JoinNoZombie(s: State, t: Tid, target: Tid)
    requires NoZombie(s) && t in s.threads && s.threads[t].pc == User && target in s.threads
    requires !s.threads[target].detached && s.threads[target].join == Initial ==>
        !(s.threads[t].exited && s.threads[t].detached)
    ensures NoZombie(JoinBy(s, t, target)) && JoinBy(s, t, target).leaked == s.leaked
  {
    hide NoZombie;
    if s.threads[target].detached || s.threads[target].join == ThreadSet {
    } else if s.threads[target].join == Initial {
      JoinFirstFrame(s, t, target);
      NoZombieUpdate(s, JoinBy(s, t, target), t, target);
    } else {
      NoZombieUpdate(s, JoinBy(s, t, target), t, target);
    }
  }

  lemma OwnNoZombie(s: State, step: Step)
    requires NoZombie(s) && Enabled(s, step) && NoBlockAfterExit(s, step)
    requires step.Yield? || step.Wait? || step.Detach? || step.Lock? || step.TryLock? || step.Create?
    ensures NoZombie(After(s, step)) && After(s, step).leaked == s.leaked
  {
    var t := s.current.value;
    if !step.Create? {
      hide NoZombie;
      NoZombieUpdate(s, After(s, step), t, t);
    }
  }

  lemma ZombieStep(s: State, step: Step)
    requires Inv(s) && NoZombie(s) && Enabled(s, step) && NoBlockAfterExit(s, step)
    ensures NoZombie(After(s, step)) && After(s, step).leaked == s.leaked
  {
    match step
    case PeerCreate(_) =>
    case Shutdown =>
    case Dispatch(_) =>
    case Continue => ZombieContinue(s);
    case Unlock(_) =>
    case Signal(_) =>
    case Broadcast(c) => ZombieBroadcast(s, c);
    case Exit => ZombieExit(s);
    case JoinThread(t) => JoinNoZombie(s, s.current.value, t);
    case Return => ZombieReturn(s);
    case _ => OwnNoZombie(s, step);
  }

  lemma ZombieBroadcast(s: State, c: nat)
    requires Inv(s) && NoZombie(s) && Enabled(s, Broadcast(c)) && NoBlockAfterExit(s, Broadcast(c))
    ensures NoZombie(After(s, Broadcast(c))) && After(s, Broadcast(c)).leaked == s.leaked
  {
    DrainKeeps(s, CondQ(c));
    DrainNoZombie(s, CondQ(c));
  }

  lemma ZombieContinue(s: State)
    requires Inv(s) && NoZombie(s) && Enabled(s, Continue) && NoBlockAfterExit(s, Continue)
    ensures NoZombie(After(s, Continue)) && After(s, Continue).leaked == s.leaked
  {
    assert PlaceOk(s, s.current.value);
    ContinueNoZombie(s, s.current.value);
  }

  lemma ZombieExit(s: State)
    requires Inv(s) && NoZombie(s) && Enabled(s, Exit) && NoBlockAfterExit(s, Exit)
    ensures NoZombie(After(s, Exit)) && After(s, Exit).leaked == s.leaked
  {
    if !s.threads[s.current.value].detached {
      ExitNoZombie(s, s.current.value, false);
    }
  }

  lemma ZombieReturn(s: State)
    requires Inv(s) && NoZombie(s) && Enabled(s, Return) && NoBlockAfterExit(s, Return)
    ensures NoZombie(After(s, Return)) && After(s, Return).leaked == s.leaked
  {
    var t := s.current.value;
    if !s.threads[t].detached {
      ExitNoZombie(With(s, t, s.threads[t].(exited := true)), t, true);
    }
  }

  /** Exactly the blocking calls after an exit create a thread that is suspended and yet to be freed. */
  lemma ZombieIffBlocksAfterExit(s: State, step: Step)
    requires Inv(s) && NoZombie(s) && Enabled(s, step)
    ensures NoZombie(After(s, step)) <==> NoBlockAfterExit(s, step)
  {
    if NoBlockAfterExit(s, step) {
      ZombieStep(s, step);
    } else {
      var t, s' := s.current.value, After(s, step);
      assert t in s'.threads && s'.threads[t].exited && s'.threads[t].detached && Suspended(s'.threads[t].pc);
    }
  }

  // -- strict runs

  lemma StrictStepInv(s: State, step: Step)
    requires StrictInv(s) && Enabled(s, step) && JoinsOnce(s, step) && NoBlockAfterExit(s, step)
    ensures StrictInv(After(s, step))
  {
    var s' := After(s, step);
    StepInv(s, step);
    ZombieStep(s, step);
    if LeavesMutexes(s, step) {
      ContendersKept(s, step);
      WakeUpsKept(s, s');
    } else {
      var t := s.current.value;
      match step
      case Lock(m) => LockPassWakeUps(s, t, m);
      case TryLock(m) => LockPassWakeUps(s, t, m);
      case Unlock(m) => UnlockWakeUps(s, t, m);
      case Continue =>
        WakeUpsKept(s, Unblocked(s));
        LockPassWakeUps(Unblocked(s), t, s.threads[t].pc.m);
    }
  }

  ghost predicate StrictRun(s: State, steps: seq<Step>)
    decreases |steps|
  {
    steps == [] ||
    (Enabled(s, steps[0]) && JoinsOnce(s, steps[0]) && NoBlockAfterExit(s, steps[0])
      && StrictRun(After(s, steps[0]), steps[1..]))
  }

  lemma {:induction false} StrictRunInv(s: State, steps: seq<Step>)
    requires StrictInv(s) && StrictRun(s, steps)
    ensures Run(s, steps).Some? && StrictInv(Run(s, steps).value)
    decreases |steps|
  {
    if steps != [] {
      StrictStepInv(s, steps[0]);
      StrictRunInv(After(s, steps[0]), steps[1..]);
    }
  }

  /** A mutex counts its waiters and its owner, and a mutex without an owner that threads wait for has a
      woken waiter in the ready queue or on the cpu: no wake-up is lost.  Nor does nb_blocked_threads drift. */
  lemma NoWakeUpLost(steps: seq<Step>, m: nat)
    requires StrictRun(Init(), steps)
    ensures Run(Init(), steps).Some?
    ensures var s := Run(Init(), steps).value;
            && M(s, m).count == |Q(s, MutexQ(m))| + (if M(s, m).owner.Some? then 1 else 0)
            && s.blocked == |SuspendedSet(s)|
            && (M(s, m).owner == None && Q(s, MutexQ(m)) != [] ==>
                  exists t :: t in s.threads && s.threads[t].pc == InLock(m)
                              && (t in Q(s, Ready) || s.current == Some(t)))
  {
    InitInv();
    assert StrictInv(Init());
    StrictRunInv(Init(), steps);
    var s := Run(Init(), steps).value;
    assert MutexOk(s, m) && WakeUpPending(s, m);
    if M(s, m).owner == None && Q(s, MutexQ(m)) != [] {
      var t :| Contender(s, t, m);
      assert PlaceOk(s, t);
    }
  }

  /** The loop in lthread_mutex_unlock never spins: if the count says somebody waits, the queue holds him. */
  lemma UnlockFindsWaiter(steps: seq<Step>, m: nat)
    requires PoliteRun(Init(), steps)
    ensures Run(Init(), steps).Some?
    ensures var s := Run(Init(), steps).value;
            RunsUser(s) ==> Enabled(s, Unlock(m)) && (M(s, m).owner == s.current ==>
              (M(s, m).count > 1 <==> Q(s, MutexQ(m)) != []))
  {
    InitInv();
    RunInv(Init(), steps);
    var s := Run(Init(), steps).value;
    assert MutexOk(s, m) && QueueOk(s, MutexQ(m));
  }

  // ---------------------------------------------------------------------------------------------
  // What goes wrong otherwise

  /** From any state a polite run can reach, a join keeps every thread in one place if and only if the
      joined thread has no joiner yet (or the join is refused).  A second joiner puts it in the ready queue
      twice. */
  lemma SecondJoinerDuplicates(s: State, x: Tid)
    requires Inv(s) && Enabled(s, JoinThread(x))
    ensures Inv(After(s, JoinThread(x))) <==> JoinsOnce(s, JoinThread(x))
    ensures !JoinsOnce(s, JoinThread(x)) ==>
              exists i, j :: 0 <= i < j < |Q(After(s, JoinThread(x)), Ready)|
                             && Q(After(s, JoinThread(x)), Ready)[i] == x && Q(After(s, JoinThread(x)), Ready)[j] == x
  {
    if JoinsOnce(s, JoinThread(x)) {
      StepInv(s, JoinThread(x));
    } else {
      SecondJoinerReadyTwice(s, x);
    }
  }

  lemma SecondJoinerReadyTwice(s: State, x: Tid)
    requires Inv(s) && Enabled(s, JoinThread(x)) && !JoinsOnce(s, JoinThread(x))
    ensures var s' := After(s, JoinThread(x));
            !Inv(s') && exists i, j :: 0 <= i < j < |Q(s', Ready)| && Q(s', Ready)[i] == x && Q(s', Ready)[j] == x
  {
    var s', ready := After(s, JoinThread(x)), Q(s, Ready);
    assert LocalOk(s.threads[x]) && PlaceOk(s, x) && PlaceOk(s, s.current.value);
    var i :| 0 <= i < |ready| && ready[i] == x;
    assert Q(s', Ready)[i] == x && Q(s', Ready)[|ready|] == x;
    assert !QueueOk(s', Ready);
  }

  lemma DrainLeaked(s: State, q: Queue)
    requires q != Ready && forall i :: 0 <= i < |Q(s, q)| ==> Q(s, q)[i] in s.threads
    ensures Drain(s, q).leaked == s.leaked
    decreases |Q(s, q)|
  {
    if Q(s, q) != [] { DrainLeaked(Wake(s, q), q); }
  }

  lemma LeakedGrows(s: State, step: Step)
    requires Enabled(s, step)
    ensures After(s, step).leaked >= s.leaked
  {
    if step.Broadcast? { DrainKeeps(s, CondQ(step.c)); DrainLeaked(s, CondQ(step.c)); }
  }

  lemma {:induction false} LeakStays(s: State, steps: seq<Step>)
    requires Run(s, steps).Some?
    ensures Run(s, steps).value.leaked >= s.leaked
    decreases |steps|
  {
    if steps != [] {
      LeakedGrows(s, steps[0]);
      LeakStays(After(s, steps[0]), steps[1..]);
    }
  }

  /** Once a thread has been freed inside `_suspend`, the scheduler loop never ends, whatever happens. */
  lemma LeakPreventsShutdown(steps: seq<Step>, rest: seq<Step>)
    requires PoliteRun(Init(), steps) && Run(Init(), steps).Some?
    requires Run(Init(), steps).value.leaked > 0 && PoliteRun(Run(Init(), steps).value, rest)
    ensures Run(Run(Init(), steps).value, rest).Some? && !IsDone(Run(Run(Init(), steps).value, rest).value)
  {
    InitInv();
    RunInv(Init(), steps);
    var s := Run(Init(), steps).value;
    RunInv(s, rest);
    LeakStays(s, rest);
  }

  lemma {:induction false} RunConcat(s: State, a: seq<Step>, b: seq<Step>)
    requires Run(s, a).Some?
    ensures Run(s, a + b) == Run(Run(s, a).value, b)
    decreases |a|
  {
    if a == [] {
      assert a + b == b;
    } else {
      RunConcat(After(s, a[0]), a[1..], b);
      assert (a + b)[1..] == a[1..] + b;
    }
  }

  lemma OneStep(s: State, a: Step, t: State)
    requires Enabled(s, a) && After(s, a) == t
    ensures Run(s, [a]) == Some(t)
  {
    assert Run(t, []) == Some(t);
  }

  lemma TwoSteps(s: State, a: Step, b: Step, t: State)
    requires Enabled(s, a) && Enabled(After(s, a), b) && After(After(s, a), b) == t
    ensures Run(s, [a, b]) == Some(t)
  {
    OneStep(s, a, After(s, a));
    OneStep(After(s, a), b, t);
    RunConcat(s, [a], [b]);
    assert [a] + [b] == [a, b];
  }

  // A concrete run.  Thread 1 calls lthread_exit and is joined by thread 2, so lthread_exit returns to its
  // function; it then blocks on a mutex thread 2 holds.  Woken by the unlock, it is freed while it still
  // counts as blocked.

  function Point(t1: Thread, t2: Thread, queues: map<Queue, seq<Tid>>, current: Option<Tid>, blocked: nat,
      mutex: Mutex): State {
    State(map[1 := t1, 2 := t2], queues, current, blocked, map[0 := mutex], true, {}, 0)
  }

  function Free(): Mutex { Mutex(None, 0) }

  /** The initial state, with the one mutex used below already there. */
  function Start(): State { Init().(mutexes := map[0 := Free()]) }

  function Created(): State {
    Point(NewThread(Peer), NewThread(Peer), map[Peer := [1, 2]], None, 0, Free())
  }

  function OneExiting(): State {
    Point(Thread(ExitParked(false), false, false, Exiting, None, Parked), NewThread(Peer), map[Peer := [2]], None, 1,
      Free())
  }

  function Joined(): State {
    Point(Thread(ExitParked(false), false, false, Exiting, Some(2), InQueue(Ready)),
          Thread(JoinWait(1), false, false, Initial, None, InQueue(Ready)),
          map[Peer := [], Ready := [1, 2]], None, 1, Free())
  }

  function ValueSet(): State {
    Point(Thread(ExitWait(false), false, false, ValSet, Some(2), InQueue(Ready)),
          Thread(JoinWait(1), false, false, Initial, None, InQueue(Ready)),
          map[Peer := [], Ready := [2, 1]], None, 0, Free())
  }

  function ValueTaken(): State {
    Point(Thread(ExitWait(false), false, false, ValRead, Some(2), InQueue(Ready)),
          Thread(User, false, false, Initial, None, Running),
          map[Peer := [], Ready := [1]], Some(2), 0, Free())
  }

  function TwoHolds(): State {
    Point(Thread(ExitWait(false), false, false, ValRead, Some(2), InQueue(Ready)),
          Thread(User, false, false, Initial, None, InQueue(Ready)),
          map[Peer := [], Ready := [1, 2]], None, 0, Mutex(Some(2), 1))
  }

  function BackInFunction(): State {
    Point(Thread(User, true, true, Initial, Some(2), Running),
          Thread(User, false, false, Initial, None, InQueue(Ready)),
          map[Peer := [], Ready := [2]], Some(1), 0, Mutex(Some(2), 1))
  }

  function Unlocking(): State {
    Point(Thread(InLock(0), true, true, Initial, Some(2), InQueue(MutexQ(0))),
          Thread(User, false, false, Initial, None, Running),
          map[Peer := [], Ready := [], MutexQ(0) := [1]], Some(2), 1, Mutex(Some(2), 2))
  }

  function Leaving(): State {
    Point(Thread(InLock(0), true, true, Initial, Some(2), InQueue(Ready)),
          Thread(User, false, true, Initial, None, Running),
          map[Peer := [], Ready := [1], MutexQ(0) := []], Some(2), 1, Free())
  }

  function OneLeaked(): State {
    State(map[2 := Thread(Ended, true, true, Initial, None, InQueue(Ready))],
          map[Peer := [], Ready := [2], MutexQ(0) := []], None, 1, map[0 := Free()], true, {1}, 1)
  }

  lemma Leg1()
    ensures Run(Start(), [PeerCreate(1), PeerCreate(2)]) == Some(Created())
  {
    var mid := After(Start(), PeerCreate(1));
    assert Q(mid, Peer) == [1];
    assert Q(After(mid, PeerCreate(2)), Peer) == [1, 2];
    TwoSteps(Start(), PeerCreate(1), PeerCreate(2), Created());
  }

  lemma Leg2()
    ensures Run(Created(), [Dispatch(Peer), Exit]) == Some(OneExiting())
  {
    assert [1, 2][1..] == [2];
    var mid := After(Created(), Dispatch(Peer));
    TwoSteps(Created(), Dispatch(Peer), Exit, OneExiting());
  }

  lemma Leg3()
    ensures Run(OneExiting(), [Dispatch(Peer), JoinThread(1)]) == Some(Joined())
  {
    assert [2][1..] == [];
    var mid := After(OneExiting(), Dispatch(Peer));
    assert Q(mid, Peer) == [];
    assert Q(After(mid, JoinThread(1)), Ready) == [1, 2];
    TwoSteps(OneExiting(), Dispatch(Peer), JoinThread(1), Joined());
  }

  lemma Leg4()
    ensures Run(Joined(), [Dispatch(Ready), Continue]) == Some(ValueSet())
  {
    assert [1, 2][1..] + [1] == [2, 1];
    var mid := After(Joined(), Dispatch(Ready));
    TwoSteps(Joined(), Dispatch(Ready), Continue, ValueSet());
  }

  lemma Leg5()
    ensures Run(ValueSet(), [Dispatch(Ready), Continue]) == Some(ValueTaken())
  {
    assert [2, 1][1..] == [1];
    var mid := After(ValueSet(), Dispatch(Ready));
    TwoSteps(ValueSet(), Dispatch(Ready), Continue, ValueTaken());
  }

  /** An input for a second join: thread 2 has joined thread 1, comes back with the value and joins it again. */
  lemma SecondJoinHappens() returns (steps: seq<Step>)
    ensures Run(Start(), steps) == Some(ValueTaken())
    ensures Enabled(ValueTaken(), JoinThread(1)) && !JoinsOnce(ValueTaken(), JoinThread(1))
    ensures Q(After(ValueTaken(), JoinThread(1)), Ready)[..2] == [1, 1]
  {
    SecondJoinDoubles();
    steps := ToValueTaken();
  }

  lemma SecondJoinDoubles()
    ensures Enabled(ValueTaken(), JoinThread(1)) && !JoinsOnce(ValueTaken(), JoinThread(1))
    ensures Q(After(ValueTaken(), JoinThread(1)), Ready)[..2] == [1, 1]
  {
    assert Q(ValueTaken(), Ready) == [1];
  }

  lemma ToValueTaken() returns (steps: seq<Step>)
    ensures Run(Start(), steps) == Some(ValueTaken())
  {
    hide Run, Start, Created, OneExiting, Joined, ValueSet, ValueTaken;
    Leg1(); Leg2(); Leg3(); Leg4(); Leg5();
    steps := [PeerCreate(1), PeerCreate(2)];
    steps := Glue(Start(), steps, Created(), [Dispatch(Peer), Exit], OneExiting());
    steps := Glue(Start(), steps, OneExiting(), [Dispatch(Peer), JoinThread(1)], Joined());
    steps := Glue(Start(), steps, Joined(), [Dispatch(Ready), Continue], ValueSet());
    steps := Glue(Start(), steps, ValueSet(), [Dispatch(Ready), Continue], ValueTaken());
  }

  lemma Leg6()
    ensures Run(ValueTaken(), [Lock(0), Yield]) == Some(TwoHolds())
  {
    var mid := After(ValueTaken(), Lock(0));
    assert Q(After(mid, Yield), Ready) == [1, 2];
    TwoSteps(ValueTaken(), Lock(0), Yield, TwoHolds());
  }

  lemma Leg7()
    ensures Run(TwoHolds(), [Dispatch(Ready), Continue]) == Some(BackInFunction())
  {
    assert [1, 2][1..] == [2];
    var mid := After(TwoHolds(), Dispatch(Ready));
    TwoSteps(TwoHolds(), Dispatch(Ready), Continue, BackInFunction());
  }

  lemma Leg8()
    ensures Run(BackInFunction(), [Lock(0), Dispatch(Ready)]) == Some(Unlocking())
  {
    assert [2][1..] == [];
    var mid := After(BackInFunction(), Lock(0));
    assert Q(mid, MutexQ(0)) == [1];
    assert Q(After(mid, Dispatch(Ready)), Ready) == [];
    TwoSteps(BackInFunction(), Lock(0), Dispatch(Ready), Unlocking());
  }

  function Unlocked(): State {
    Point(Thread(InLock(0), true, true, Initial, Some(2), InQueue(Ready)),
          Thread(User, false, false, Initial, None, Running),
          map[Peer := [], Ready := [1], MutexQ(0) := []], Some(2), 1, Free())
  }

  lemma UnlockWakes()
    ensures Enabled(Unlocking(), Unlock(0)) && After(Unlocking(), Unlock(0)) == Unlocked()
  {
    assert [1][1..] == [];
    var mid := After(Unlocking(), Unlock(0));
    assert Q(mid, Ready) == [1] && Q(mid, MutexQ(0)) == [];
    assert mid.queues == Unlocked().queues;
  }

  lemma Leg9()
    ensures Run(Unlocking(), [Unlock(0), Detach]) == Some(Leaving())
  {
    UnlockWakes();
    assert Enabled(Unlocked(), Detach) && After(Unlocked(), Detach) == Leaving();
    TwoSteps(Unlocking(), Unlock(0), Detach, Leaving());
  }

  lemma Leg10()
    ensures Run(Leaving(), [Return, Dispatch(Ready)]) == Some(OneLeaked())
  {
    assert [1, 2][1..] == [2];
    var mid := After(Leaving(), Return);
    TwoSteps(Leaving(), Return, Dispatch(Ready), OneLeaked());
  }

  /** Gluing two pieces of a run together. */
  lemma Glue(s: State, a: seq<Step>, m: State, b: seq<Step>, t: State) returns (ab: seq<Step>)
    requires Run(s, a) == Some(m) && Run(m, b) == Some(t)
    ensures Run(s, ab) == Some(t)
  {
    RunConcat(s, a, b);
    ab := a + b;
  }

  /** A thread that blocks after its own lthread_exit is freed while it still counts as blocked. */
  lemma BlockingAfterExitLeaks() returns (steps: seq<Step>)
    ensures Run(Start(), steps) == Some(OneLeaked()) && OneLeaked().leaked == 1
    ensures OneLeaked().blocked == 1 && SuspendedSet(OneLeaked()) == {}
  {
    Leg6(); Leg7(); Leg8(); Leg9(); Leg10();
    steps := ToValueTaken();
    steps := Glue(Start(), steps, ValueTaken(), [Lock(0), Yield], TwoHolds());
    steps := Glue(Start(), steps, TwoHolds(), [Dispatch(Ready), Continue], BackInFunction());
    steps := Glue(Start(), steps, BackInFunction(), [Lock(0), Dispatch(Ready)], Unlocking());
    steps := Glue(Start(), steps, Unlocking(), [Unlock(0), Detach], Leaving());
    steps := Glue(Start(), steps, Leaving(), [Return, Dispatch(Ready)], OneLeaked());
  }
}
