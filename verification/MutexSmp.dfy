/**
 lib/liblthread_dpdk/lthread_mutex.c with its callers on any number of schedulers: every access to `owner`,
 `count` and the blocked queue is one atomic step and all threads interleave.  The blocked queue is taken
 as an atomic FIFO, which is what module MpscQueue proves of it for one consumer.
 */
module MutexSmp {
  import opened Common

  type Tid = nat

  datatype Pc =
    | Idle
    // lthread_mutex_lock
    | LInc          // about to increment count
    | LCas          // about to compare-and-set owner
    | LReadCount    // the compare failed, about to read count
    | LReadOwner    // count was 1, about to read owner
    | LPark         // about to suspend; the scheduler writes the blocked queue after the switch
    | LBlocked      // suspended, in the blocked queue or just taken off it
    // lthread_mutex_trylock
    | TInc
    | TCas
    | TDec
    // holding, and lthread_mutex_unlock
    | Held
    | URead         // about to test count > 0
    | URemove       // about to remove from the blocked queue
    | UDec(w: Tid)  // a thread was removed, about to decrement count
    | UWake(w: Tid) // about to make it ready
    | UClear        // about to clear owner

  datatype State = State(owner: Option<Tid>, count: int, blocked: seq<Tid>, pcs: map<Tid, Pc>)

  datatype Step = Begin(t: Tid, lock: bool) | Unlock(t: Tid) | Go(t: Tid)

  function At(s: State, t: Tid): Pc { if t in s.pcs then s.pcs[t] else Idle }

  function To(s: State, t: Tid, pc: Pc): State { s.(pcs := s.pcs[t := pc]) }

  function Init(): State { State(None, 0, [], map[]) }

  predicate Enabled(s: State, step: Step) {
    match step
    case Begin(t, _) => At(s, t) == Idle
    case Unlock(t) => At(s, t) == Held
    case Go(t) => At(s, t) != Idle && At(s, t) != Held && At(s, t) != LBlocked
  }

  /** A thread that already owns the mutex is turned away by lock and trylock, and one that does not own it by
      unlock; such calls change nothing and are not steps. */
  function After(s: State, step: Step): State
    requires Enabled(s, step)
  {
    match step
    case Begin(t, lock) => To(s, t, if lock then LInc else TInc)
    case Unlock(t) => To(s, t, URead).(count := s.count - 1)
    case Go(t) =>
      match At(s, t)
      case LInc => To(s, t, LCas).(count := s.count + 1)
      case LCas => if s.owner == None then To(s, t, Held).(owner := Some(t)) else To(s, t, LReadCount)
      case LReadCount => To(s, t, if s.count == 1 then LReadOwner else LPark)
      case LReadOwner => To(s, t, if s.owner == None then LCas else LPark)
      case LPark => To(s, t, LBlocked).(blocked := s.blocked + [t])
      case TInc => To(s, t, TCas).(count := s.count + 1)
      case TCas => if s.owner == None then To(s, t, Held).(owner := Some(t)) else To(s, t, TDec)
      case TDec => To(s, t, Idle).(count := s.count - 1)
      case URead => To(s, t, if s.count > 0 then URemove else UClear)
      case URemove => if s.blocked == [] then To(s, t, URead)
                      else To(s, t, UDec(s.blocked[0])).(blocked := s.blocked[1..])
      case UDec(w) => To(s, t, UWake(w)).(count := s.count - 1)
      case UWake(w) => To(To(s, w, LInc), t, UClear)
      case UClear => To(s, t, Idle).(owner := None)
      case _ => s
  }

  function Run(s: State, steps: seq<Step>): Option<State>
    decreases |steps|
  {
    if steps == [] then Some(s)
    else if Enabled(s, steps[0]) then Run(After(s, steps[0]), steps[1..])
    else None
  }

  // ---------------------------------------------------------------------------------------------
  // The invariant

  /** Between taking the mutex and clearing its owner. */
  predicate Holds(pc: Pc) {
    pc.Held? || pc.URead? || pc.URemove? || pc.UDec? || pc.UWake? || pc.UClear?
  }

  /** The thread has added one to `count` that nobody has taken back. */
  predicate Counts(pc: Pc) {
    pc.LCas? || pc.LReadCount? || pc.LReadOwner? || pc.LPark? || pc.LBlocked? || pc.TCas? || pc.TDec? || pc.Held?
  }

  /** The removed thread whose share of `count` the unlocking thread has taken back already. */
  predicate WakingDone(s: State, w: Tid) {
    s.owner.Some? && At(s, s.owner.value) == UWake(w)
  }

  function Counted(s: State): set<Tid> {
    set t | t in s.pcs && Counts(s.pcs[t]) && !WakingDone(s, t)
  }

  /** The thread the unlocking thread has removed from the blocked queue and not yet made ready. */
  predicate Removed(s: State, w: Tid) {
    s.owner.Some? && (At(s, s.owner.value) == UDec(w) || At(s, s.owner.value) == UWake(w))
  }

  ghost predicate Inv(s: State) {
    && (forall t: Tid :: Holds(At(s, t)) <==> s.owner == Some(t))
    && (forall i :: 0 <= i < |s.blocked| ==> At(s, s.blocked[i]) == LBlocked)
    && (forall i, j :: 0 <= i < j < |s.blocked| ==> s.blocked[i] != s.blocked[j])
    && (forall w: Tid :: Removed(s, w) ==> At(s, w) == LBlocked && w !in s.blocked)
    && (forall t: Tid :: At(s, t) == LBlocked ==> t in s.blocked || Removed(s, t))
    && s.count == |Counted(s)|
  }

  lemma CountedPlus(a: set<Tid>, b: set<Tid>, t: Tid)
    requires t !in a && b == a + {t}
    ensures |b| == |a| + 1
  {
  }

  lemma OneStep(s: State, t: Tid, s': State, delta: int)
    requires forall x :: x != t ==> (x in Counted(s') <==> x in Counted(s))
    requires delta == (if t in Counted(s') then 1 else 0) - (if t in Counted(s) then 1 else 0)
    ensures |Counted(s')| == |Counted(s)| + delta
  {
    var a, b := Counted(s), Counted(s');
    if t in b && t !in a { assert b == a + {t}; CountedPlus(a, b, t); }
    else if t in a && t !in b { assert a == b + {t}; CountedPlus(b, a, t); }
    else { assert a == b; }
  }

  lemma LockStepInv(s: State, t: Tid)
    requires Inv(s) && Enabled(s, Go(t)) && !Holds(At(s, t)) && !At(s, t).LPark?
    ensures Inv(After(s, Go(t)))
  {
    var s' := After(s, Go(t));
    assert forall x :: x != t ==> At(s', x) == At(s, x);
    assert forall x :: WakingDone(s', x) <==> WakingDone(s, x);
    OneStep(s, t, s', s'.count - s.count);
  }

  lemma ParkInv(s: State, t: Tid)
    requires Inv(s) && At(s, t).LPark?
    ensures Inv(After(s, Go(t)))
  {
    var s' := After(s, Go(t));
    assert forall x :: x != t ==> At(s', x) == At(s, x);
    assert forall x :: WakingDone(s', x) <==> WakingDone(s, x);
    assert s'.blocked[|s.blocked|] == t;
    OneStep(s, t, s', 0);
  }

  lemma UnlockStepInv(s: State, t: Tid)
    requires Inv(s) && Enabled(s, Go(t)) && Holds(At(s, t)) && !At(s, t).UWake? && !At(s, t).UDec? && !At(s, t).URemove?
    ensures Inv(After(s, Go(t)))
  {
    var s' := After(s, Go(t));
    assert forall x :: x != t ==> At(s', x) == At(s, x);
    assert forall x :: !WakingDone(s', x) && !WakingDone(s, x);
    OneStep(s, t, s', 0);
  }

  lemma RemoveInv(s: State, t: Tid)
    requires Inv(s) && At(s, t).URemove?
    ensures Inv(After(s, Go(t)))
  {
    var s' := After(s, Go(t));
    assert Holds(At(s, t));
    assert forall x :: x != t ==> At(s', x) == At(s, x);
    assert forall x :: !WakingDone(s', x) && !WakingDone(s, x);
    OneStep(s, t, s', 0);
    RemovedOne(s, t, s');
  }

  lemma RemovedOne(s: State, t: Tid, s': State)
    requires Inv(s) && At(s, t).URemove? && s' == After(s, Go(t))
    ensures if s.blocked == [] then s'.blocked == [] && forall w :: !Removed(s', w) && !Removed(s, w)
            else s.blocked == [s.blocked[0]] + s'.blocked && forall w :: Removed(s', w) <==> w == s.blocked[0]
  {
  }

  lemma DecInv(s: State, t: Tid)
    requires Inv(s) && At(s, t).UDec?
    ensures Inv(After(s, Go(t)))
  {
    var s', w := After(s, Go(t)), At(s, t).w;
    assert Holds(At(s, t)) && Removed(s, w);
    assert forall x :: x != t ==> At(s', x) == At(s, x);
    assert forall x :: WakingDone(s', x) <==> x == w;
    assert forall x :: !WakingDone(s, x);
    assert forall x :: Removed(s', x) <==> Removed(s, x);
    assert w in Counted(s);
    OneStep(s, w, s', -1);
  }

  lemma WakeInv(s: State, t: Tid)
    requires Inv(s) && At(s, t).UWake?
    ensures Inv(After(s, Go(t)))
  {
    var s', w := After(s, Go(t)), At(s, t).w;
    assert Holds(At(s, t)) && Removed(s, w);
    assert At(s, w) == LBlocked;
    assert forall x :: x != t && x != w ==> At(s', x) == At(s, x);
    assert forall x :: !WakingDone(s', x);
    assert forall x :: WakingDone(s, x) <==> x == w;
    assert forall x :: !Removed(s', x);
    assert forall x :: Removed(s, x) <==> x == w;
    OneStep(s, w, s', 0);
  }

  lemma StepInv(s: State, step: Step)
    requires Inv(s) && Enabled(s, step)
    ensures Inv(After(s, step))
  {
    var s' := After(s, step);
    match step
    case Begin(t, _) =>
      assert forall x :: x != t ==> At(s', x) == At(s, x);
      assert forall x :: WakingDone(s', x) <==> WakingDone(s, x);
      OneStep(s, t, s', 0);
    case Unlock(t) =>
      assert Holds(At(s, t));
      assert forall x :: x != t ==> At(s', x) == At(s, x);
      assert forall x :: !WakingDone(s', x) && !WakingDone(s, x);
      OneStep(s, t, s', -1);
    case Go(t) =>
      if At(s, t).UWake? { WakeInv(s, t); }
      else if At(s, t).UDec? { DecInv(s, t); }
      else if At(s, t).URemove? { RemoveInv(s, t); }
      else if Holds(At(s, t)) { UnlockStepInv(s, t); }
      else if At(s, t).LPark? { ParkInv(s, t); }
      else { LockStepInv(s, t); }
  }

  lemma {:induction false} RunInv(s: State, steps: seq<Step>)
    requires Inv(s) && Run(s, steps).Some?
    ensures Inv(Run(s, steps).value)
    decreases |steps|
  {
    if steps != [] {
      StepInv(s, steps[0]);
      RunInv(After(s, steps[0]), steps[1..]);
    }
  }

  // ---------------------------------------------------------------------------------------------
  // Main results, for every interleaving

  lemma Reachable(steps: seq<Step>) returns (s: State)
    requires Run(Init(), steps).Some?
    ensures s == Run(Init(), steps).value && Inv(s)
  {
    assert Counted(Init()) == {};
    RunInv(Init(), steps);
    s := Run(Init(), steps).value;
  }

  /** At most one thread is between taking the mutex and clearing its owner; so also at most one removes
      from the blocked queue, which needs a single consumer. */
  lemma MutualExclusion(steps: seq<Step>, t: Tid, u: Tid)
    requires Run(Init(), steps).Some?
    ensures var s := Run(Init(), steps).value; Holds(At(s, t)) && Holds(At(s, u)) ==> t == u
  {
    var s := Reachable(steps);
  }

  /** `count` is never negative, and is at least the number of suspended threads still in the queue. */
  lemma CountIsSound(steps: seq<Step>)
    requires Run(Init(), steps).Some?
    ensures var s := Run(Init(), steps).value;
            0 <= |s.blocked| <= s.count
  {
    var s := Reachable(steps);
    BlockedAreCounted(s, |s.blocked|);
  }

  lemma {:induction false} BlockedAreCounted(s: State, n: nat)
    requires Inv(s) && n <= |s.blocked|
    ensures n <= |Counted(s)|
  {
    var first := set i | 0 <= i < n :: s.blocked[i];
    PrefixSize(s.blocked, n);
    forall t | t in first ensures t in Counted(s) {
      var i :| 0 <= i < n && s.blocked[i] == t;
      assert At(s, t) == LBlocked;
      if WakingDone(s, t) { assert Removed(s, t); }
    }
    SubsetSize(first, Counted(s));
  }

  lemma {:induction false} PrefixSize(q: seq<Tid>, n: nat)
    requires n <= |q| && forall i, j :: 0 <= i < j < |q| ==> q[i] != q[j]
    ensures |set i | 0 <= i < n :: q[i]| == n
  {
    if n > 0 {
      PrefixSize(q, n - 1);
      assert (set i | 0 <= i < n :: q[i]) == (set i | 0 <= i < n - 1 :: q[i]) + {q[n - 1]};
    }
  }

  lemma {:induction false} SubsetSize(a: set<Tid>, b: set<Tid>)
    requires a <= b
    ensures |a| <= |b|
  {
    if a != {} {
      var x :| x in a;
      SubsetSize(a - {x}, b - {x});
    }
  }

  // ---------------------------------------------------------------------------------------------
  // When a wake-up is lost

  /** Suspended in lock, or already bound to be. */
  predicate Waits(pc: Pc) { pc.LPark? || pc.LBlocked? }

  /** Inside lock or trylock, and not yet turned away. */
  predicate Contends(pc: Pc) {
    pc.LInc? || pc.LCas? || pc.LReadCount? || pc.LReadOwner? || pc.TInc? || pc.TCas?
  }

  ghost predicate SomebodyWaits(s: State) { exists t: Tid :: Waits(At(s, t)) }

  ghost predicate SomebodyContends(s: State) { exists t: Tid :: Contends(At(s, t)) }

  ghost predicate AnotherWaits(s: State, t: Tid) { exists u: Tid :: u != t && Waits(At(s, u)) }

  ghost predicate AnotherContends(s: State, t: Tid) { exists u: Tid :: u != t && Contends(At(s, u)) }

  /** The mutex is free, threads wait for it, and nobody is left who might take it. */
  ghost predicate Lost(s: State) {
    s.owner == None && SomebodyWaits(s) && !SomebodyContends(s)
  }

  /** The two ways to lose a wake-up, each while nobody else contends: clearing the owner when somebody waits,
      and giving up a mutex that is free, for a count other than 1. */
  ghost predicate Loses(s: State, step: Step) {
    step.Go? && !AnotherContends(s, step.t) && match At(s, step.t)
    case UClear => SomebodyWaits(s)
    case LReadCount => s.count != 1 && s.owner == None
    case _ => false
  }

  lemma ThisOrAnother(s: State, t: Tid)
    ensures SomebodyWaits(s) <==> Waits(At(s, t)) || AnotherWaits(s, t)
    ensures SomebodyContends(s) <==> Contends(At(s, t)) || AnotherContends(s, t)
  {
  }

  lemma OthersStay(s: State, s': State, t: Tid)
    requires forall u: Tid :: u != t ==> At(s', u) == At(s, u)
    ensures AnotherWaits(s', t) <==> AnotherWaits(s, t)
    ensures AnotherContends(s', t) <==> AnotherContends(s, t)
  {
  }

  /** Exactly these steps lose a wake-up, and exactly a further call of lock or trylock makes up for it. */
  lemma LostIff(s: State, step: Step)
    requires Inv(s) && Enabled(s, step)
    ensures Lost(After(s, step)) <==> Loses(s, step) || (Lost(s) && !step.Begin?)
  {
    var s', t := After(s, step), step.t;
    assert Holds(At(s, t)) <==> s.owner == Some(t);
    ThisOrAnother(s, t);
    ThisOrAnother(s', t);
    if step.Go? && At(s, t).UWake? {
      var w := At(s, t).w;
      assert Removed(s, w) && w != t;
      assert Contends(At(s', w));
    } else {
      OthersStay(s, s', t);
    }
  }

  /** Every step of a run from `s` is none that loses a wake-up. */
  ghost predicate Careful(s: State, steps: seq<Step>)
    decreases |steps|
  {
    steps != [] && Enabled(s, steps[0]) ==> !Loses(s, steps[0]) && Careful(After(s, steps[0]), steps[1..])
  }

  lemma {:induction false} CarefulRunKeeps(s: State, steps: seq<Step>)
    requires Inv(s) && !Lost(s) && Run(s, steps).Some? && Careful(s, steps)
    ensures !Lost(Run(s, steps).value)
    decreases |steps|
  {
    if steps != [] {
      StepInv(s, steps[0]);
      LostIff(s, steps[0]);
      CarefulRunKeeps(After(s, steps[0]), steps[1..]);
    }
  }

  // ---------------------------------------------------------------------------------------------
  // A condition callers can arrange: one thread at a time inside lock, trylock and unlock, as on one scheduler

  /** Between two accesses of an operation; a woken thread that has not begun again is not. */
  predicate Midway(pc: Pc) {
    !(pc.Idle? || pc.Held? || pc.LBlocked? || pc.LInc? || pc.TInc?)
  }

  ghost predicate OneMidway(s: State) {
    forall t: Tid, u: Tid :: Midway(At(s, t)) && Midway(At(s, u)) ==> t == u
  }

  ghost predicate OneAtATime(s: State, steps: seq<Step>)
    decreases |steps|
  {
    OneMidway(s) && (steps != [] && Enabled(s, steps[0]) ==> OneAtATime(After(s, steps[0]), steps[1..]))
  }

  /** What holds then: who has failed to take the mutex finds it owned as long as he runs, and who is about to
      clear the owner has woken a thread or leaves nobody waiting. */
  ghost predicate Alone(s: State) {
    && Inv(s) && OneMidway(s)
    && (forall t: Tid :: At(s, t).LReadCount? || At(s, t).LReadOwner? || At(s, t).TDec? ==> s.owner != None)
    && (forall t: Tid :: At(s, t).UClear? ==> !SomebodyWaits(s) || AnotherContends(s, t))
  }

  lemma NobodyCounts(s: State, t: Tid)
    requires Inv(s) && At(s, t).URead? && s.count <= 0
    ensures !SomebodyWaits(s)
  {
    assert Counted(s) == {};
    assert Holds(At(s, t));
    forall u: Tid
      ensures !Waits(At(s, u))
    {
      assert Waits(At(s, u)) ==> u in Counted(s);
    }
  }

  lemma OwnedStep(s: State, step: Step)
    requires Alone(s) && Enabled(s, step) && OneMidway(After(s, step))
    ensures var s' := After(s, step);
            forall t: Tid :: At(s', t).LReadCount? || At(s', t).LReadOwner? || At(s', t).TDec? ==> s'.owner != None
  {
    var s', t := After(s, step), step.t;
    assert Holds(At(s, t)) <==> s.owner == Some(t);
    forall u: Tid | At(s', u).LReadCount? || At(s', u).LReadOwner? || At(s', u).TDec?
      ensures s'.owner != None
    {
      if u != t {
        assert Midway(At(s, u));
        assert !Midway(At(s, t));
      }
    }
  }

  lemma WakingStep(s: State, t: Tid)
    requires Alone(s) && At(s, t).UWake?
    ensures var s' := After(s, Go(t)); AnotherContends(s', t) && forall u: Tid :: At(s', u).UClear? ==> u == t
  {
    var s', w := After(s, Go(t)), At(s, t).w;
    assert Removed(s, w);
    assert Contends(At(s', w)) && w != t;
    forall u: Tid | At(s', u).UClear? ensures u == t { assert Holds(At(s, u)); }
  }

  lemma ClearingStep(s: State, step: Step)
    requires Alone(s) && Enabled(s, step) && OneMidway(After(s, step))
    ensures var s' := After(s, step);
            forall t: Tid :: At(s', t).UClear? ==> !SomebodyWaits(s') || AnotherContends(s', t)
  {
    var s', t := After(s, step), step.t;
    if step.Go? && At(s, t).UWake? {
      WakingStep(s, t);
    } else {
      forall u: Tid | At(s', u).UClear?
        ensures !SomebodyWaits(s') || AnotherContends(s', u)
      {
        if u == t {
          NobodyCounts(s, t);
          OthersStay(s, s', t);
          ThisOrAnother(s', t);
        } else {
          OtherClears(s, step, u);
        }
      }
    }
  }

  lemma OtherClears(s: State, step: Step, u: Tid)
    requires Alone(s) && Enabled(s, step) && OneMidway(After(s, step)) && u != step.t && At(s, u).UClear?
    ensures AnotherContends(After(s, step), u)
  {
    var s', t := After(s, step), step.t;
    assert Holds(At(s, t)) <==> s.owner == Some(t);
    assert Holds(At(s, u)) && Midway(At(s, u));
    assert !Midway(At(s, t));
    assert Contends(At(s', t));
  }

  lemma AloneStep(s: State, step: Step)
    requires Alone(s) && Enabled(s, step) && OneMidway(After(s, step))
    ensures Alone(After(s, step))
    ensures !Loses(s, step)
  {
    StepInv(s, step);
    OwnedStep(s, step);
    ClearingStep(s, step);
  }

  /** If at most one thread at a time is inside an operation, no wake-up is ever lost; on one scheduler this is so,
      because nothing in these functions but the suspension gives up the cpu. */
  lemma {:induction false} OneAtATimeIsCareful(s: State, steps: seq<Step>)
    requires Alone(s) && Run(s, steps).Some? && OneAtATime(s, steps)
    ensures Careful(s, steps)
    decreases |steps|
  {
    if steps != [] {
      assert OneMidway(After(s, steps[0])) by {
        assert OneAtATime(After(s, steps[0]), steps[1..]);
      }
      AloneStep(s, steps[0]);
      OneAtATimeIsCareful(After(s, steps[0]), steps[1..]);
    }
  }

  lemma NothingLostOneAtATime(steps: seq<Step>)
    requires Run(Init(), steps).Some? && OneAtATime(Init(), steps)
    ensures !Lost(Run(Init(), steps).value)
  {
    assert Counted(Init()) == {};
    OneAtATimeIsCareful(Init(), steps);
    CarefulRunKeeps(Init(), steps);
  }

  // ---------------------------------------------------------------------------------------------
  // Across schedulers both kinds of losing steps are reached

  lemma {:induction false} RunThen(s: State, steps: seq<Step>, t: State, step: Step)
    requires Run(s, steps) == Some(t) && Enabled(t, step)
    ensures Run(s, steps + [step]) == Some(After(t, step))
    decreases |steps|
  {
    if steps == [] {
      assert Run(After(s, step), []) == Some(After(s, step));
      assert ([] + [step])[1..] == [];
    } else {
      RunThen(After(s, steps[0]), steps[1..], t, step);
      assert (steps + [step])[1..] == steps[1..] + [step];
    }
  }

  lemma Extend(steps: seq<Step>, s: State, step: Step) returns (steps': seq<Step>, s': State)
    requires Run(Init(), steps) == Some(s) && Enabled(s, step)
    ensures s' == After(s, step) && Run(Init(), steps') == Some(s')
  {
    RunThen(Init(), steps, s, step);
    steps', s' := steps + [step], After(s, step);
  }

  /** Thread 1 has found nobody waiting and is about to clear the owner. */
  lemma OwnerSeesNobody() returns (steps: seq<Step>)
    ensures Run(Init(), steps) == Some(State(Some(1), 0, [], map[1 := UClear]))
  {
    var s := Init();
    steps, s := Extend([], s, Begin(1, true));
    steps, s := Extend(steps, s, Go(1));
    steps, s := Extend(steps, s, Go(1));
    steps, s := Extend(steps, s, Unlock(1));
    steps, s := Extend(steps, s, Go(1));
    assert s.pcs == map[1 := UClear];
  }

  /** Thread 2 has failed to take the mutex and seen count 1 and an owner. */
  lemma LockerSeesOwner() returns (steps: seq<Step>)
    ensures Run(Init(), steps) == Some(State(Some(1), 1, [], map[1 := UClear, 2 := LPark]))
  {
    var s := State(Some(1), 0, [], map[1 := UClear]);
    steps := OwnerSeesNobody();
    steps, s := Extend(steps, s, Begin(2, true));
    steps, s := Extend(steps, s, Go(2));
    steps, s := Extend(steps, s, Go(2));
    steps, s := Extend(steps, s, Go(2));
    steps, s := Extend(steps, s, Go(2));
    assert s.pcs == map[1 := UClear, 2 := LPark];
  }

  /** The unlocking thread reads count 0, the locking thread then reads count 1 and a non-NULL owner and blocks,
      and the owner is cleared last: the mutex is free and the blocked thread has no one to wake it. */
  lemma LostByClearing() returns (steps: seq<Step>, s: State)
    ensures Run(Init(), steps) == Some(s) && Lost(s) && s.blocked == [2]
  {
    s := State(Some(1), 1, [], map[1 := UClear, 2 := LPark]);
    steps := LockerSeesOwner();
    steps, s := Extend(steps, s, Go(2));
    steps, s := Extend(steps, s, Go(1));
    assert s.blocked == [2] && s.pcs == map[1 := Idle, 2 := LBlocked];
    assert Waits(At(s, 2));
  }

  lemma TwoCount() returns (steps: seq<Step>)
    ensures Run(Init(), steps) == Some(State(Some(1), 2, [], map[1 := UClear, 2 := LCas, 3 := LCas]))
  {
    var s := State(Some(1), 0, [], map[1 := UClear]);
    steps := OwnerSeesNobody();
    steps, s := Extend(steps, s, Begin(2, true));
    steps, s := Extend(steps, s, Begin(3, true));
    steps, s := Extend(steps, s, Go(2));
    steps, s := Extend(steps, s, Go(3));
    assert s.pcs == map[1 := UClear, 2 := LCas, 3 := LCas];
  }

  /** Threads 2 and 3 have failed to take the mutex when the owner is cleared. */
  lemma TwoFailBeforeClearing() returns (steps: seq<Step>)
    ensures Run(Init(), steps) == Some(State(None, 2, [], map[1 := Idle, 2 := LReadCount, 3 := LReadCount]))
  {
    var s := State(Some(1), 2, [], map[1 := UClear, 2 := LCas, 3 := LCas]);
    steps := TwoCount();
    steps, s := Extend(steps, s, Go(2));
    steps, s := Extend(steps, s, Go(3));
    steps, s := Extend(steps, s, Go(1));
    assert s.pcs == map[1 := Idle, 2 := LReadCount, 3 := LReadCount];
  }

  /** They read count 2 of a mutex that is free, and both block. */
  lemma LostByGivingUp() returns (steps: seq<Step>, s: State)
    ensures Run(Init(), steps) == Some(s) && Lost(s) && s.blocked == [2, 3]
  {
    s := State(None, 2, [], map[1 := Idle, 2 := LReadCount, 3 := LReadCount]);
    steps := TwoFailBeforeClearing();
    steps, s := Extend(steps, s, Go(2));
    steps, s := Extend(steps, s, Go(3));
    steps, s := Extend(steps, s, Go(2));
    steps, s := Extend(steps, s, Go(3));
    assert s.blocked == [2, 3] && s.pcs == map[1 := Idle, 2 := LBlocked, 3 := LBlocked];
    assert Waits(At(s, 2));
  }

  // ---------------------------------------------------------------------------------------------
  // Operations that nobody interrupts

  /** A thread takes n more steps on its own. */
  function Steps(s: State, t: Tid, n: nat): State
    decreases n
  {
    if n == 0 || !Enabled(s, Go(t)) then s else Steps(After(s, Go(t)), t, n - 1)
  }

  /** Everything else is as it was. */
  ghost predicate OnlyMoves(s: State, s': State, ts: set<Tid>) { forall x: Tid :: x !in ts ==> At(s', x) == At(s, x) }

  lemma OwnerCounts(s: State)
    requires Inv(s)
    ensures s.count >= 0 && (s.owner.Some? && At(s, s.owner.value) == Held ==> s.count >= 1)
    ensures s.owner.Some? && At(s, s.owner.value) == Held && s.blocked != [] ==> s.blocked[0] != s.owner.value
    ensures forall t: Tid :: At(s, t) == Held ==> s.owner == Some(t)
  {
    if s.owner.Some? && At(s, s.owner.value) == Held {
      assert s.owner.value in Counted(s);
    }
  }

  /** lock: a free mutex is taken; for one that is held the thread joins the end of the queue. */
  lemma LockAlone(s: State, t: Tid)
    requires Inv(s) && At(s, t) == Idle
    ensures var s' := Steps(After(s, Begin(t, true)), t, 6);
            && OnlyMoves(s, s', {t}) && s'.count == s.count + 1
            && if s.owner == None then At(s', t) == Held && s'.owner == Some(t) && s'.blocked == s.blocked
               else At(s', t) == LBlocked && s'.owner == s.owner && s'.blocked == s.blocked + [t]
  {
    OwnerCounts(s);
    var s1 := After(s, Begin(t, true));
    var s2 := After(s1, Go(t));
    var s3 := After(s2, Go(t));
    assert Steps(s1, t, 6) == Steps(s3, t, 4);
    if s.owner.Some? {
      var s4 := After(s3, Go(t));
      assert Steps(s3, t, 4) == Steps(s4, t, 3);
      var s5 := if At(s4, t) == LReadOwner then After(s4, Go(t)) else s4;
      assert At(s5, t) == LPark;
      assert Steps(s4, t, 3) == After(s5, Go(t));
    }
  }

  /** trylock: a free mutex is taken; one that is held is left as it was. */
  lemma TryLockAlone(s: State, t: Tid)
    requires At(s, t) == Idle
    ensures var s' := Steps(After(s, Begin(t, false)), t, 3);
            && OnlyMoves(s, s', {t}) && s'.blocked == s.blocked
            && if s.owner == None then At(s', t) == Held && s'.owner == Some(t) && s'.count == s.count + 1
               else At(s', t) == Idle && s'.owner == s.owner && s'.count == s.count
  {
    var s1 := After(s, Begin(t, false));
    var s2 := After(s1, Go(t));
    var s3 := After(s2, Go(t));
    assert Steps(s1, t, 3) == Steps(s3, t, 1);
  }

  /** unlock: the owner gives the mutex back, and the first thread in the queue tries again. */
  lemma UnlockAlone(s: State, t: Tid)
    requires Inv(s) && At(s, t) == Held && (s.count == 1 || s.blocked != [])
    ensures var s' := Steps(After(s, Unlock(t)), t, 5);
            && At(s', t) == Idle && s'.owner == None
            && if s.count == 1 then OnlyMoves(s, s', {t}) && s'.count == 0 && s'.blocked == s.blocked
               else
                 && OnlyMoves(s, s', {t, s.blocked[0]}) && At(s', s.blocked[0]) == LInc
                 && s'.blocked == s.blocked[1..] && s'.count == s.count - 2
  {
    hide Inv;
    if s.count == 1 {
      LastUnlock(s, t);
    } else {
      OwnerCounts(s);
      HandOver(s, t);
    }
  }

  lemma LastUnlock(s: State, t: Tid)
    requires At(s, t) == Held && s.count == 1
    ensures var s' := Steps(After(s, Unlock(t)), t, 5);
            && At(s', t) == Idle && s'.owner == None
            && OnlyMoves(s, s', {t}) && s'.count == 0 && s'.blocked == s.blocked
  {
    var s1 := After(s, Unlock(t));
    var s2 := After(s1, Go(t));
    assert Steps(s1, t, 5) == Steps(s2, t, 4);
    assert Steps(s2, t, 4) == Steps(After(s2, Go(t)), t, 3);
  }

  lemma HandOver(s: State, t: Tid)
    requires At(s, t) == Held && s.count > 1 && s.blocked != [] && t != s.blocked[0]
    ensures var s' := Steps(After(s, Unlock(t)), t, 5);
            && At(s', t) == Idle && s'.owner == None
            && OnlyMoves(s, s', {t, s.blocked[0]}) && At(s', s.blocked[0]) == LInc
            && s'.blocked == s.blocked[1..] && s'.count == s.count - 2
  {
    hide Steps;
    var w := s.blocked[0];
    var s2 := To(s, t, URemove).(count := s.count - 1);
    var s4 := To(s, t, UWake(w)).(count := s.count - 2, blocked := s.blocked[1..]);
    assert Steps(After(s, Unlock(t)), t, 5) == Steps(s4, t, 2) by {
      NextStep(After(s, Unlock(t)), t, 5, s2);
      NextStep(s2, t, 4, To(s2, t, UDec(w)).(blocked := s.blocked[1..]));
      NextStep(To(s2, t, UDec(w)).(blocked := s.blocked[1..]), t, 3, s4);
    }
    var s5 := To(To(s4, w, LInc), t, UClear);
    NextStep(s4, t, 2, s5);
    NextStep(s5, t, 1, To(s5, t, Idle).(owner := None));
    NoStep(To(s5, t, Idle).(owner := None), t);
  }

  lemma NextStep(s: State, t: Tid, n: nat, s': State)
    requires n > 0 && Enabled(s, Go(t)) && SameState(After(s, Go(t)), s')
    ensures Steps(s, t, n) == Steps(s', t, n - 1)
  {
    assert After(s, Go(t)) == s';
  }

  predicate SameState(a: State, b: State) {
    a.owner == b.owner && a.count == b.count && a.blocked == b.blocked && a.pcs == b.pcs
  }

  lemma NoStep(s: State, t: Tid)
    ensures Steps(s, t, 0) == s
  {
  }
}
