/**
 The exit/join handshake of lib/liblthread_dpdk/lthread.c between one exiting thread E and one joining
 thread J, which may sit on different schedulers.

 Every access to `lt->join` is one atomic step and the two threads interleave at each of them.  A wake-up
 can reach a thread that has not yet switched away; it then waits as an entry of the ready queue, which
 the thread's own scheduler looks at only after the switch.
 */
module ExitJoin {
  import opened Common

  /** `enum join_st` */
  datatype Join = Initial | Exiting | ThreadSet | ValSet | ValRead

  datatype ExitPc =
    | ETest       // about to read lt->join in lthread_exit
    | ECas        // about to compare-and-set INITIAL -> EXITING
    | ESuspend    // about to switch away in _suspend
    | EStore1     // resumed by the joiner, about to store the exit value
    | EPublish1   // about to set EXIT_VAL_SET
    | EStore2     // the joiner was first, about to store the exit value
    | EPublish2
    | EWake       // about to make the joiner ready
    | EWait       // about to read lt->join in the wait loop
    | EQueue      // about to insert itself in the ready queue
    | ESwitch     // inserted, about to switch away
    | EReset      // about to set INITIAL again
    | EDetach     // about to set DETACH and EXITED
    | EHandlerQueue   // _lthread_exit_handler, final _reschedule
    | EHandlerSwitch
    | EEnd        // off the cpu for good, its entry in the ready queue leads to _lthread_free
    | EFreed

  datatype JoinPc =
    | JCheck      // about to test DETACH and THREAD_SET
    | JSetThread  // about to write lt->lt_join
    | JSetPtr     // about to write its own lt_exit_ptr
    | JTest       // about to read lt->join
    | JCas        // about to compare-and-set INITIAL -> THREAD_SET
    | JSuspend
    | JWake       // about to make the exiting thread ready
    | JWait
    | JQueue
    | JSwitch
    | JCollect
    | JAck        // about to set EXIT_VAL_READ
    | JDone
    | JInvalid    // returned EINVAL

  /** `eReady` and `jReady` count the entries of the threads in the ready queues; `eOn` and `jOn` say who
      holds a cpu.  `ltJoin` says whether lt->lt_join points to J; `exitPtr` is J's lt_exit_ptr once written,
      and tells whether it is non-NULL.  0 is the NULL exit value. */
  datatype State = State(
    join: Join,
    detached: bool,
    exited: bool,
    ltJoin: bool,
    exitPtr: Option<bool>,
    slot: nat,
    ePc: ExitPc, eOn: bool, eReady: nat,
    jPc: JoinPc, jOn: bool, jReady: nat)

  /** What the two callers passed: E's `ptr`, whether J's `ptr` is non-NULL, and what it points to before. */
  datatype Args = Args(exitVal: nat, wantsValue: bool, slot0: nat)

  datatype Step = EStep | EResume | JStep | JResume

  /** Both threads are created and ready; `exited` is already set when the exit handler calls lthread_exit. */
  function Init(a: Args, fromHandler: bool): State {
    State(Initial, false, fromHandler, false, None, a.slot0, ETest, false, 1, JCheck, false, 1)
  }

  /** What `*(lt->lt_join->lt_exit_ptr) = ptr` under its guard does. */
  function Store(a: Args, s: State): State {
    if a.exitVal != 0 && s.exitPtr == Some(true) then s.(slot := a.exitVal) else s
  }

  /** The access through lt->lt_join is defined only once the joiner has written it. */
  predicate CanStore(s: State) { s.ltJoin && s.exitPtr.Some? }

  predicate Enabled(s: State, step: Step) {
    match step
    case EStep => s.eOn && !s.ePc.EFreed? && !s.ePc.EEnd?
                  && ((s.ePc.EStore1? || s.ePc.EStore2?) ==> CanStore(s))
                  && (s.ePc.EWake? ==> s.ltJoin)
    case EResume => !s.eOn && s.eReady > 0 && !s.ePc.EFreed?
    case JStep => s.jOn && !s.jPc.JDone? && !s.jPc.JInvalid?
    case JResume => !s.jOn && s.jReady > 0
  }

  function EAfter(a: Args, s: State): State {
    match s.ePc
    case ETest => s.(ePc := if s.join.Initial? then ECas else EStore2)
    case ECas => if s.join.Initial? then s.(join := Exiting, ePc := ESuspend) else s.(ePc := EStore2)
    case ESuspend => s.(eOn := false, ePc := EStore1)
    case EStore1 => Store(a, s).(ePc := EPublish1)
    case EPublish1 => s.(join := ValSet, ePc := EWait)
    case EStore2 => Store(a, s).(ePc := EPublish2)
    case EPublish2 => s.(join := ValSet, ePc := EWake)
    case EWake => s.(jReady := s.jReady + 1, ePc := EWait)
    case EWait => s.(ePc := if s.join.ValRead? then EReset else EQueue)
    case EQueue => s.(eReady := s.eReady + 1, ePc := ESwitch)
    case ESwitch => s.(eOn := false, ePc := EWait)
    case EReset => s.(join := Initial, ePc := EDetach)
    case EDetach => s.(detached := true, exited := true, ePc := EHandlerQueue)
    case EHandlerQueue => s.(eReady := s.eReady + 1, ePc := EHandlerSwitch)
    case EHandlerSwitch => s.(eOn := false, ePc := EEnd)
    case EEnd => s
    case EFreed => s
  }

  /** `_lthread_resume`: a thread that has exited and is detached is freed instead of run. */
  function EResumed(s: State): State
    requires s.eReady > 0
  {
    if s.exited && s.detached then s.(eReady := s.eReady - 1, ePc := EFreed)
    else s.(eReady := s.eReady - 1, eOn := true)
  }

  function JAfter(s: State): State {
    match s.jPc
    case JCheck => s.(jPc := if s.detached || s.join.ThreadSet? then JInvalid else JSetThread)
    case JSetThread => s.(ltJoin := true, jPc := JSetPtr)
    case JSetPtr => s.(jPc := JTest)
    case JTest => s.(jPc := if s.join.Initial? then JCas else JWake)
    case JCas => if s.join.Initial? then s.(join := ThreadSet, jPc := JSuspend) else s.(jPc := JWake)
    case JSuspend => s.(jOn := false, jPc := JWait)
    case JWake => s.(eReady := s.eReady + 1, jPc := JWait)
    case JWait => s.(jPc := if s.join.ValSet? then JCollect else JQueue)
    case JQueue => s.(jReady := s.jReady + 1, jPc := JSwitch)
    case JSwitch => s.(jOn := false, jPc := JWait)
    case JCollect => s.(jPc := JAck)
    case JAck => s.(join := ValRead, jPc := JDone)
    case JDone => s
    case JInvalid => s
  }

  function After(a: Args, s: State, step: Step): State
    requires Enabled(s, step)
  {
    match step
    case EStep => EAfter(a, s)
    case EResume => EResumed(s)
    case JStep => if s.jPc.JSetPtr? then JAfter(s).(exitPtr := Some(a.wantsValue)) else JAfter(s)
    case JResume => s.(jReady := s.jReady - 1, jOn := true)
  }

  function Run(a: Args, s: State, steps: seq<Step>): Option<State>
    decreases |steps|
  {
    if steps == [] then Some(s)
    else if Enabled(s, steps[0]) then Run(a, After(a, s, steps[0]), steps[1..])
    else None
  }

  // ---------------------------------------------------------------------------------------------
  // The invariant

  predicate JBeforePtr(pc: JoinPc) { pc.JCheck? || pc.JSetThread? || pc.JSetPtr? }

  predicate JBeforeWake(pc: JoinPc) { JBeforePtr(pc) || pc.JTest? || pc.JCas? || pc.JWake? }

  predicate JSpinning(pc: JoinPc) { pc.JWait? || pc.JQueue? || pc.JSwitch? }

  predicate EWaiting(pc: ExitPc) { pc.EWait? || pc.EQueue? || pc.ESwitch? }

  predicate EOver(pc: ExitPc) {
    pc.EDetach? || pc.EHandlerQueue? || pc.EHandlerSwitch? || pc.EEnd? || pc.EFreed?
  }

  /** Where the two threads can be, given the join state. */
  predicate PcInv(s: State) {
    match s.join
    case Initial =>
      ((s.ePc.ETest? || s.ePc.ECas?) && (JBeforePtr(s.jPc) || (s.jPc.JTest? || s.jPc.JCas?)))
        || (EOver(s.ePc) && s.jPc.JDone?)
    case Exiting =>
      ((s.ePc.ESuspend? || s.ePc.EStore1?) && JBeforeWake(s.jPc))
      || ((s.ePc.ESuspend? || s.ePc.EStore1? || s.ePc.EPublish1?) && JSpinning(s.jPc))
    case ThreadSet =>
      (s.ePc.ETest? || s.ePc.ECas? || s.ePc.EStore2? || s.ePc.EPublish2?) && (s.jPc.JSuspend? || s.jPc.JWait?)
    case ValSet =>
      (s.ePc.EWake? && (s.jPc.JSuspend? || s.jPc.JWait?))
      || (EWaiting(s.ePc) && ((s.jPc.JSuspend? || s.jPc.JCollect? || s.jPc.JAck?) || JSpinning(s.jPc)))
    case ValRead =>
      (EWaiting(s.ePc) || s.ePc.EReset?) && s.jPc.JDone?
  }

  /** E is parked: switched away, or about to, with no entry in a ready queue. */
  predicate EParked(s: State) { s.join.Exiting? && JBeforeWake(s.jPc) }

  /** J is parked in the same sense. */
  predicate JParked(s: State) { s.join.ThreadSet? || (s.join.ValSet? && s.ePc.EWake?) }

  predicate ESched(s: State) {
    match s.ePc
    case ETest => s.eReady == if s.eOn then 0 else 1
    case ESuspend => s.eOn && s.eReady == if EParked(s) then 0 else 1
    case EStore1 => if EParked(s) then !s.eOn && s.eReady == 0 else s.eReady == if s.eOn then 0 else 1
    case EWait => s.eReady == if s.eOn then 0 else 1
    case ESwitch => s.eOn && s.eReady == 1
    case EHandlerSwitch => s.eOn && s.eReady == 1
    case EEnd => !s.eOn && s.eReady == 1
    case EFreed => !s.eOn && s.eReady == 0
    case _ => s.eOn && s.eReady == 0
  }

  predicate JSched(s: State) {
    match s.jPc
    case JCheck => s.jReady == if s.jOn then 0 else 1
    case JSuspend => s.jOn && s.jReady == if JParked(s) then 0 else 1
    case JWait => if JParked(s) then !s.jOn && s.jReady == 0 else s.jReady == if s.jOn then 0 else 1
    case JSwitch => s.jOn && s.jReady == 1
    case _ => s.jOn && s.jReady == 0
  }

  predicate SchedInv(s: State) { ESched(s) && JSched(s) }

  predicate StoredBy(pc: ExitPc) {
    !((pc.ETest? || pc.ECas? || pc.ESuspend? || pc.EStore1? || pc.EStore2?))
  }

  predicate DataInv(a: Args, s: State) {
    && (s.detached ==> s.exited && EOver(s.ePc) && !s.ePc.EDetach?)
    && ((s.ePc.EHandlerQueue? || s.ePc.EHandlerSwitch? || s.ePc.EEnd? || s.ePc.EFreed?) ==> s.detached)
    && s.ltJoin == !((s.jPc.JCheck? || s.jPc.JSetThread?))
    && s.exitPtr == (if JBeforePtr(s.jPc) then None else Some(a.wantsValue))
    && s.slot == (if StoredBy(s.ePc) && a.exitVal != 0 && a.wantsValue then a.exitVal else a.slot0)
  }

  predicate Inv(a: Args, s: State) { PcInv(s) && SchedInv(s) && DataInv(a, s) }

  lemma EStepPc(a: Args, s: State)
    requires Inv(a, s) && Enabled(s, EStep)
    ensures PcInv(EAfter(a, s))
  {
    match s.ePc
    case ETest | ECas | ESuspend =>
    case EStore1 | EPublish1 | EStore2 | EPublish2 =>
    case EWake | EWait | EQueue | ESwitch =>
    case _ =>
  }

  lemma EStepESched(a: Args, s: State)
    requires Inv(a, s) && Enabled(s, EStep)
    ensures ESched(EAfter(a, s))
  {
    match s.ePc
    case ETest | ECas | ESuspend =>
    case EStore1 | EPublish1 | EStore2 | EPublish2 =>
    case EWake | EWait | EQueue | ESwitch =>
    case _ =>
  }

  lemma EStepJSched(a: Args, s: State)
    requires Inv(a, s) && Enabled(s, EStep)
    ensures JSched(EAfter(a, s))
  {
    match s.ePc
    case ETest | ECas | ESuspend =>
    case EStore1 | EPublish1 | EStore2 | EPublish2 =>
    case EWake | EWait | EQueue | ESwitch =>
    case _ =>
  }

  lemma EStepData(a: Args, s: State)
    requires Inv(a, s) && Enabled(s, EStep)
    ensures DataInv(a, EAfter(a, s))
  {
    match s.ePc
    case ETest | ECas | ESuspend =>
    case EStore1 | EPublish1 | EStore2 | EPublish2 =>
    case EWake | EWait | EQueue | ESwitch =>
    case _ =>
  }

  lemma EResumeInv(a: Args, s: State)
    requires Inv(a, s) && Enabled(s, EResume)
    ensures Inv(a, EResumed(s))
  {
  }

  lemma JStepPc(a: Args, s: State)
    requires Inv(a, s) && Enabled(s, JStep)
    ensures PcInv(After(a, s, JStep))
  {
    match s.jPc
    case JCheck | JSetThread | JSetPtr | JTest | JCas =>
    case JSuspend | JWake | JWait =>
    case JQueue | JSwitch =>
    case _ =>
  }

  lemma JStepESched(a: Args, s: State)
    requires Inv(a, s) && Enabled(s, JStep)
    ensures ESched(After(a, s, JStep))
  {
    match s.jPc
    case JCheck | JSetThread | JSetPtr | JTest | JCas =>
    case JSuspend | JWake | JWait =>
    case JQueue | JSwitch =>
    case _ =>
  }

  lemma JStepJSched(a: Args, s: State)
    requires Inv(a, s) && Enabled(s, JStep)
    ensures JSched(After(a, s, JStep))
  {
    match s.jPc
    case JCheck | JSetThread | JSetPtr | JTest | JCas =>
    case JSuspend | JWake | JWait =>
    case JQueue | JSwitch =>
    case _ =>
  }

  lemma JStepData(a: Args, s: State)
    requires Inv(a, s) && Enabled(s, JStep)
    ensures DataInv(a, After(a, s, JStep))
  {
    match s.jPc
    case JCheck | JSetThread | JSetPtr | JTest | JCas =>
    case JSuspend | JWake | JWait =>
    case JQueue | JSwitch =>
    case _ =>
  }

  lemma StepInv(a: Args, s: State, step: Step)
    requires Inv(a, s) && Enabled(s, step)
    ensures Inv(a, After(a, s, step))
  {
    match step
    case EStep => EStepPc(a, s); EStepESched(a, s); EStepJSched(a, s); EStepData(a, s);
    case EResume => EResumeInv(a, s);
    case JStep => JStepPc(a, s); JStepESched(a, s); JStepJSched(a, s); JStepData(a, s);
    case JResume =>
  }

  lemma {:induction false} RunInv(a: Args, s: State, steps: seq<Step>)
    requires Inv(a, s) && Run(a, s, steps).Some?
    ensures Inv(a, Run(a, s, steps).value)
    decreases |steps|
  {
    if steps != [] {
      StepInv(a, s, steps[0]);
      RunInv(a, After(a, s, steps[0]), steps[1..]);
    }
  }

  lemma Reachable(a: Args, fromHandler: bool, steps: seq<Step>) returns (s: State)
    requires Run(a, Init(a, fromHandler), steps).Some?
    ensures s == Run(a, Init(a, fromHandler), steps).value && Inv(a, s)
  {
    RunInv(a, Init(a, fromHandler), steps);
    s := Run(a, Init(a, fromHandler), steps).value;
  }

  // ---------------------------------------------------------------------------------------------
  // Main results, for every interleaving

  /** No thread ever has two entries in the ready queues, and one that is still on the cpu while it has
      an entry is about to switch away. */
  lemma NeverReadyTwice(a: Args, fromHandler: bool, steps: seq<Step>)
    requires Run(a, Init(a, fromHandler), steps).Some?
    ensures var s := Run(a, Init(a, fromHandler), steps).value;
            && s.eReady <= 1 && s.jReady <= 1
            && (s.eOn && s.eReady == 1 ==> s.ePc.ESuspend? || s.ePc.ESwitch? || s.ePc.EHandlerSwitch?)
            && (s.jOn && s.jReady == 1 ==> s.jPc.JSuspend? || s.jPc.JSwitch?)
  {
    var s := Reachable(a, fromHandler, steps);
  }

  /** The exit value is stored through pointers the joiner has already set, before EXIT_VAL_SET is seen. */
  lemma PointersSetBeforeStore(a: Args, fromHandler: bool, steps: seq<Step>)
    requires Run(a, Init(a, fromHandler), steps).Some?
    ensures var s := Run(a, Init(a, fromHandler), steps).value;
            s.eOn && (s.ePc.EStore1? || s.ePc.EStore2? || s.ePc.EWake?) ==>
              CanStore(s) && s.exitPtr == Some(a.wantsValue) && !s.jPc.JDone?
  {
    var s := Reachable(a, fromHandler, steps);
  }

  /** The joiner is never refused.  When it returns, the value was set, then read: its pointer holds the
      exit value if that is not NULL, and is untouched otherwise. */
  lemma ExitValueReachesJoiner(a: Args, fromHandler: bool, steps: seq<Step>)
    requires Run(a, Init(a, fromHandler), steps).Some?
    ensures var s := Run(a, Init(a, fromHandler), steps).value;
            && !s.jPc.JInvalid?
            && (s.jPc.JCollect? || s.jPc.JAck? ==> s.join == ValSet && StoredBy(s.ePc))
            && (s.jPc.JDone? ==>
                  s.slot == if a.wantsValue && a.exitVal != 0 then a.exitVal else a.slot0)
  {
    var s := Reachable(a, fromHandler, steps);
  }

  /** A joiner that asks for the value finds exactly what E passed to lthread_exit if and only if E passed
      a non-NULL value or the joiner's variable was NULL to begin with. */
  lemma NullExitValueIsNotDelivered(a: Args, fromHandler: bool, steps: seq<Step>)
    requires Run(a, Init(a, fromHandler), steps).Some? && a.wantsValue
    requires Run(a, Init(a, fromHandler), steps).value.jPc.JDone?
    ensures Run(a, Init(a, fromHandler), steps).value.slot == a.exitVal <==> a.exitVal != 0 || a.slot0 == 0
  {
    var s := Reachable(a, fromHandler, steps);
  }

  /** E can be freed (DETACH is set) only when the joiner has made its last access to it, and the scheduler
      frees it only once. */
  lemma FreeableOnlyAfterLastAccess(a: Args, fromHandler: bool, steps: seq<Step>)
    requires Run(a, Init(a, fromHandler), steps).Some?
    ensures var s := Run(a, Init(a, fromHandler), steps).value;
            && (s.detached ==> s.jPc.JDone? && !Enabled(s, JStep))
            && (s.ePc.EFreed? ==> s.detached && s.eReady == 0 && !Enabled(s, EStep) && !Enabled(s, EResume))
  {
    var s := Reachable(a, fromHandler, steps);
  }

  // ---------------------------------------------------------------------------------------------
  // Every fair interleaving completes the handshake

  datatype Thread = E | J

  /** The next thing that happens to a thread: a step of its own, or a scheduler resumes it. */
  function Move(s: State, t: Thread): Step {
    match t
    case E => if s.eOn then EStep else EResume
    case J => if s.jOn then JStep else JResume
  }

  /** One turn of `t`, which passes if the thread is parked or gone. */
  function Turn(a: Args, s: State, t: Thread): State {
    if Enabled(s, Move(s, t)) then After(a, s, Move(s, t)) else s
  }

  /** The state after `n` turns, given in the order `turns`. */
  function StateAt(a: Args, s: State, turns: nat -> Thread, n: nat): State {
    if n == 0 then s else Turn(a, StateAt(a, s, turns, n - 1), turns(n - 1))
  }

  predicate HasTurn(turns: nat -> Thread, t: Thread, n: nat) { turns(n) == t }

  ghost predicate HasTurnAfter(turns: nat -> Thread, t: Thread, n: nat) {
    exists m: nat :: n <= m && HasTurn(turns, t, m)
  }

  /** Nobody is left out for ever. */
  ghost predicate Fair(turns: nat -> Thread) {
    forall t, n: nat :: HasTurnAfter(turns, t, n)
  }

  lemma AlternatingIsFair()
    ensures Fair((n: nat) => if n % 2 == 0 then E else J)
  {
    var turns := (n: nat) => if n % 2 == 0 then E else J;
    forall t, n: nat
      ensures HasTurnAfter(turns, t, n)
    {
      var m := if turns(n) == t then n else n + 1;
      assert HasTurn(turns, t, m);
    }
  }

  predicate Finished(s: State) { s.ePc.EFreed? && s.jPc.JDone? }

  ghost predicate FinishedFrom(a: Args, s: State, turns: nat -> Thread, end: nat) {
    forall n: nat :: end <= n ==> Finished(StateAt(a, s, turns, n))
  }

  /** The thread that has something to do other than to wait for the other one. */
  function Leader(s: State): Thread {
    if EParked(s) || (EWaiting(s.ePc) && !s.join.ValRead?) || s.ePc.EFreed? then J else E
  }

  /** What is left of E's part; going round its wait loop takes nothing off it. */
  function ERank(s: State): nat {
    match s.ePc
    case ETest => if s.eOn then 30 else 31
    case ECas => 29
    case ESuspend => 28
    case EStore1 => if s.eOn then 26 else 27
    case EPublish1 => 25
    case EStore2 => 27
    case EPublish2 => 26
    case EWake => 25
    case EQueue => if s.join.ValRead? then 14 else 15
    case ESwitch => if s.join.ValRead? then 13 else 15
    case EWait => if !s.join.ValRead? then 15 else if s.eOn then 11 else 12
    case EReset => 10
    case EDetach => 9
    case EHandlerQueue => 8
    case EHandlerSwitch => 7
    case EEnd => 6
    case EFreed => 0
  }

  /** The same for J. */
  function JRank(s: State): nat {
    match s.jPc
    case JCheck => if s.jOn then 30 else 31
    case JSetThread => 29
    case JSetPtr => 28
    case JTest => 27
    case JCas => 26
    case JWake => 25
    case JSuspend => 17
    case JQueue => if s.join.ValSet? then 15 else 16
    case JSwitch => if s.join.ValSet? then 14 else 16
    case JWait => if !s.join.ValSet? then 16 else if s.jOn then 11 else 12
    case JCollect => 10
    case JAck => 9
    case JDone => 0
    case JInvalid => 0
  }

  function Rank(s: State): nat { ERank(s) + JRank(s) }

  /** A turn of the leader brings the end nearer. */
  lemma LeaderAdvances(a: Args, s: State)
    requires Inv(a, s) && !Finished(s)
    ensures Rank(Turn(a, s, Leader(s))) < Rank(s)
  {
    if Leader(s) == E {
      ELeadAdvances(a, s);
    } else {
      JLeadAdvances(a, s);
    }
  }

  lemma ELeadAdvances(a: Args, s: State)
    requires Inv(a, s) && Leader(s) == E
    ensures Rank(Turn(a, s, E)) < Rank(s)
  {
    match s.ePc
    case ETest | ECas | ESuspend =>
    case EStore1 | EPublish1 | EStore2 | EPublish2 =>
    case EWake | EWait | EQueue | ESwitch =>
    case _ =>
  }

  lemma JLeadAdvances(a: Args, s: State)
    requires Inv(a, s) && Leader(s) == J && !Finished(s)
    ensures Rank(Turn(a, s, J)) < Rank(s)
  {
    match s.jPc
    case JCheck | JSetThread | JSetPtr | JTest | JCas =>
    case JSuspend | JWake | JWait =>
    case JQueue | JSwitch =>
    case _ =>
  }

  /** A turn of the other thread does too, or leaves the lead where it is. */
  lemma FollowerWaits(a: Args, s: State, t: Thread)
    requires Inv(a, s) && t != Leader(s)
    ensures Rank(Turn(a, s, t)) < Rank(s) || (Rank(Turn(a, s, t)) == Rank(s) && Leader(Turn(a, s, t)) == Leader(s))
  {
    if t == E {
      EFollows(a, s);
    } else {
      JFollows(a, s);
    }
  }

  lemma EFollows(a: Args, s: State)
    requires Inv(a, s) && Leader(s) == J
    ensures Rank(Turn(a, s, E)) < Rank(s) || (Rank(Turn(a, s, E)) == Rank(s) && Leader(Turn(a, s, E)) == J)
  {
  }

  lemma JFollows(a: Args, s: State)
    requires Inv(a, s) && Leader(s) == E
    ensures Rank(Turn(a, s, J)) < Rank(s) || (Rank(Turn(a, s, J)) == Rank(s) && Leader(Turn(a, s, J)) == E)
  {
    match s.jPc
    case JCheck | JSetThread | JSetPtr | JTest | JCas =>
    case JSuspend | JWake | JWait =>
    case JQueue | JSwitch =>
    case _ =>
  }

  lemma TurnInv(a: Args, s: State, t: Thread)
    requires Inv(a, s)
    ensures Inv(a, Turn(a, s, t))
  {
    if Enabled(s, Move(s, t)) {
      StepInv(a, s, Move(s, t));
    }
  }

  lemma FinishedTurn(a: Args, s: State, t: Thread)
    requires Inv(a, s) && Finished(s)
    ensures Turn(a, s, t) == s
  {
  }

  lemma {:induction false} TurnsKeepInv(a: Args, s: State, turns: nat -> Thread, n: nat)
    requires Inv(a, s)
    ensures Inv(a, StateAt(a, s, turns, n))
  {
    hide Inv, Turn;
    if n != 0 {
      TurnsKeepInv(a, s, turns, n - 1);
      TurnInv(a, StateAt(a, s, turns, n - 1), turns(n - 1));
    }
  }

  /** When the leader of turn `n` has turn `m`, by then the end has come nearer. */
  lemma {:induction false} NearerBy(a: Args, s: State, turns: nat -> Thread, n: nat, m: nat) returns (k: nat)
    requires Inv(a, s) && n <= m && !Finished(StateAt(a, s, turns, n))
    requires turns(m) == Leader(StateAt(a, s, turns, n))
    ensures Rank(StateAt(a, s, turns, k)) < Rank(StateAt(a, s, turns, n))
    decreases m - n
  {
    hide Inv, Turn, Rank, Leader, Finished;
    var u, next := StateAt(a, s, turns, n), StateAt(a, s, turns, n + 1);
    TurnsKeepInv(a, s, turns, n);
    LeaderAdvances(a, u);
    k := n + 1;
    if turns(n) != Leader(u) {
      FollowerWaits(a, u, turns(n));
      if Rank(next) == Rank(u) {
        RankZero(next);
        k := NearerBy(a, s, turns, n + 1, m);
      }
    }
  }

  lemma RankZero(s: State)
    ensures Finished(s) ==> Rank(s) == 0
  {
  }

  lemma {:induction false} FinishesFrom(a: Args, s: State, turns: nat -> Thread, n: nat) returns (end: nat)
    requires Inv(a, s) && Fair(turns)
    ensures Finished(StateAt(a, s, turns, end))
    decreases Rank(StateAt(a, s, turns, n))
  {
    end := n;
    if !Finished(StateAt(a, s, turns, n)) {
      assert HasTurnAfter(turns, Leader(StateAt(a, s, turns, n)), n);
      var m: nat :| n <= m && HasTurn(turns, Leader(StateAt(a, s, turns, n)), m);
      var k := NearerBy(a, s, turns, n, m);
      end := FinishesFrom(a, s, turns, k);
    }
  }

  /** However far the two threads have come, and however they take turns from there as long as neither is left out for
      ever, the joiner returns and E is freed, and it stays that way. */
  lemma FairTurnsFinish(a: Args, fromHandler: bool, steps: seq<Step>, turns: nat -> Thread)
    requires Run(a, Init(a, fromHandler), steps).Some? && Fair(turns)
    ensures var s := Run(a, Init(a, fromHandler), steps).value;
            exists end: nat :: FinishedFrom(a, s, turns, end)
  {
    var s := Reachable(a, fromHandler, steps);
    var end := FinishesFrom(a, s, turns, 0);
    forall n: nat | end <= n
      ensures Finished(StateAt(a, s, turns, n))
    {
      StaysFinished(a, s, turns, end, n);
    }
    assert FinishedFrom(a, s, turns, end);
  }

  lemma {:induction false} StaysFinished(a: Args, s: State, turns: nat -> Thread, end: nat, n: nat)
    requires Inv(a, s) && end <= n && Finished(StateAt(a, s, turns, end))
    ensures Finished(StateAt(a, s, turns, n))
    decreases n
  {
    hide Inv, Turn, Finished;
    if end < n {
      StaysFinished(a, s, turns, end, n - 1);
      TurnsKeepInv(a, s, turns, n - 1);
      FinishedTurn(a, StateAt(a, s, turns, n - 1), turns(n - 1));
    }
  }
}
