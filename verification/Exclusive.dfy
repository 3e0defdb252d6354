/** The stop-the-world protocol of cpus-common.c as a state machine.

    Any number of threads run concurrently.  A thread is outside the protocol, or at one program
    point of `start_exclusive`, `end_exclusive`, `cpu_exec_start`, `cpu_exec_end`, `cpu_list_add` or
    `cpu_list_remove`.  One step is one access to shared memory, one lock operation or one condition
    variable operation, so the unlocked store to `cpu->running` and the unlocked load of
    `pending_cpus` are separate steps and everything may be interleaved with them.  Memory is
    sequentially consistent, which is what the paired barriers of the code provide for these
    variables. */
module Exclusive {
  import opened Options

  type Cpu = nat
  type Tid = nat

  /** Program points, named after the operation the thread performs next. */
  datatype Pc =
    | Outside
    // cpu_list_add
    | AddLock(cpu: Cpu) | AddInsert(cpu: Cpu) | AddUnlock(cpu: Cpu)
    // cpu_list_remove
    | RemoveLock(cpu: Cpu) | RemoveTake(cpu: Cpu) | RemoveUnlock(cpu: Cpu)
    // start_exclusive
    | StartLock | StartIdle | StartSleep | StartWoken | StartRaise
    | StartScan(todo: set<Cpu>, count: nat) | StartMark(cpu: Cpu, todo: set<Cpu>, count: nat)
    | StartPublish(count: nat) | StartWait | StartCondSleep | StartCondWoken | StartUnlock
    | InExclusive
    // end_exclusive
    | EndLock | EndReset | EndBroadcast | EndUnlock
    // cpu_exec_start
    | EnterStore(cpu: Cpu) | EnterLoad(cpu: Cpu) | EnterLock(cpu: Cpu) | EnterTest(cpu: Cpu)
    | EnterRetract(cpu: Cpu) | EnterIdle(cpu: Cpu) | EnterSleep(cpu: Cpu) | EnterWoken(cpu: Cpu)
    | EnterRestore(cpu: Cpu) | EnterUnlock(cpu: Cpu)
    | InExec(cpu: Cpu)
    // cpu_exec_end
    | LeaveStore(cpu: Cpu) | LeaveLoad(cpu: Cpu) | LeaveLock(cpu: Cpu) | LeaveTest(cpu: Cpu)
    | LeaveCount(cpu: Cpu) | LeaveSignal(cpu: Cpu) | LeaveUnlock(cpu: Cpu)

  /** The shared variables.  `running` and `waiters` are the CPUs whose `running` and `has_waiter`
      flags are set. */
  datatype Shared = Shared(
    pending: int,
    lock: Option<Tid>,
    cpus: set<Cpu>,
    running: set<Cpu>,
    waiters: set<Cpu>)

  datatype State = State(g: Shared, pc: seq<Pc>)

  // ---------------------------------------------------------------------------------------------
  // Classification of program points
  // ---------------------------------------------------------------------------------------------

  predicate HoldsLock(p: Pc) {
    p.AddInsert? || p.AddUnlock? || p.RemoveTake? || p.RemoveUnlock? || p.StartIdle? || p.StartRaise?
    || p.StartScan? || p.StartMark? || p.StartPublish? || p.StartWait? || p.StartUnlock?
    || p.EndReset? || p.EndBroadcast? || p.EndUnlock?
    || p.EnterTest? || p.EnterRetract? || p.EnterIdle? || p.EnterRestore? || p.EnterUnlock?
    || p.LeaveTest? || p.LeaveCount? || p.LeaveSignal? || p.LeaveUnlock?
  }

  /** From raising `pending_cpus` in start_exclusive to clearing it in end_exclusive. */
  predicate InSection(p: Pc) {
    p.StartScan? || p.StartMark? || p.StartPublish? || p.StartWait? || p.StartCondSleep?
    || p.StartCondWoken? || p.StartUnlock? || p.InExclusive? || p.EndLock? || p.EndReset?
  }

  /** Between the return of start_exclusive and end_exclusive's reset of `pending_cpus`. */
  predicate HasExclusive(p: Pc) {
    p.InExclusive? || p.EndLock? || p.EndReset?
  }

  /** Asleep on exclusive_resume. */
  predicate ResumeSleeper(p: Pc) {
    p.StartSleep? || p.EnterSleep?
  }

  /** The CPU a thread is working on; `StartMark` only looks at another thread's CPU. */
  function OnCpu(p: Pc): Option<Cpu> {
    match p
    case AddLock(c) => Some(c) case AddInsert(c) => Some(c) case AddUnlock(c) => Some(c)
    case RemoveLock(c) => Some(c) case RemoveTake(c) => Some(c) case RemoveUnlock(c) => Some(c)
    case EnterStore(c) => Some(c) case EnterLoad(c) => Some(c) case EnterLock(c) => Some(c)
    case EnterTest(c) => Some(c) case EnterRetract(c) => Some(c) case EnterIdle(c) => Some(c)
    case EnterSleep(c) => Some(c) case EnterWoken(c) => Some(c) case EnterRestore(c) => Some(c)
    case EnterUnlock(c) => Some(c) case InExec(c) => Some(c)
    case LeaveStore(c) => Some(c) case LeaveLoad(c) => Some(c) case LeaveLock(c) => Some(c)
    case LeaveTest(c) => Some(c) case LeaveCount(c) => Some(c) case LeaveSignal(c) => Some(c)
    case LeaveUnlock(c) => Some(c)
    case _ => None
  }

  predicate Claimed(s: State, c: Cpu) {
    exists t :: 0 <= t < |s.pc| && OnCpu(s.pc[t]) == Some(c)
  }

  // ---------------------------------------------------------------------------------------------
  // Steps
  // ---------------------------------------------------------------------------------------------

  predicate Init(s: State) {
    && s.g == Shared(0, None, {}, {}, {})
    && forall t :: 0 <= t < |s.pc| ==> s.pc[t] == Outside
  }

  /** Program points whose next operation takes the list lock. */
  predicate TakesLock(p: Pc) {
    p.AddLock? || p.RemoveLock? || p.StartLock? || p.StartWoken? || p.StartCondWoken? || p.EndLock?
    || p.EnterLock? || p.EnterWoken? || p.LeaveLock?
  }

  /** Program points whose next operation drops the list lock: unlocking it, or going to sleep. */
  predicate DropsLock(g: Shared, p: Pc) {
    p.AddUnlock? || p.RemoveUnlock? || p.StartUnlock? || p.EndUnlock? || p.EnterUnlock? || p.LeaveUnlock?
    || ((p.StartIdle? || p.EnterIdle?) && g.pending != 0) || (p.StartWait? && g.pending > 1)
  }

  /** The effect of thread `t` at `p` on the shared variables. */
  function NextShared(g: Shared, t: Tid, p: Pc): Shared {
    if TakesLock(p) then g.(lock := Some(t))
    else if DropsLock(g, p) then g.(lock := None)
    else
      match p
      case AddInsert(c) => g.(cpus := g.cpus + {c})
      case RemoveTake(c) => g.(cpus := g.cpus - {c})
      case StartRaise => g.(pending := 1)
      case StartMark(c, _, _) => g.(waiters := g.waiters + {c})
      case StartPublish(n) => g.(pending := n + 1)
      case EndReset => g.(pending := 0)
      case EnterStore(c) => g.(running := g.running + {c})
      case EnterRetract(c) => g.(running := g.running - {c})
      case EnterRestore(c) => g.(running := g.running + {c})
      case LeaveStore(c) => g.(running := g.running - {c})
      case LeaveTest(c) => g.(waiters := g.waiters - {c})
      case LeaveCount(_) => g.(pending := g.pending - 1)
      case _ => g
  }

  /** Where a thread at `p` goes next, for all program points that leave no choice. */
  function NextPc(g: Shared, p: Pc): Pc {
    match p
    case Outside => Outside
    // cpu_list_add, then finish_safe_work
    case AddLock(c) => AddInsert(c)
    case AddInsert(c) => AddUnlock(c)
    case AddUnlock(c) => EnterStore(c)
    // cpu_list_remove
    case RemoveLock(c) => RemoveTake(c)
    case RemoveTake(c) => RemoveUnlock(c)
    case RemoveUnlock(_) => Outside
    // start_exclusive
    case StartLock => StartIdle
    case StartIdle => if g.pending != 0 then StartSleep else StartRaise
    case StartSleep => StartWoken
    case StartWoken => StartIdle
    case StartRaise => StartScan(g.cpus, 0)
    case StartScan(_, n) => StartPublish(n)
    case StartMark(_, todo, n) => StartScan(todo, n + 1)
    case StartPublish(_) => StartWait
    case StartWait => if g.pending > 1 then StartCondSleep else StartUnlock
    case StartCondSleep => StartCondWoken
    case StartCondWoken => StartWait
    case StartUnlock => InExclusive
    case InExclusive => EndLock
    // end_exclusive
    case EndLock => EndReset
    case EndReset => EndBroadcast
    case EndBroadcast => EndUnlock
    case EndUnlock => Outside
    // cpu_exec_start
    case EnterStore(c) => EnterLoad(c)
    case EnterLoad(c) => if g.pending != 0 then EnterLock(c) else InExec(c)
    case EnterLock(c) => EnterTest(c)
    case EnterTest(c) => if c in g.waiters then EnterUnlock(c) else EnterRetract(c)
    case EnterRetract(c) => EnterIdle(c)
    case EnterIdle(c) => if g.pending != 0 then EnterSleep(c) else EnterRestore(c)
    case EnterSleep(c) => EnterWoken(c)
    case EnterWoken(c) => EnterIdle(c)
    case EnterRestore(c) => EnterUnlock(c)
    case EnterUnlock(c) => InExec(c)
    case InExec(c) => LeaveStore(c)
    // cpu_exec_end
    case LeaveStore(c) => LeaveLoad(c)
    case LeaveLoad(c) => if g.pending != 0 then LeaveLock(c) else Outside
    case LeaveLock(c) => LeaveTest(c)
    case LeaveTest(c) => if c in g.waiters then LeaveCount(c) else LeaveUnlock(c)
    case LeaveCount(c) => LeaveSignal(c)
    case LeaveSignal(c) => LeaveUnlock(c)
    case LeaveUnlock(_) => Outside
  }

  /** What a thread outside the protocol may begin. */
  predicate Begins(g: Shared, p': Pc) {
    || p'.StartLock?
    || ((p'.EnterStore? || p'.RemoveLock?) && p'.cpu in g.cpus)
    || (p'.AddLock? && p'.cpu !in g.cpus)
  }

  /** start_exclusive has read the `running` flag of `c`. */
  function Looked(g: Shared, c: Cpu, todo: set<Cpu>, n: nat): Pc {
    if c in g.running then StartMark(c, todo - {c}, n) else StartScan(todo - {c}, n)
  }

  /** Where a thread goes is a choice: what to begin, or which CPU to look at next. */
  predicate Choice(p: Pc) {
    p.Outside? || (p.StartScan? && p.todo != {})
  }

  ghost predicate Chosen(g: Shared, p: Pc, p': Pc)
    requires Choice(p)
  {
    if p.Outside? then Begins(g, p')
    else exists c :: c in p.todo && p' == Looked(g, c, p.todo, p.count)
  }

  /** What thread `t` does to the shared variables and to its own program point. */
  ghost predicate Local(g: Shared, t: Tid, p: Pc, g': Shared, p': Pc) {
    if Choice(p) then
      g' == g && Chosen(g, p, p')
    else
      (TakesLock(p) ==> g.lock == None) && g' == NextShared(g, t, p) && p' == NextPc(g, p)
  }

  /** A condition variable operation wakes a sleeper: the only way a step touches another thread. */
  function WokenPc(p: Pc): Pc {
    match p
    case StartSleep => StartWoken
    case EnterSleep(c) => EnterWoken(c)
    case StartCondSleep => StartCondWoken
    case _ => p
  }

  /** qemu_cond_broadcast(&exclusive_resume) wakes all its sleepers;
      qemu_cond_signal(&exclusive_cond) wakes one of its sleepers, if there is one. */
  ghost predicate Wakes(s: State, t: Tid, s': State)
    requires t < |s.pc| == |s'.pc|
  {
    match s.pc[t]
    case EndBroadcast =>
      forall u :: 0 <= u < |s.pc| && u != t ==>
        s'.pc[u] == if ResumeSleeper(s.pc[u]) then WokenPc(s.pc[u]) else s.pc[u]
    case LeaveSignal(_) =>
      if s.g.pending == 1 && exists u :: 0 <= u < |s.pc| && s.pc[u].StartCondSleep?
      then exists u :: 0 <= u < |s.pc| && s.pc[u].StartCondSleep?
                       && s'.pc[u] == StartCondWoken && Frame(s, {t, u}, s')
      else Frame(s, {t}, s')
    case _ => Frame(s, {t}, s')
  }

  predicate Frame(s: State, changed: set<Tid>, s': State)
    requires |s.pc| == |s'.pc|
  {
    forall u :: 0 <= u < |s.pc| && u !in changed ==> s'.pc[u] == s.pc[u]
  }

  /** One step of thread `t`.  A sleeping thread may also wake up spuriously.  A CPU is used by one
      thread at a time, and start_exclusive is only called from outside cpu_exec. */
  ghost predicate Step(s: State, t: Tid, s': State)
    requires t < |s.pc|
  {
    && |s'.pc| == |s.pc|
    && Local(s.g, t, s.pc[t], s'.g, s'.pc[t])
    && (s.pc[t].Outside? && OnCpu(s'.pc[t]).Some? ==> !Claimed(s, OnCpu(s'.pc[t]).value))
    && Wakes(s, t, s')
  }

  ghost predicate Next(s: State, s': State) {
    exists t :: 0 <= t < |s.pc| && Step(s, t, s')
  }

  /** A finite run: every interleaving of the threads' steps from the initial state. */
  ghost predicate IsRun(run: seq<State>) {
    && |run| > 0 && Init(run[0])
    && forall i :: 0 <= i < |run| - 1 ==> Next(run[i], run[i + 1])
  }

  // ---------------------------------------------------------------------------------------------
  // The invariant
  // ---------------------------------------------------------------------------------------------

  predicate LockInv(s: State) {
    && (s.g.lock.Some? ==> s.g.lock.value < |s.pc|)
    && forall t :: 0 <= t < |s.pc| ==> (HoldsLock(s.pc[t]) <==> s.g.lock == Some(t))
  }

  /** A CPU is used by one thread at a time. */
  predicate ClaimInv(s: State) {
    forall t, u ::
      0 <= t < |s.pc| && 0 <= u < |s.pc| && OnCpu(s.pc[t]).Some? && OnCpu(s.pc[t]) == OnCpu(s.pc[u])
      ==> t == u
  }

  predicate SomeSection(s: State) {
    exists t :: 0 <= t < |s.pc| && InSection(s.pc[t])
  }

  predicate OwnerInv(s: State) {
    && (forall t, u ::
          0 <= t < |s.pc| && 0 <= u < |s.pc| && InSection(s.pc[t]) && InSection(s.pc[u]) ==> t == u)
    && (!SomeSection(s) ==> s.g.pending == 0 && s.g.waiters == {})
  }

  /** The program point of the thread that holds the list lock. */
  function Holder(s: State): Pc {
    if s.g.lock.Some? && s.g.lock.value < |s.pc| then s.pc[s.g.lock.value] else Outside
  }

  /** What `pending_cpus` is while a thread at `p` is in its section and `h` holds the lock.  One
      more than the counted CPUs if a cpu_exec_end has cleared has_waiter but not yet decremented. */
  predicate SectionCount(g: Shared, h: Pc, p: Pc) {
    match p
    case StartScan(todo, n) => g.pending == 1 && n == |g.waiters| && todo <= g.cpus && todo !! g.waiters
    case StartMark(c, todo, n) =>
      g.pending == 1 && n == |g.waiters| && todo <= g.cpus && todo !! g.waiters
      && c in g.cpus && c !in todo && c !in g.waiters
    case StartPublish(n) => g.pending == 1 && n == |g.waiters|
    case StartWait => g.pending == 1 + |g.waiters|
    case StartCondSleep => g.pending == 1 + |g.waiters| + if h.LeaveCount? then 1 else 0
    case StartCondWoken => g.pending == 1 + |g.waiters| + if h.LeaveCount? then 1 else 0
    case _ => g.pending == 1 && g.waiters == {}
  }

  predicate CountInv(s: State) {
    forall t :: 0 <= t < |s.pc| && InSection(s.pc[t]) ==> SectionCount(s.g, Holder(s), s.pc[t])
  }

  /** What a thread on CPU `c` at `p` knows about the flags of `c`. */
  predicate CpuFacts(g: Shared, p: Pc) {
    match p
    case AddLock(c) => c !in g.cpus && c !in g.running && c !in g.waiters
    case AddInsert(c) => c !in g.cpus && c !in g.running && c !in g.waiters
    case AddUnlock(c) => c in g.cpus && c !in g.running && c !in g.waiters
    case RemoveLock(c) => c !in g.running && c !in g.waiters
    case RemoveTake(c) => c !in g.running && c !in g.waiters
    case RemoveUnlock(c) => c !in g.running && c !in g.waiters
    case EnterStore(c) => c in g.cpus && c !in g.running && c !in g.waiters
    case EnterLoad(c) => c in g.cpus && c in g.running
    case EnterLock(c) => c in g.cpus && c in g.running
    case EnterTest(c) => c in g.cpus && c in g.running
    case EnterRetract(c) => c in g.cpus && c in g.running && c !in g.waiters
    case EnterIdle(c) => c in g.cpus && c !in g.running && c !in g.waiters
    case EnterSleep(c) => c in g.cpus && c !in g.running && c !in g.waiters
    case EnterWoken(c) => c in g.cpus && c !in g.running && c !in g.waiters
    case EnterRestore(c) => c in g.cpus && c !in g.running && c !in g.waiters && g.pending == 0
    case EnterUnlock(c) => c in g.cpus && c in g.running && (g.pending == 0 || c in g.waiters)
    case InExec(c) => c in g.cpus && c in g.running
    case LeaveStore(c) => c in g.cpus && c in g.running
    case LeaveLoad(c) => c in g.cpus && c !in g.running
    case LeaveLock(c) => c in g.cpus && c !in g.running
    case LeaveTest(c) => c in g.cpus && c !in g.running
    case LeaveCount(c) => c in g.cpus && c !in g.running && c !in g.waiters && g.pending > 1
    case LeaveSignal(c) => c in g.cpus && c !in g.running && c !in g.waiters
    case LeaveUnlock(c) => c in g.cpus && c !in g.running && c !in g.waiters
    case StartRaise => g.pending == 0
    case _ => true
  }

  predicate CpuInv(s: State) {
    forall t :: 0 <= t < |s.pc| ==> CpuFacts(s.g, s.pc[t])
  }

  /** Flags are only set on behalf of a thread that is working on the CPU. */
  predicate FlagInv(s: State) {
    && (forall c :: c in s.g.running ==> Claimed(s, c))
    && (forall c :: c in s.g.waiters ==> Claimed(s, c))
  }

  /** The CPUs start_exclusive has yet to look at or mark. */
  function Unseen(p: Pc): set<Cpu> {
    match p
    case StartScan(todo, _) => todo
    case StartMark(c, todo, _) => todo + {c}
    case _ => {}
  }

  predicate Executing(p: Pc) {
    p.InExec? || p.LeaveStore?
  }

  /** A CPU that executes during an exclusive request is counted, or will still be looked at. */
  predicate CoverInv(s: State) {
    forall t, u ::
      0 <= t < |s.pc| && 0 <= u < |s.pc| && InSection(s.pc[u]) && Executing(s.pc[t])
      ==> s.pc[t].cpu in s.g.waiters || s.pc[t].cpu in Unseen(s.pc[u])
  }

  /** Program points at which `has_waiter` may be set by another thread. */
  predicate Markable(p: Pc) {
    p.EnterLoad? || p.EnterLock? || p.InExec? || p.LeaveStore? || p.LeaveLoad? || p.LeaveLock?
  }

  predicate MarkInv(s: State) {
    forall u :: 0 <= u < |s.pc| && s.pc[u].StartMark? ==> Marked(s, s.pc[u].cpu)
  }

  predicate Marked(s: State, c: Cpu) {
    Claimed(s, c) &&
    forall t :: 0 <= t < |s.pc| && OnCpu(s.pc[t]) == Some(c) ==> Markable(s.pc[t])
  }

  /** Nobody sleeps without a thread that still has to wake it. */
  predicate SleepInv(s: State) {
    && (forall t :: 0 <= t < |s.pc| && s.pc[t].StartCondSleep? ==> s.g.pending > 1 || Holder(s).LeaveSignal?)
    && (forall t :: 0 <= t < |s.pc| && ResumeSleeper(s.pc[t]) ==> s.g.pending > 0 || Holder(s).EndBroadcast?)
  }

  predicate Inv(s: State) {
    && LockInv(s) && ClaimInv(s) && OwnerInv(s) && CountInv(s) && CpuInv(s) && FlagInv(s)
    && CoverInv(s) && MarkInv(s) && SleepInv(s)
  }

  // ---------------------------------------------------------------------------------------------
  // Every step keeps the invariant
  // ---------------------------------------------------------------------------------------------

  /** The other threads' program points change at most by a wake-up. */
  predicate Rest(s: State, t: Tid, s': State) {
    && |s'.pc| == |s.pc|
    && forall u :: 0 <= u < |s.pc| && u != t ==> s'.pc[u] == s.pc[u] || s'.pc[u] == WokenPc(s.pc[u])
  }

  lemma {:induction false} StepRest(s: State, t: Tid, s': State)
    requires t < |s.pc| && Step(s, t, s')
    ensures Rest(s, t, s')
  {
  }

  /** How one thread's step moves the lock; only the holder changes the variables it protects. */
  predicate LockMoves(g: Shared, t: Tid, p: Pc, g': Shared, p': Pc) {
    && (HoldsLock(p') <==> g'.lock == Some(t))
    && (g'.lock == g.lock || (g.lock == None && g'.lock == Some(t)) || (g.lock == Some(t) && g'.lock == None))
  }

  predicate Guarded(g: Shared, p: Pc, g': Shared) {
    !HoldsLock(p) ==> g'.pending == g.pending && g'.waiters == g.waiters && g'.cpus == g.cpus
  }

  lemma {:induction false} LocalGuarded(g: Shared, t: Tid, p: Pc, g': Shared, p': Pc)
    requires Local(g, t, p, g', p')
    ensures Guarded(g, p, g')
  {
    if Choice(p) {
    } else {
    }
  }

  lemma {:induction false} NextLock(g: Shared, t: Tid, p: Pc)
    requires HoldsLock(p) <==> g.lock == Some(t)
    requires TakesLock(p) ==> g.lock == None
    ensures !Choice(p) ==> LockMoves(g, t, p, NextShared(g, t, p), NextPc(g, p))
  {
  }

  lemma {:induction false} LocalLock(g: Shared, t: Tid, p: Pc, g': Shared, p': Pc)
    requires Local(g, t, p, g', p')
    requires HoldsLock(p) <==> g.lock == Some(t)
    ensures LockMoves(g, t, p, g', p')
  {
    if !Choice(p) {
      NextLock(g, t, p);
    }
  }

  /** How one thread's step moves its CPU and its section. */
  predicate CpuMoves(p: Pc, p': Pc) {
    && (!p.Outside? ==> OnCpu(p').None? || OnCpu(p') == OnCpu(p))
    && (OnCpu(p').Some? && !Markable(p') ==> !Markable(p) || p.LeaveLock? || p.EnterLock?)
  }

  lemma {:induction false} NextCpu(g: Shared, p: Pc)
    ensures CpuMoves(p, NextPc(g, p))
  {
  }

  lemma {:induction false} LocalCpu(g: Shared, t: Tid, p: Pc, g': Shared, p': Pc)
    requires Local(g, t, p, g', p')
    ensures CpuMoves(p, p')
  {
    if !Choice(p) {
      NextCpu(g, p);
    }
  }

  predicate SectionMoves(p: Pc, p': Pc) {
    && (InSection(p') && !InSection(p) ==> p.StartRaise?)
    && (InSection(p) && !InSection(p') ==> p.EndReset?)
  }

  lemma {:induction false} NextSection(g: Shared, p: Pc)
    ensures SectionMoves(p, NextPc(g, p))
  {
  }

  lemma {:induction false} LocalSection(g: Shared, t: Tid, p: Pc, g': Shared, p': Pc)
    requires Local(g, t, p, g', p')
    ensures SectionMoves(p, p')
  {
    if !Choice(p) {
      NextSection(g, p);
    }
  }

  lemma {:induction false} LockStep(s: State, t: Tid, s': State)
    requires t < |s.pc| && LockInv(s) && Rest(s, t, s')
    requires LockMoves(s.g, t, s.pc[t], s'.g, s'.pc[t])
    ensures LockInv(s')
  {
  }

  lemma {:induction false} ClaimStep(s: State, t: Tid, s': State)
    requires t < |s.pc| && ClaimInv(s) && Rest(s, t, s') && CpuMoves(s.pc[t], s'.pc[t])
    requires s.pc[t].Outside? && OnCpu(s'.pc[t]).Some? ==> !Claimed(s, OnCpu(s'.pc[t]).value)
    ensures ClaimInv(s')
  {
  }

  /** What a step does to the flags: its own CPU's, and has_waiter of the CPU it marks. */
  ghost predicate FlagMoves(g: Shared, p: Pc, g': Shared) {
    forall c :: OnCpu(p) != Some(c) ==>
      && (c in g'.cpus <==> c in g.cpus)
      && (c in g'.running <==> c in g.running)
      && (c in g'.waiters <==> c in g.waiters || (p.StartMark? && p.cpu == c))
  }

  lemma {:induction false} LocalFlags(g: Shared, t: Tid, p: Pc, g': Shared, p': Pc)
    requires Local(g, t, p, g', p')
    ensures FlagMoves(g, p, g')
  {
    if !Choice(p) {
      FlagsNext(g, t, p);
    }
  }

  lemma {:induction false} FlagsNext(g: Shared, t: Tid, p: Pc)
    ensures FlagMoves(g, p, NextShared(g, t, p))
  {
    if TakesLock(p) || DropsLock(g, p) {
    } else if OnCpu(p).Some? {
    } else {
    }
  }

  /** Who changes pending_cpus. */
  ghost predicate PendingMoves(g: Shared, p: Pc, g': Shared, p': Pc) {
    && (g'.pending != g.pending ==> InSection(p) || p.StartRaise? || p.LeaveCount?)
    && (p.LeaveCount? ==> g'.pending == g.pending - 1)
    && (p.StartRaise? ==> InSection(p') && g'.waiters == g.waiters)
    && (p.EndReset? ==> g'.pending == 0 && g'.waiters == g.waiters)
    && (g'.waiters <= g.waiters || p.StartMark?)
  }

  lemma {:induction false} LocalPending(g: Shared, t: Tid, p: Pc, g': Shared, p': Pc)
    requires Local(g, t, p, g', p')
    ensures PendingMoves(g, p, g', p')
  {
    if Choice(p) {
    } else {
    }
  }

  /** pending_cpus is positive exactly while some thread is in its section. */
  lemma {:induction false} PendingSection(s: State)
    requires OwnerInv(s) && CountInv(s)
    ensures s.g.pending >= 0
    ensures s.g.pending == 0 <==> !SomeSection(s)
    ensures s.g.pending == 0 ==> s.g.waiters == {}
  {
  }

  lemma {:induction false} OwnerStep(s: State, t: Tid, s': State)
    requires t < |s.pc| && OwnerInv(s) && CountInv(s) && CpuFacts(s.g, s.pc[t]) && Rest(s, t, s')
    requires SectionMoves(s.pc[t], s'.pc[t]) && PendingMoves(s.g, s.pc[t], s'.g, s'.pc[t])
    ensures OwnerInv(s')
  {
    PendingSection(s);
    if SomeSection(s) {
      var o :| 0 <= o < |s.pc| && InSection(s.pc[o]);
      assert SectionCount(s.g, Holder(s), s.pc[o]);
      assert o != t ==> InSection(s'.pc[o]);
    }
  }

  lemma {:induction false} CountOwn(g: Shared, t: Tid, h: Pc, p: Pc, g': Shared, h': Pc, p': Pc)
    requires Local(g, t, p, g', p') && InSection(p')
    requires InSection(p) ==> SectionCount(g, h, p)
    requires p.StartRaise? ==> g.waiters == {}
    requires p.StartCondWoken? ==> h.Outside?
    requires HoldsLock(p') ==> h' == p'
    requires p.StartWait? && p'.StartCondSleep? ==> h'.Outside?
    requires p.StartCondSleep? ==> h' == h
    ensures SectionCount(g', h', p')
  {
    if Choice(p) {
      CountChosen(g, h, p, g', h', p');
    } else {
      CountNext(g, t, h, p, h');
    }
  }

  lemma {:induction false} CountChosen(g: Shared, h: Pc, p: Pc, g': Shared, h': Pc, p': Pc)
    requires Choice(p) && g' == g && Chosen(g, p, p') && InSection(p') && (InSection(p) ==> SectionCount(g, h, p))
    ensures SectionCount(g', h', p')
  {
  }

  lemma {:induction false} CountNext(g: Shared, t: Tid, h: Pc, p: Pc, h': Pc)
    requires !Choice(p) && InSection(NextPc(g, p)) && (InSection(p) ==> SectionCount(g, h, p))
    requires p.StartRaise? ==> g.waiters == {}
    requires p.StartCondWoken? ==> h.Outside?
    requires HoldsLock(NextPc(g, p)) ==> h' == NextPc(g, p)
    requires p.StartWait? && NextPc(g, p).StartCondSleep? ==> h'.Outside?
    requires p.StartCondSleep? ==> h' == h
    ensures SectionCount(NextShared(g, t, p), h', NextPc(g, p))
  {
    if p.StartMark? {
      assert |g.waiters + {p.cpu}| == |g.waiters| + 1;
    }
  }

  lemma {:induction false} CountOther(g: Shared, t: Tid, h: Pc, p: Pc, g': Shared, h': Pc, p': Pc, q: Pc, q': Pc)
    requires Local(g, t, p, g', p') && InSection(q) && !InSection(p) && !InSection(p')
    requires SectionCount(g, h, q) && (q' == q || q' == WokenPc(q))
    requires HoldsLock(p) ==> h == p && !HoldsLock(q)
    requires HoldsLock(p') ==> h' == p'
    requires HoldsLock(p) && !HoldsLock(p') ==> h'.Outside?
    requires HoldsLock(p') && !HoldsLock(p) ==> h.Outside? && !HoldsLock(q)
    requires !HoldsLock(p) && !HoldsLock(p') ==> h' == h || h' == WokenPc(h)
    requires CpuFacts(g, p)
    ensures SectionCount(g', h', q')
  {
    if HoldsLock(p) {
      CountOtherHolding(g, t, p, g', p', q, q', h');
    } else {
      assert g'.pending == g.pending && g'.waiters == g.waiters && g'.cpus == g.cpus;
    }
  }

  lemma {:induction false} CountOtherHolding(g: Shared, t: Tid, p: Pc, g': Shared, p': Pc, q: Pc, q': Pc, h': Pc)
    requires Local(g, t, p, g', p') && InSection(q) && !InSection(p) && !InSection(p')
    requires SectionCount(g, p, q) && (q' == q || q' == WokenPc(q))
    requires HoldsLock(p) && !HoldsLock(q)
    requires HoldsLock(p') ==> h' == p'
    requires HoldsLock(p) && !HoldsLock(p') ==> h'.Outside?
    requires CpuFacts(g, p)
    ensures SectionCount(g', h', q')
  {
    if Choice(p) {
    } else {
    }
  }

  lemma {:induction false} CountStep(s: State, t: Tid, s': State)
    requires t < |s.pc| && Inv(s) && Rest(s, t, s') && OwnerInv(s') && LockInv(s')
    requires Local(s.g, t, s.pc[t], s'.g, s'.pc[t])
    requires LockMoves(s.g, t, s.pc[t], s'.g, s'.pc[t])
    ensures CountInv(s')
  {
    forall o | 0 <= o < |s.pc| && InSection(s'.pc[o])
      ensures SectionCount(s'.g, Holder(s'), s'.pc[o])
    {
      HolderMoves(s, t, s');
      PendingSection(s);
      if o == t {
        CountStepper(s, t, s');
      } else {
        CountWatcher(s, t, s', o);
      }
    }
  }

  /** The count of the thread that steps. */
  lemma {:induction false} CountStepper(s: State, t: Tid, s': State)
    requires t < |s.pc| && Rest(s, t, s') && InSection(s'.pc[t])
    requires CountInv(s) && CpuFacts(s.g, s.pc[t]) && HolderMoved(s, t, s')
    requires s.g.pending == 0 ==> s.g.waiters == {}
    requires Local(s.g, t, s.pc[t], s'.g, s'.pc[t])
    ensures SectionCount(s'.g, Holder(s'), s'.pc[t])
  {
    CountOwn(s.g, t, Holder(s), s.pc[t], s'.g, Holder(s'), s'.pc[t]);
  }

  /** The count of a thread that looks on. */
  lemma {:induction false} CountWatcher(s: State, t: Tid, s': State, o: Tid)
    requires t < |s.pc| && o < |s.pc| && o != t && Rest(s, t, s') && InSection(s'.pc[o])
    requires OwnerInv(s) && OwnerInv(s') && CountInv(s) && CpuFacts(s.g, s.pc[t]) && HolderMoved(s, t, s')
    requires HoldsLock(s.pc[t]) || HoldsLock(s'.pc[t]) ==> !HoldsLock(s.pc[o])
    requires Local(s.g, t, s.pc[t], s'.g, s'.pc[t])
    ensures SectionCount(s'.g, Holder(s'), s'.pc[o])
  {
    assert InSection(s.pc[o]);
    CountOther(s.g, t, Holder(s), s.pc[t], s'.g, Holder(s'), s'.pc[t], s.pc[o], s'.pc[o]);
  }

  predicate HolderMoved(s: State, t: Tid, s': State)
    requires t < |s.pc| == |s'.pc|
  {
    && (HoldsLock(s.pc[t]) ==> Holder(s) == s.pc[t])
    && (HoldsLock(s'.pc[t]) ==> Holder(s') == s'.pc[t])
    && (HoldsLock(s.pc[t]) && !HoldsLock(s'.pc[t]) ==> Holder(s').Outside?)
    && (HoldsLock(s'.pc[t]) && !HoldsLock(s.pc[t]) ==> s.g.lock == None && Holder(s).Outside?)
    && (!HoldsLock(s.pc[t]) && !HoldsLock(s'.pc[t]) ==> Holder(s') == Holder(s))
  }

  lemma {:induction false} HolderMoves(s: State, t: Tid, s': State)
    requires t < |s.pc| && LockInv(s) && LockInv(s') && Rest(s, t, s')
    requires LockMoves(s.g, t, s.pc[t], s'.g, s'.pc[t])
    ensures HolderMoved(s, t, s')
  {
  }

  lemma {:induction false} CpuOwn(g: Shared, t: Tid, p: Pc, g': Shared, p': Pc)
    requires Local(g, t, p, g', p') && CpuFacts(g, p)
    requires p.Outside? && OnCpu(p').Some? ==> p'.cpu !in g.running && p'.cpu !in g.waiters
    requires p.LeaveTest? && p.cpu in g.waiters ==> g.pending > 1
    ensures CpuFacts(g', p')
  {
    if Choice(p) {
    } else {
    }
  }

  lemma {:induction false} CpuOther(g: Shared, p: Pc, g': Shared, q: Pc, q': Pc)
    requires FlagMoves(g, p, g') && CpuFacts(g, q) && (q' == q || q' == WokenPc(q))
    requires OnCpu(q).Some? ==> OnCpu(p) != OnCpu(q)
    requires HoldsLock(q) ==> g'.pending == g.pending
    requires p.StartMark? && OnCpu(q) == Some(p.cpu) ==> Markable(q)
    ensures CpuFacts(g', q')
  {
  }

  lemma {:induction false} CpuStep(s: State, t: Tid, s': State)
    requires t < |s.pc| && Inv(s) && Rest(s, t, s')
    requires Local(s.g, t, s.pc[t], s'.g, s'.pc[t])
    requires Guarded(s.g, s.pc[t], s'.g) && FlagMoves(s.g, s.pc[t], s'.g)
    requires s.pc[t].Outside? && OnCpu(s'.pc[t]).Some? ==> !Claimed(s, OnCpu(s'.pc[t]).value)
    ensures CpuInv(s')
  {
    forall u | 0 <= u < |s.pc|
      ensures CpuFacts(s'.g, s'.pc[u])
    {
      if u == t {
        CountedPending(s, t);
        CpuOwn(s.g, t, s.pc[t], s'.g, s'.pc[t]);
      } else {
        CpuOther(s.g, s.pc[t], s'.g, s.pc[u], s'.pc[u]);
      }
    }
  }

  /** A cpu_exec_end that finds has_waiter set decrements a count of at least two. */
  lemma {:induction false} CountedPending(s: State, t: Tid)
    requires t < |s.pc| && Inv(s)
    ensures s.pc[t].LeaveTest? && s.pc[t].cpu in s.g.waiters ==> s.g.pending > 1
  {
    if s.pc[t].LeaveTest? && s.pc[t].cpu in s.g.waiters {
      assert SomeSection(s);
      var o :| 0 <= o < |s.pc| && InSection(s.pc[o]);
      assert !HoldsLock(s.pc[o]);
      assert SectionCount(s.g, Holder(s), s.pc[o]);
      assert |s.g.waiters| > 0;
    }
  }

  /** A thread leaves its CPU only when both flags are clear. */
  lemma {:induction false} LeavesClean(g: Shared, t: Tid, p: Pc, g': Shared, p': Pc)
    requires Local(g, t, p, g', p') && CpuFacts(g, p) && OnCpu(p).Some? && OnCpu(p') != OnCpu(p)
    requires g.pending == 0 ==> g.waiters == {}
    ensures OnCpu(p).value !in g'.running && OnCpu(p).value !in g'.waiters
  {
    assert !Choice(p);
    if TakesLock(p) || DropsLock(g, p) {
    } else {
    }
  }

  /** New flags: one's own `running`, or the has_waiter of the CPU one marks. */
  lemma {:induction false} NewFlags(g: Shared, t: Tid, p: Pc, g': Shared, p': Pc)
    requires Local(g, t, p, g', p')
    ensures forall c :: c in g'.running && c !in g.running ==> OnCpu(p') == Some(c)
    ensures forall c :: c in g'.waiters && c !in g.waiters ==> p.StartMark? && p.cpu == c
  {
    if Choice(p) {
    } else {
    }
  }

  lemma {:induction false} ClaimedStep(s: State, t: Tid, s': State, c: Cpu)
    requires t < |s.pc| && Rest(s, t, s') && Claimed(s, c)
    requires OnCpu(s.pc[t]) == Some(c) ==> OnCpu(s'.pc[t]) == Some(c)
    ensures Claimed(s', c)
  {
    var u :| 0 <= u < |s.pc| && OnCpu(s.pc[u]) == Some(c);
    assert OnCpu(s'.pc[u]) == Some(c);
  }

  lemma {:induction false} FlagStep(s: State, t: Tid, s': State)
    requires t < |s.pc| && Inv(s) && Rest(s, t, s') && CpuFacts(s'.g, s'.pc[t])
    requires Local(s.g, t, s.pc[t], s'.g, s'.pc[t])
    ensures FlagInv(s')
  {
    PendingSection(s);
    NewFlags(s.g, t, s.pc[t], s'.g, s'.pc[t]);
    forall c | c in s'.g.running || c in s'.g.waiters
      ensures Claimed(s', c)
    {
      if OnCpu(s'.pc[t]) != Some(c) {
        if OnCpu(s.pc[t]) == Some(c) {
          LeavesClean(s.g, t, s.pc[t], s'.g, s'.pc[t]);
        }
        ClaimedStep(s, t, s', c);
      }
    }
  }

  /** A thread that begins to execute is counted, or no exclusive request is pending. */
  lemma {:induction false} CoverBegins(g: Shared, t: Tid, p: Pc, g': Shared, p': Pc)
    requires Local(g, t, p, g', p') && CpuFacts(g, p) && Executing(p')
    ensures g.pending == 0 || p'.cpu in g'.waiters || (Executing(p) && p.cpu == p'.cpu && g' == g)
    ensures !InSection(p')
  {
    if Choice(p) {
    } else {
    }
  }

  /** start_exclusive forgets a CPU only after marking it or seeing it not running. */
  lemma {:induction false} CoverScans(g: Shared, t: Tid, p: Pc, g': Shared, p': Pc, c: Cpu)
    requires Local(g, t, p, g', p') && InSection(p')
    requires c in g.running && c in g.cpus
    requires InSection(p) ==> c in g.waiters || c in Unseen(p)
    ensures c in g'.waiters || c in Unseen(p')
  {
    if Choice(p) {
    } else {
    }
  }

  lemma {:induction false} CoverStep(s: State, t: Tid, s': State)
    requires t < |s.pc| && Inv(s) && Rest(s, t, s')
    requires Local(s.g, t, s.pc[t], s'.g, s'.pc[t]) && FlagMoves(s.g, s.pc[t], s'.g)
    ensures CoverInv(s')
  {
    forall a, u | 0 <= a < |s.pc| && 0 <= u < |s.pc| && InSection(s'.pc[u]) && Executing(s'.pc[a])
      ensures s'.pc[a].cpu in s'.g.waiters || s'.pc[a].cpu in Unseen(s'.pc[u])
    {
      CoverPair(s, t, s', a, u);
    }
  }

  lemma {:induction false} CoverPair(s: State, t: Tid, s': State, a: Tid, u: Tid)
    requires t < |s.pc| && a < |s.pc| && u < |s.pc| && Rest(s, t, s')
    requires OwnerInv(s) && CountInv(s) && ClaimInv(s) && CoverInv(s) && CpuFacts(s.g, s.pc[a])
    requires Local(s.g, t, s.pc[t], s'.g, s'.pc[t]) && FlagMoves(s.g, s.pc[t], s'.g)
    requires InSection(s'.pc[u]) && Executing(s'.pc[a])
    ensures s'.pc[a].cpu in s'.g.waiters || s'.pc[a].cpu in Unseen(s'.pc[u])
  {
    if a == t {
      CoverBegins(s.g, t, s.pc[t], s'.g, s'.pc[t]);
      assert InSection(s.pc[u]);
      PendingSection(s);
    } else if u == t {
      CoverScans(s.g, t, s.pc[t], s'.g, s'.pc[t], s.pc[a].cpu);
    } else {
      CoverOthers(s, t, s', a, u);
    }
  }

  lemma {:induction false} CoverOthers(s: State, t: Tid, s': State, a: Tid, u: Tid)
    requires t < |s.pc| && a < |s.pc| && u < |s.pc| && a != t && u != t
    requires Rest(s, t, s') && ClaimInv(s) && CoverInv(s) && FlagMoves(s.g, s.pc[t], s'.g)
    requires InSection(s'.pc[u]) && Executing(s'.pc[a])
    ensures s'.pc[a].cpu in s'.g.waiters || s'.pc[a].cpu in Unseen(s'.pc[u])
  {
    assert InSection(s.pc[u]) && Executing(s.pc[a]) && s'.pc[a] == s.pc[a];
    assert OnCpu(s.pc[a]) == Some(s.pc[a].cpu);
    assert Unseen(s'.pc[u]) == Unseen(s.pc[u]);
  }

  /** While an exclusive request holds the lock, a markable thread stays markable. */
  predicate StaysMarkable(g: Shared, p: Pc, p': Pc) {
    Markable(p) && g.pending != 0 && g.lock.Some? ==> Markable(p') && OnCpu(p') == OnCpu(p)
  }

  lemma {:induction false} LocalMarkable(g: Shared, t: Tid, p: Pc, g': Shared, p': Pc)
    requires Local(g, t, p, g', p')
    ensures StaysMarkable(g, p, p')
  {
    if Choice(p) {
    } else {
    }
  }

  predicate MarksRunning(g: Shared, p: Pc, p': Pc) {
    p'.StartMark? ==> p'.cpu in g.running && HoldsLock(p) && OnCpu(p).None? && OnCpu(p').None?
  }

  lemma {:induction false} LocalMarks(g: Shared, t: Tid, p: Pc, g': Shared, p': Pc)
    requires Local(g, t, p, g', p')
    ensures MarksRunning(g, p, p')
  {
    if Choice(p) {
    } else {
    }
  }

  /** Whoever runs with the lock in other hands is at a markable point. */
  lemma {:induction false} RunsMarkable(g: Shared, p: Pc, c: Cpu)
    requires CpuFacts(g, p) && OnCpu(p) == Some(c) && c in g.running && !HoldsLock(p)
    ensures Markable(p)
  {
  }

  /** The CPU start_exclusive has just seen running. */
  lemma {:induction false} MarkFound(s: State, t: Tid, s': State, c: Cpu)
    requires t < |s.pc| && LockInv(s) && CpuInv(s) && FlagInv(s) && Rest(s, t, s')
    requires HoldsLock(s.pc[t]) && c in s.g.running && OnCpu(s.pc[t]).None? && OnCpu(s'.pc[t]).None?
    ensures Marked(s', c)
  {
    ClaimedStep(s, t, s', c);
    forall v | 0 <= v < |s.pc| && OnCpu(s'.pc[v]) == Some(c)
      ensures Markable(s'.pc[v])
    {
      RunsMarkable(s.g, s.pc[v], c);
    }
  }

  /** The CPU another thread is about to mark. */
  lemma {:induction false} MarkKept(s: State, t: Tid, s': State, c: Cpu)
    requires t < |s.pc| && Rest(s, t, s') && Marked(s, c) && s.g.pending != 0 && s.g.lock.Some?
    requires StaysMarkable(s.g, s.pc[t], s'.pc[t]) && CpuMoves(s.pc[t], s'.pc[t])
    requires s.pc[t].Outside? && OnCpu(s'.pc[t]).Some? ==> !Claimed(s, OnCpu(s'.pc[t]).value)
    ensures Marked(s', c)
  {
    ClaimedStep(s, t, s', c);
    forall v | 0 <= v < |s.pc| && OnCpu(s'.pc[v]) == Some(c)
      ensures Markable(s'.pc[v])
    {
      assert OnCpu(s.pc[v]) == Some(c);
    }
  }

  lemma {:induction false} MarkStep(s: State, t: Tid, s': State)
    requires t < |s.pc| && Inv(s) && Rest(s, t, s')
    requires StaysMarkable(s.g, s.pc[t], s'.pc[t]) && MarksRunning(s.g, s.pc[t], s'.pc[t])
    requires CpuMoves(s.pc[t], s'.pc[t])
    requires s.pc[t].Outside? && OnCpu(s'.pc[t]).Some? ==> !Claimed(s, OnCpu(s'.pc[t]).value)
    ensures MarkInv(s')
  {
    forall u | 0 <= u < |s.pc| && s'.pc[u].StartMark?
      ensures Marked(s', s'.pc[u].cpu)
    {
      if u == t {
        MarkFound(s, t, s', s'.pc[t].cpu);
      } else {
        assert SectionCount(s.g, Holder(s), s.pc[u]);
        MarkKept(s, t, s', s.pc[u].cpu);
      }
    }
  }

  lemma {:induction false} SleepBegins(g: Shared, t: Tid, p: Pc, g': Shared, p': Pc)
    requires Local(g, t, p, g', p')
    ensures p'.StartCondSleep? ==> g'.pending > 1
    ensures ResumeSleeper(p') ==> g'.pending != 0
    ensures p.LeaveCount? ==> p'.LeaveSignal?
    ensures p.EndReset? ==> p'.EndBroadcast?
  {
    if Choice(p) {
    } else {
    }
  }

  lemma {:induction false} SleepStep(s: State, t: Tid, s': State)
    requires t < |s.pc| && Inv(s) && Rest(s, t, s') && LockInv(s') && OwnerInv(s') && CountInv(s')
    requires Local(s.g, t, s.pc[t], s'.g, s'.pc[t]) && Wakes(s, t, s')
    requires LockMoves(s.g, t, s.pc[t], s'.g, s'.pc[t])
    requires PendingMoves(s.g, s.pc[t], s'.g, s'.pc[t])
    ensures SleepInv(s')
  {
    PendingSection(s);
    PendingSection(s');
    HolderMoves(s, t, s');
    SleepBegins(s.g, t, s.pc[t], s'.g, s'.pc[t]);
    LocalSection(s.g, t, s.pc[t], s'.g, s'.pc[t]);
    CondSleepStep(s, t, s');
    ResumeSleepStep(s, t, s');
  }

  lemma {:induction false} CondSleepStep(s: State, t: Tid, s': State)
    requires t < |s.pc| && Inv(s) && Rest(s, t, s')
    requires PendingMoves(s.g, s.pc[t], s'.g, s'.pc[t]) && Wakes(s, t, s')
    requires s'.pc[t].StartCondSleep? ==> s'.g.pending > 1
    requires s.pc[t].LeaveCount? ==> Holder(s').LeaveSignal?
    requires !HoldsLock(s.pc[t]) ==> Holder(s') == Holder(s) || Holder(s).Outside?
    requires HoldsLock(s.pc[t]) ==> Holder(s) == s.pc[t]
    ensures forall u :: 0 <= u < |s'.pc| && s'.pc[u].StartCondSleep? ==> s'.g.pending > 1 || Holder(s').LeaveSignal?
  {
    forall u | 0 <= u < |s'.pc| && s'.pc[u].StartCondSleep? && u != t
      ensures s'.g.pending > 1 || Holder(s').LeaveSignal?
    {
      assert s.pc[u].StartCondSleep? && InSection(s.pc[u]);
      assert SectionCount(s.g, Holder(s), s.pc[u]);
    }
  }

  lemma {:induction false} ResumeSleepStep(s: State, t: Tid, s': State)
    requires t < |s.pc| && Inv(s) && Rest(s, t, s')
    requires PendingMoves(s.g, s.pc[t], s'.g, s'.pc[t]) && SectionMoves(s.pc[t], s'.pc[t])
    requires Wakes(s, t, s') && CountInv(s') && OwnerInv(s')
    requires ResumeSleeper(s'.pc[t]) ==> s'.g.pending != 0
    requires s.pc[t].EndReset? ==> Holder(s').EndBroadcast?
    requires !HoldsLock(s.pc[t]) ==> Holder(s') == Holder(s) || Holder(s).Outside?
    requires HoldsLock(s.pc[t]) ==> Holder(s) == s.pc[t]
    ensures forall u :: 0 <= u < |s'.pc| && ResumeSleeper(s'.pc[u]) ==> s'.g.pending > 0 || Holder(s').EndBroadcast?
  {
    PendingSection(s);
    PendingSection(s');
    if SomeSection(s) && s'.g.pending == 0 {
      var o :| 0 <= o < |s.pc| && InSection(s.pc[o]);
      assert InSection(s'.pc[o]) || s.pc[t].EndReset?;
    }
  }

  lemma {:induction false} InvStep(s: State, t: Tid, s': State)
    requires t < |s.pc| && Inv(s) && Step(s, t, s')
    ensures Inv(s')
  {
    StepRest(s, t, s');
    var p, p' := s.pc[t], s'.pc[t];
    LocalLock(s.g, t, p, s'.g, p');
    LocalGuarded(s.g, t, p, s'.g, p');
    LocalCpu(s.g, t, p, s'.g, p');
    LocalSection(s.g, t, p, s'.g, p');
    LocalFlags(s.g, t, p, s'.g, p');
    LocalPending(s.g, t, p, s'.g, p');
    LocalMarkable(s.g, t, p, s'.g, p');
    LocalMarks(s.g, t, p, s'.g, p');
    LockStep(s, t, s');
    ClaimStep(s, t, s');
    OwnerStep(s, t, s');
    CountStep(s, t, s');
    CpuStep(s, t, s');
    FlagStep(s, t, s');
    CoverStep(s, t, s');
    MarkStep(s, t, s');
    SleepStep(s, t, s');
  }

  lemma {:induction false} InvInit(s: State)
    requires Init(s)
    ensures Inv(s)
  {
    assert forall t :: 0 <= t < |s.pc| ==> CpuFacts(s.g, s.pc[t]) && !HoldsLock(s.pc[t]) && !InSection(s.pc[t]);
    assert forall t :: 0 <= t < |s.pc| ==> OnCpu(s.pc[t]) == None;
  }

  lemma {:induction false} InvNext(s: State, s': State)
    requires Inv(s) && Next(s, s')
    ensures Inv(s')
  {
    var t :| 0 <= t < |s.pc| && Step(s, t, s');
    InvStep(s, t, s');
  }

  lemma {:induction false} InvRun(run: seq<State>, i: nat)
    requires IsRun(run) && i < |run|
    ensures Inv(run[i])
  {
    if i == 0 {
      InvInit(run[0]);
    } else {
      InvRun(run, i - 1);
      assert Next(run[i - 1], run[i - 1 + 1]);
      InvNext(run[i - 1], run[i]);
    }
  }

  // ---------------------------------------------------------------------------------------------
  // What the protocol guarantees in every run
  // ---------------------------------------------------------------------------------------------

  /** While a thread is between start_exclusive and end_exclusive, no CPU is between cpu_exec_start
      and cpu_exec_end and no second thread is exclusive. */
  lemma {:induction false} MutualExclusion(run: seq<State>, i: nat, t: Tid, u: Tid)
    requires IsRun(run) && i < |run| && t < |run[i].pc| && u < |run[i].pc| && u != t
    requires HasExclusive(run[i].pc[t])
    ensures !run[i].pc[u].InExec? && !HasExclusive(run[i].pc[u])
  {
    InvRun(run, i);
    assert SectionCount(run[i].g, Holder(run[i]), run[i].pc[t]);
  }

  /** With the list lock free, pending_cpus is zero and no has_waiter is set, or it is one more than
      the number of CPUs with has_waiter and exactly one thread is in its section. */
  lemma {:induction false} CountWhenFree(run: seq<State>, i: nat)
    requires IsRun(run) && i < |run| && run[i].g.lock == None
    ensures !SomeSection(run[i]) ==> run[i].g.pending == 0 && run[i].g.waiters == {}
    ensures SomeSection(run[i]) ==> run[i].g.pending == 1 + |run[i].g.waiters| && OwnerInv(run[i])
  {
    InvRun(run, i);
  }

  /** has_waiter is set only for CPUs whose cpu_exec_end is still ahead, and that cpu_exec_end will
      take the lock: its load of pending_cpus cannot miss the request. */
  lemma {:induction false} CountedWillLeave(run: seq<State>, i: nat, c: Cpu) returns (t: Tid)
    requires IsRun(run) && i < |run| && run[i].g.lock == None && c in run[i].g.waiters
    ensures run[i].g.pending > 1
    ensures t < |run[i].pc| && OnCpu(run[i].pc[t]) == Some(c) && Markable(run[i].pc[t])
  {
    var s := run[i];
    InvRun(run, i);
    assert Claimed(s, c);
    t :| 0 <= t < |s.pc| && OnCpu(s.pc[t]) == Some(c);
    assert CpuFacts(s.g, s.pc[t]);
    var o :| 0 <= o < |s.pc| && InSection(s.pc[o]);
    assert SectionCount(s.g, Holder(s), s.pc[o]);
    assert |s.g.waiters| > 0;
  }

  /** A start_exclusive asleep on exclusive_cond, with the lock free, waits for a counted CPU. */
  lemma {:induction false} SleeperHasCounted(run: seq<State>, i: nat, t: Tid)
    requires IsRun(run) && i < |run| && run[i].g.lock == None
    requires t < |run[i].pc| && run[i].pc[t].StartCondSleep?
    ensures run[i].g.waiters != {}
  {
    InvRun(run, i);
    assert SectionCount(run[i].g, Holder(run[i]), run[i].pc[t]);
  }

  lemma {:induction false} SignalWakes(s: State, t: Tid, s': State, u: Tid)
    requires t < |s.pc| == |s'.pc| && s.pc[t].LeaveSignal? && Wakes(s, t, s') && u < |s.pc| && u != t
    requires OwnerInv(s) && (s.pc[u].StartCondSleep? ==> s.g.pending == 1)
    ensures !s'.pc[u].StartCondSleep?
  {
    if s.pc[u].StartCondSleep? {
      var v :| 0 <= v < |s.pc| && s.pc[v].StartCondSleep? && s'.pc[v] == StartCondWoken && Frame(s, {t, v}, s');
      assert InSection(s.pc[u]) && InSection(s.pc[v]);
    }
  }

  lemma {:induction false} SignallerMoves(g: Shared, t: Tid, p: Pc, g': Shared, p': Pc)
    requires Local(g, t, p, g', p') && p.LeaveSignal?
    ensures p'.LeaveUnlock?
  {
  }

  lemma {:induction false} OneLeft(s: State, t: Tid, u: Tid)
    requires Inv(s) && t < |s.pc| && s.pc[t].LeaveSignal? && u < |s.pc| && s.pc[u].StartCondSleep? && s.g.waiters == {}
    ensures s.g.pending == 1
  {
    assert Holder(s) == s.pc[t];
    assert SectionCount(s.g, Holder(s), s.pc[u]);
  }

  /** The cpu_exec_end that brings the count down to one leaves nobody asleep on exclusive_cond. */
  lemma {:induction false} LastLeaverSignals(run: seq<State>, i: nat, s: State, t: Tid, s': State, u: Tid)
    requires IsRun(run) && i < |run| && s == run[i] && t < |s.pc| && s.pc[t].LeaveSignal?
    requires Step(s, t, s') && s.g.waiters == {} && u < |s'.pc|
    ensures !s'.pc[u].StartCondSleep?
  {
    InvRun(run, i);
    if u == t {
      SignallerMoves(s.g, t, s.pc[t], s'.g, s'.pc[t]);
    } else {
      if s.pc[u].StartCondSleep? {
        OneLeft(s, t, u);
      }
      SignalWakes(s, t, s', u);
    }
  }

  // ---------------------------------------------------------------------------------------------
  // No deadlock
  // ---------------------------------------------------------------------------------------------

  predicate Asleep(p: Pc) {
    ResumeSleeper(p) || p.StartCondSleep?
  }

  /** Points where the thread runs code of its own: it goes on when that code decides to. */
  predicate AtUser(p: Pc) {
    p.Outside? || p.InExec? || p.InExclusive?
  }

  /** The program points after a step of `t`, waking whom it has to wake. */
  ghost function Woke(s: State, t: Tid, p': Pc): seq<Pc>
    requires t < |s.pc|
  {
    if s.pc[t].EndBroadcast? then
      seq(|s.pc|, u requires 0 <= u < |s.pc| => if ResumeSleeper(s.pc[u]) then WokenPc(s.pc[u]) else s.pc[u])[t := p']
    else if s.pc[t].LeaveSignal? && s.g.pending == 1 && exists u :: 0 <= u < |s.pc| && s.pc[u].StartCondSleep? then
      var u :| 0 <= u < |s.pc| && s.pc[u].StartCondSleep?;
      s.pc[u := StartCondWoken][t := p']
    else s.pc[t := p']
  }

  /** Awake at a point of the protocol, and not waiting for a lock somebody else holds. */
  predicate Ready(s: State, t: Tid)
    requires t < |s.pc|
  {
    !AtUser(s.pc[t]) && !Asleep(s.pc[t]) && (TakesLock(s.pc[t]) ==> s.g.lock == None)
  }

  lemma {:induction false} ReadySteps(s: State, t: Tid) returns (s': State)
    requires t < |s.pc| && Ready(s, t)
    ensures Step(s, t, s')
  {
    var p := s.pc[t];
    if Choice(p) {
      var c :| c in p.todo;
      s' := State(s.g, s.pc[t := Looked(s.g, c, p.todo, p.count)]);
      assert Chosen(s.g, p, s'.pc[t]);
    } else {
      s' := State(NextShared(s.g, t, p), Woke(s, t, NextPc(s.g, p)));
    }
  }

  /** Whenever a thread is inside the protocol, some thread inside it can take a step, or an exclusive
      item is running, or the request waits for a CPU that is executing guest code: no set of
      threads ever waits for each other. */
  lemma {:induction false} NoDeadlock(run: seq<State>, i: nat, t: Tid) returns (u: Tid)
    requires IsRun(run) && i < |run| && t < |run[i].pc| && !AtUser(run[i].pc[t])
    ensures u < |run[i].pc|
    ensures || Ready(run[i], u) || run[i].pc[u].InExclusive?
            || (run[i].pc[u].InExec? && run[i].pc[u].cpu in run[i].g.waiters)
  {
    var s := run[i];
    InvRun(run, i);
    u := t;
    if s.g.lock.Some? {
      u := s.g.lock.value;
      HolderReady(s, u);
    } else if Asleep(s.pc[t]) {
      u := SleeperOwner(s, t);
      if s.pc[u].StartCondSleep? {
        SleeperHasCounted(run, i, u);
        var c :| c in s.g.waiters;
        u := CountedWillLeave(run, i, c);
      }
    }
  }

  lemma {:induction false} HolderReady(s: State, u: Tid)
    requires u < |s.pc| && LockInv(s) && s.g.lock == Some(u)
    ensures Ready(s, u)
  {
    assert HoldsLock(s.pc[u]);
  }

  lemma {:induction false} SleeperOwner(s: State, t: Tid) returns (o: Tid)
    requires t < |s.pc| && Inv(s) && s.g.lock == None && Asleep(s.pc[t])
    ensures o < |s.pc| && InSection(s.pc[o])
    ensures Ready(s, o) || s.pc[o].InExclusive? || s.pc[o].StartCondSleep?
  {
    PendingSection(s);
    o :| o < |s.pc| && InSection(s.pc[o]);
    assert !HoldsLock(s.pc[o]);
  }

  // ---------------------------------------------------------------------------------------------
  // A request is granted
  // ---------------------------------------------------------------------------------------------

  /** A start_exclusive that has raised `pending_cpus` and has not returned. */
  predicate Waits(p: Pc) {
    InSection(p) && !HasExclusive(p)
  }

  /** The steps of a counted CPU up to its signal, each counted once; the last two after its flag is cleared. */
  function Ahead(p: Pc): nat {
    match p
    case EnterLoad(_) => 13 case EnterLock(_) => 12 case EnterTest(_) => 11 case EnterUnlock(_) => 10
    case InExec(_) => 9 case LeaveStore(_) => 8 case LeaveLoad(_) => 7 case LeaveLock(_) => 6 case LeaveTest(_) => 5
    case _ => 0
  }

  function Weight(g: Shared, p: Pc): nat {
    match p
    case LeaveCount(_) => 4
    case LeaveSignal(_) => 3
    case _ => if OnCpu(p).Some? && OnCpu(p).value in g.waiters then Ahead(p) else 0
  }

  /** What the request itself has ahead: 15 for each CPU it has yet to look at, which covers the CPU's own steps if it
      is marked. */
  function OwnWork(p: Pc): nat {
    match p
    case StartScan(todo, _) => 15 * |todo| + 6
    case StartMark(_, todo, _) => 15 * |todo| + 20
    case StartPublish(_) => 5
    case StartCondWoken => 5
    case StartWait => 4
    case StartCondSleep => 3
    case StartUnlock => 1
    case _ => 0
  }

  function WeightTo(g: Shared, pc: seq<Pc>, n: nat): nat
    requires n <= |pc|
  {
    if n == 0 then 0 else WeightTo(g, pc, n - 1) + Weight(g, pc[n - 1])
  }

  function Work(s: State, o: Tid): nat
    requires o < |s.pc|
  {
    OwnWork(s.pc[o]) + WeightTo(s.g, s.pc, |s.pc|)
  }

  /** If no thread but `v` weighs more than before, the sum grows by no more than `v` does. */
  lemma {:induction false} WeightMoves(s: State, s': State, v: Tid, n: nat)
    requires n <= |s.pc| == |s'.pc| && v < |s.pc|
    requires forall u :: 0 <= u < |s.pc| && u != v ==> Weight(s'.g, s'.pc[u]) <= Weight(s.g, s.pc[u])
    ensures v < n ==> WeightTo(s'.g, s'.pc, n) + Weight(s.g, s.pc[v]) <= WeightTo(s.g, s.pc, n) + Weight(s'.g, s'.pc[v])
    ensures v >= n ==> WeightTo(s'.g, s'.pc, n) <= WeightTo(s.g, s.pc, n)
  {
    if n > 0 {
      WeightMoves(s, s', v, n - 1);
    }
  }

  /** A step of a counted CPU brings it closer to its signal, and no other thread begins to weigh anything. */
  lemma {:induction false} WeightFalls(g: Shared, t: Tid, p: Pc)
    requires CpuFacts(g, p) && g.pending > 0 && !Choice(p) && !InSection(p) && !p.StartRaise?
    ensures var g', p' := NextShared(g, t, p), NextPc(g, p);
      Weight(g', p') <= Weight(g, p) && (Weight(g, p) > 0 ==> Weight(g', p') < Weight(g, p))
      && (p.LeaveSignal? ==> Weight(g', p') == 0)
  {
    FlagsNext(g, t, p);
    NextCpu(g, p);
    if OnCpu(p).Some? && OnCpu(p).value in g.waiters {
      CountedFalls(g, t, p);
    }
  }

  lemma {:induction false} CountedFalls(g: Shared, t: Tid, p: Pc)
    requires CpuFacts(g, p) && g.pending > 0 && OnCpu(p).Some? && OnCpu(p).value in g.waiters
    ensures Weight(NextShared(g, t, p), NextPc(g, p)) < Weight(g, p)
  {
  }

  /** While a request waits, `pending_cpus` is not zero. */
  lemma {:induction false} WaitPending(s: State, o: Tid)
    requires Inv(s) && o < |s.pc| && InSection(s.pc[o])
    ensures s.g.pending > 0
  {
    assert SectionCount(s.g, Holder(s), s.pc[o]);
  }

  /** Another thread weighs no more after a step that adds no flag. */
  lemma {:induction false} OthersWeigh(s: State, t: Tid, s': State, u: Tid)
    requires t < |s.pc| && u < |s.pc| && u != t && Rest(s, t, s') && s'.g.waiters <= s.g.waiters
    ensures Weight(s'.g, s'.pc[u]) <= Weight(s.g, s.pc[u])
  {
    var p := s.pc[u];
    if s'.pc[u] == WokenPc(p) {
      assert p == WokenPc(p) || Weight(s'.g, WokenPc(p)) == 0;
    }
  }

  /** A thread that begins something weighs nothing. */
  lemma {:induction false} BeginsLight(s: State, t: Tid, s': State)
    requires FlagInv(s) && t < |s.pc| && Step(s, t, s') && s.pc[t].Outside?
    ensures s'.g == s.g && Weight(s'.g, s'.pc[t]) == 0
  {
  }

  /** What the invariant says about a thread that looks on while a request waits. */
  predicate Undisturbed(s: State, t: Tid) {
    FlagInv(s) && t < |s.pc| && s.g.pending > 0 && CpuFacts(s.g, s.pc[t]) && !InSection(s.pc[t])
  }

  lemma {:induction false} StepperWeighs(s: State, t: Tid, s': State, o: Tid)
    requires Undisturbed(s, t) && o < |s.pc| && t != o && Waits(s.pc[o]) && Step(s, t, s')
    ensures s'.g.waiters <= s.g.waiters
    ensures Weight(s'.g, s'.pc[t]) <= Weight(s.g, s.pc[t])
    ensures Weight(s.g, s.pc[t]) > 0 ==> Weight(s'.g, s'.pc[t]) < Weight(s.g, s.pc[t])
    ensures s.pc[t].LeaveSignal? ==> Weight(s'.g, s'.pc[t]) == 0
  {
    if s.pc[t].Outside? {
      BeginsLight(s, t, s');
    } else {
      LocalPending(s.g, t, s.pc[t], s'.g, s'.pc[t]);
      WeightFalls(s.g, t, s.pc[t]);
    }
  }

  /** Only a signal moves a request that waits, and it only wakes it. */
  lemma {:induction false} WaiterMoves(s: State, t: Tid, s': State, o: Tid)
    requires t < |s.pc| && o < |s.pc| && t != o && Waits(s.pc[o]) && Step(s, t, s')
    ensures s'.pc[o] == s.pc[o] || (s.pc[t].LeaveSignal? && s.pc[o].StartCondSleep? && s'.pc[o].StartCondWoken?)
  {
  }

  /** A step of another thread never sets a request back, and a step of a counted CPU brings it closer. */
  lemma {:induction false} OtherStep(s: State, t: Tid, s': State, o: Tid)
    requires Undisturbed(s, t) && o < |s.pc| && t != o && Waits(s.pc[o]) && Step(s, t, s')
    ensures Waits(s'.pc[o]) && Work(s', o) <= Work(s, o)
    ensures Weight(s.g, s.pc[t]) > 0 ==> Work(s', o) < Work(s, o)
  {
    StepRest(s, t, s');
    StepperWeighs(s, t, s', o);
    WaiterMoves(s, t, s', o);
    SumFalls(s, t, s');
  }

  lemma {:induction false} SumFalls(s: State, t: Tid, s': State)
    requires t < |s.pc| && Rest(s, t, s') && s'.g.waiters <= s.g.waiters
    ensures WeightTo(s'.g, s'.pc, |s'.pc|) + Weight(s.g, s.pc[t]) <= WeightTo(s.g, s.pc, |s.pc|) + Weight(s'.g,
            s'.pc[t])
  {
    forall u | 0 <= u < |s.pc| && u != t
      ensures Weight(s'.g, s'.pc[u]) <= Weight(s.g, s.pc[u])
    {
      OthersWeigh(s, t, s', u);
    }
    WeightMoves(s, s', t, |s.pc|);
  }

  /** What the request does itself, apart from setting a flag. */
  lemma {:induction false} OwnFalls(g: Shared, o: Tid, p: Pc, g': Shared, p': Pc)
    requires Local(g, o, p, g', p') && Waits(p)
    ensures !p.StartMark? ==> g'.waiters == g.waiters
    ensures OwnWork(p') <= if p.StartCondSleep? then OwnWork(p) + 2 else OwnWork(p) - if p.StartMark? then 14 else 1
    ensures Waits(p') || p'.InExclusive?
  {
    if Choice(p) {
      ScanFalls(g, p, p');
    } else {
      NextFalls(g, o, p);
    }
  }

  lemma {:induction false} ScanFalls(g: Shared, p: Pc, p': Pc)
    requires p.StartScan? && p.todo != {} && Chosen(g, p, p')
    ensures OwnWork(p') < OwnWork(p) && Waits(p')
  {
    var c :| c in p.todo && p' == Looked(g, c, p.todo, p.count);
    assert |p.todo - {c}| == |p.todo| - 1;
  }

  lemma {:induction false} NextFalls(g: Shared, o: Tid, p: Pc)
    requires !Choice(p) && Waits(p)
    ensures var g', p' := NextShared(g, o, p), NextPc(g, p);
      && (!p.StartMark? ==> g'.waiters == g.waiters) && (Waits(p') || p'.InExclusive?)
      && OwnWork(p') <= if p.StartCondSleep? then OwnWork(p) + 2 else OwnWork(p) - if p.StartMark? then 14 else 1
  {
  }

  /** Setting a flag makes one thread heavier. */
  lemma {:induction false} MarkWeighs(s: State, s': State, o: Tid)
    requires ClaimInv(s) && o < |s.pc| && s.pc[o].StartMark? && Marked(s, s.pc[o].cpu) && Step(s, o, s')
    ensures WeightTo(s'.g, s'.pc, |s.pc|) <= WeightTo(s.g, s.pc, |s.pc|) + 13
  {
    FlagSet(s, s', o);
    var v :| 0 <= v < |s.pc| && OnCpu(s.pc[v]) == Some(s.pc[o].cpu);
    forall u | 0 <= u < |s.pc| && u != v
      ensures Weight(s'.g, s'.pc[u]) <= Weight(s.g, s.pc[u])
    {
      MarkOther(s, s', o, v, u);
    }
    WeightMoves(s, s', v, |s.pc|);
  }

  lemma {:induction false} FlagSet(s: State, s': State, o: Tid)
    requires o < |s.pc| && s.pc[o].StartMark? && Step(s, o, s')
    ensures Frame(s, {o}, s') && s'.g.waiters == s.g.waiters + {s.pc[o].cpu} && Weight(s'.g, s'.pc[o]) == 0
  {
  }

  lemma {:induction false} MarkOther(s: State, s': State, o: Tid, v: Tid, u: Tid)
    requires ClaimInv(s) && o < |s.pc| && s.pc[o].StartMark? && |s'.pc| == |s.pc| && Frame(s, {o}, s')
    requires s'.g.waiters == s.g.waiters + {s.pc[o].cpu} && Weight(s'.g, s'.pc[o]) == 0
    requires v < |s.pc| && OnCpu(s.pc[v]) == Some(s.pc[o].cpu) && u < |s.pc| && u != v
    ensures Weight(s'.g, s'.pc[u]) <= Weight(s.g, s.pc[u])
  {
    if u != o {
      assert OnCpu(s.pc[u]) != Some(s.pc[o].cpu) && s'.pc[u] == s.pc[u];
    }
  }

  /** A step of the request itself brings it closer, unless it wakes up without a signal. */
  lemma {:induction false} OwnStep(s: State, s': State, o: Tid)
    requires ClaimInv(s) && MarkInv(s) && o < |s.pc| && Waits(s.pc[o]) && Step(s, o, s')
    ensures Waits(s'.pc[o]) || s'.pc[o].InExclusive?
    ensures if s.pc[o].StartCondSleep? then Work(s', o) <= Work(s, o) + 2 else Work(s', o) < Work(s, o)
  {
    OwnFalls(s.g, o, s.pc[o], s'.g, s'.pc[o]);
    if s.pc[o].StartMark? {
      MarkWeighs(s, s', o);
    } else {
      StepRest(s, o, s');
      SumFalls(s, o, s');
      assert Weight(s'.g, s'.pc[o]) == 0;
    }
  }

  /** A run with the thread that takes each step. */
  ghost predicate Scheduled(run: seq<State>, who: seq<Tid>) {
    |run| == |who| + 1 && Init(run[0]) && forall i {:trigger StepAt(run, who, i)} :: 0 <= i < |who| ==>
        StepAt(run, who, i)
  }

  ghost predicate StepAt(run: seq<State>, who: seq<Tid>, i: nat)
    requires i < |who| < |run|
  {
    who[i] < |run[i].pc| && Step(run[i], who[i], run[i + 1])
  }

  lemma {:induction false} ScheduledRun(run: seq<State>, who: seq<Tid>)
    requires Scheduled(run, who)
    ensures IsRun(run)
  {
    forall i | 0 <= i < |run| - 1
      ensures Next(run[i], run[i + 1])
    {
      assert StepAt(run, who, i);
    }
  }

  /** The request itself, or a CPU that it has counted. */
  predicate Concerns(s: State, t: Tid, o: Tid) {
    t < |s.pc| && (t == o || Weight(s.g, s.pc[t]) > 0)
  }

  /** The request wakes up without a signal. */
  predicate Spurious(s: State, t: Tid, o: Tid) {
    t < |s.pc| && t == o && s.pc[t].StartCondSleep?
  }

  lemma {:induction false} WorkStep(s: State, t: Tid, s': State, o: Tid)
    requires Inv(s) && t < |s.pc| && o < |s.pc| && Waits(s.pc[o]) && Step(s, t, s')
    ensures Spurious(s, t, o) ==> Work(s', o) <= Work(s, o) + 2
    ensures !Spurious(s, t, o) ==> Work(s', o) <= Work(s, o)
    ensures !Spurious(s, t, o) && Concerns(s, t, o) ==> Work(s', o) < Work(s, o)
  {
    if t == o {
      OwnStep(s, s', o);
    } else {
      WaitPending(s, o);
      assert Undisturbed(s, t);
      OtherStep(s, t, s', o);
    }
  }

  lemma {:induction false} WorkAt(run: seq<State>, who: seq<Tid>, o: Tid, k: nat)
    requires Scheduled(run, who) && k < |who| && o < |run[k].pc| && Waits(run[k].pc[o])
    ensures o < |run[k + 1].pc|
    ensures Spurious(run[k], who[k], o) ==> Work(run[k + 1], o) <= Work(run[k], o) + 2
    ensures !Spurious(run[k], who[k], o) ==> Work(run[k + 1], o) <= Work(run[k], o)
    ensures !Spurious(run[k], who[k], o) && Concerns(run[k], who[k], o) ==> Work(run[k + 1], o) < Work(run[k], o)
  {
    ScheduledRun(run, who);
    InvRun(run, k);
    assert StepAt(run, who, k);
    WorkStep(run[k], who[k], run[k + 1], o);
  }

  /** From state `i` to state `j`: the steps of the request and of the CPUs it has counted, and its spurious
      wake-ups. */
  ghost function Steps(run: seq<State>, who: seq<Tid>, o: Tid, i: nat, j: nat): nat
    requires Scheduled(run, who) && i <= j < |run|
    decreases j
  {
    if i == j then 0
    else Steps(run, who, o, i, j - 1)
         + if Concerns(run[j - 1], who[j - 1], o) && !Spurious(run[j - 1], who[j - 1], o) then 1 else 0
  }

  ghost function WakeUps(run: seq<State>, who: seq<Tid>, o: Tid, i: nat, j: nat): nat
    requires Scheduled(run, who) && i <= j < |run|
    decreases j
  {
    if i == j then 0
    else WakeUps(run, who, o, i, j - 1) + if Spurious(run[j - 1], who[j - 1], o) then 1 else 0
  }

  /** However the threads are interleaved, a request that is not granted from state `i` to state `j` has used up as
      much of its work as it and the counted CPUs have made steps. */
  lemma {:induction false} GrantedInTime(run: seq<State>, who: seq<Tid>, o: Tid, i: nat, j: nat)
    requires Scheduled(run, who) && i <= j < |run| && o < |run[i].pc|
    requires forall k :: i <= k < j ==> o < |run[k].pc| && Waits(run[k].pc[o])
    ensures o < |run[j].pc| &&
            Steps(run, who, o, i, j) + Work(run[j], o) <= Work(run[i], o) + 2 * WakeUps(run, who, o, i, j)
    decreases j
  {
    if i < j {
      GrantedInTime(run, who, o, i, j - 1);
      WorkAt(run, who, o, j - 1);
    }
  }

  /** At the start that work is 15 steps for each CPU, and 6. */
  lemma {:induction false} WorkAtFirst(s: State, s': State, o: Tid)
    requires Inv(s) && o < |s.pc| && s.pc[o].StartRaise? && Step(s, o, s')
    ensures Waits(s'.pc[o]) && Work(s', o) == 15 * |s.g.cpus| + 6
  {
    assert CpuFacts(s.g, s.pc[o]);
    PendingSection(s);
    NothingWeighs(s', o, |s.pc|);
  }

  /** So from raising `pending_cpus` on, the request and the CPUs it counts make no more than 15 steps for each CPU, and
      6, until it is granted, and two more for each spurious wake-up. */
  lemma {:induction false} RequestBound(run: seq<State>, who: seq<Tid>, o: Tid, i: nat, j: nat)
    requires Scheduled(run, who) && i < j < |run| && who[i] == o && o < |run[i].pc| && run[i].pc[o].StartRaise?
    requires forall k :: i < k < j ==> o < |run[k].pc| && Waits(run[k].pc[o])
    ensures Steps(run, who, o, i + 1, j) <= 15 * |run[i].g.cpus| + 6 + 2 * WakeUps(run, who, o, i + 1, j)
  {
    ScheduledRun(run, who);
    InvRun(run, i);
    assert StepAt(run, who, i);
    WorkAtFirst(run[i], run[i + 1], o);
    GrantedInTime(run, who, o, i + 1, j);
  }

  lemma {:induction false} NothingWeighs(s: State, o: Tid, n: nat)
    requires n <= |s.pc| && s.g.waiters == {}
    requires forall t :: 0 <= t < |s.pc| ==> !s.pc[t].LeaveCount? && !s.pc[t].LeaveSignal?
    ensures WeightTo(s.g, s.pc, n) == 0
  {
    if n > 0 {
      NothingWeighs(s, o, n - 1);
    }
  }

  /** As long as it is not granted, one of these threads can go on, or one of the counted CPUs executes guest code, or
      some other thread has the list lock and can go on. */
  lemma {:induction false} SomebodyWorks(run: seq<State>, i: nat, o: Tid) returns (u: Tid)
    requires IsRun(run) && i < |run| && o < |run[i].pc| && Waits(run[i].pc[o])
    ensures u < |run[i].pc|
    ensures || (Ready(run[i], u) && (Concerns(run[i], u, o) || run[i].g.lock == Some(u)))
            || (run[i].pc[u].InExec? && run[i].pc[u].cpu in run[i].g.waiters)
  {
    var s := run[i];
    InvRun(run, i);
    u := o;
    if s.g.lock.Some? {
      u := s.g.lock.value;
      HolderReady(s, u);
    } else if s.pc[o].StartCondSleep? {
      SleeperHasCounted(run, i, o);
      var c :| c in s.g.waiters;
      u := CountedWillLeave(run, i, c);
    }
  }

  /** How many steps a thread that is not the request holds the list lock at most while a request waits. */
  function Holding(p: Pc): nat {
    match p
    case LeaveTest(_) => 4
    case EnterTest(_) => 3 case LeaveCount(_) => 3
    case AddInsert(_) => 2 case RemoveTake(_) => 2 case EnterRetract(_) => 2
    case LeaveSignal(_) => 2 case EndBroadcast => 2
    case _ => if HoldsLock(p) then 1 else 0
  }

  /** Every step of that thread brings it closer to giving up the lock. */
  lemma {:induction false} HolderLetsGo(s: State, t: Tid, s': State, o: Tid)
    requires Inv(s) && t < |s.pc| && o < |s.pc| && t != o && Waits(s.pc[o]) && HoldsLock(s.pc[t]) && Step(s, t, s')
    ensures Holding(s.pc[t]) <= 4 && Holding(s'.pc[t]) < Holding(s.pc[t]) &&
            (s'.g.lock == None <==> Holding(s'.pc[t]) == 0)
  {
    WaitPending(s, o);
    assert CpuFacts(s.g, s.pc[t]) && !InSection(s.pc[t]) && s.g.lock == Some(t);
    LetsGo(s.g, t, s.pc[t]);
  }

  lemma {:induction false} LetsGo(g: Shared, t: Tid, p: Pc)
    requires CpuFacts(g, p) && g.pending > 0 && HoldsLock(p) && !InSection(p) && g.lock == Some(t)
    ensures var g', p' := NextShared(g, t, p), NextPc(g, p);
      Holding(p') < Holding(p) && (g'.lock == None <==> Holding(p') == 0)
  {
  }

  // ---------------------------------------------------------------------------------------------
  // Refinement of a readers-writer lock
  // ---------------------------------------------------------------------------------------------

  /** The abstract machine: CPUs execute as readers, an exclusive item is the writer. */
  datatype Abstract = Abstract(executing: set<Tid>, exclusive: set<Tid>)

  predicate AbstractStep(a: Abstract, a': Abstract) {
    || a' == a
    || (exists t :: t in a'.executing && a.exclusive == {} && a' == a.(executing := a.executing + {t}))
    || (exists t :: t in a.executing && a' == a.(executing := a.executing - {t}))
    || (exists t :: t in a'.exclusive && a.executing == {} && a.exclusive == {} && a' == a.(exclusive := {t}))
    || (a.exclusive != {} && a' == a.(exclusive := {}))
  }

  function View(s: State): Abstract {
    Abstract(set t | 0 <= t < |s.pc| && s.pc[t].InExec?, set t | 0 <= t < |s.pc| && HasExclusive(s.pc[t]))
  }

  predicate ViewMoves(g: Shared, p: Pc, p': Pc) {
    && (HasExclusive(p') && !HasExclusive(p) ==> p.StartUnlock?)
    && (p'.InExec? && !p.InExec? ==> p.EnterUnlock? || (p.EnterLoad? && g.pending == 0))
    && (p'.InExec? || p.InExec? ==> !HasExclusive(p') && !HasExclusive(p))
  }

  lemma {:induction false} NextView(g: Shared, p: Pc)
    ensures ViewMoves(g, p, NextPc(g, p))
  {
  }

  lemma {:induction false} LocalView(g: Shared, t: Tid, p: Pc, g': Shared, p': Pc)
    requires Local(g, t, p, g', p')
    ensures ViewMoves(g, p, p')
  {
    if !Choice(p) {
      NextView(g, p);
    }
  }

  /** Every step is a step of the abstract machine or invisible to it. */
  lemma {:induction false} RefinesReadersWriter(run: seq<State>, i: nat)
    requires IsRun(run) && i + 1 < |run|
    ensures AbstractStep(View(run[i]), View(run[i + 1]))
  {
    InvRun(run, i);
    var s, s' := run[i], run[i + 1];
    assert Next(s, s');
    var t :| 0 <= t < |s.pc| && Step(s, t, s');
    StepRest(s, t, s');
    LocalView(s.g, t, s.pc[t], s'.g, s'.pc[t]);
    NobodyElse(s, t);
    RefinesStep(s, t, s');
  }

  lemma {:induction false} RefinesStep(s: State, t: Tid, s': State)
    requires t < |s.pc| && Rest(s, t, s') && ViewMoves(s.g, s.pc[t], s'.pc[t]) && Excludes(s, t)
    ensures AbstractStep(View(s), View(s'))
  {
    var a, a' := View(s), View(s');
    assert forall u :: 0 <= u < |s.pc| && u != t ==> (u in a.executing <==> u in a'.executing);
    assert forall u :: 0 <= u < |s.pc| && u != t ==> (u in a.exclusive <==> u in a'.exclusive);
    if t in a'.executing && t !in a.executing {
      assert a'.executing == a.executing + {t};
    } else if t in a.executing && t !in a'.executing {
      assert a'.executing == a.executing - {t};
    } else if t in a'.exclusive && t !in a.exclusive {
      assert a'.exclusive == {t};
    } else if t in a.exclusive && t !in a'.exclusive {
      assert a'.exclusive == {};
    } else {
      assert a' == a;
    }
  }

  /** What a thread about to enter or to become exclusive excludes. */
  predicate Excludes(s: State, t: Tid)
    requires t < |s.pc|
  {
    && (s.pc[t].EnterUnlock? || (s.pc[t].EnterLoad? && s.g.pending == 0) ==> View(s).exclusive == {})
    && (s.pc[t].StartUnlock? ==> View(s).executing == {} && View(s).exclusive == {})
    && (HasExclusive(s.pc[t]) ==> View(s).exclusive == {t})
  }

  lemma {:induction false} NobodyElse(s: State, t: Tid)
    requires t < |s.pc| && Inv(s)
    ensures Excludes(s, t)
  {
    PendingSection(s);
    assert CpuFacts(s.g, s.pc[t]);
    if InSection(s.pc[t]) {
      assert SectionCount(s.g, Holder(s), s.pc[t]);
    }
    forall u | u in View(s).exclusive
      ensures s.g.pending == 1 && s.g.waiters == {} && InSection(s.pc[u])
    {
      assert SectionCount(s.g, Holder(s), s.pc[u]);
    }
  }
}
