/**
  All CPUs at once: the steps of spin_lock and spin_unlock (kern/spinlock.c), trap entry and
  exit (kern/trap.c), env_run's tail (kern/env.c), and the system calls in between,
  interleaved in every possible way.
*/
module Smp {
  import opened Mmu
  import opened Pmap
  import opened Kernel
  import opened KernelInv

  /**
    Where a CPU is:
    User      running user code, which stores to memory or traps
    Trapped   about to call lock_kernel (boot: from mp_main rather than from a trap)
    Spin      in the xchg loop
    Taken     xchg returned 0, lk->cpu not yet written
    Entering  holds the lock, trap() not yet past the DYING test
    Body      trapframe saved, dispatching
    Leave     trap_dispatch returned, about to env_run the current environment
    Yielding  about to run sched_yield
    Unlock1   in env_run, about to test holding() and clear lk->cpu
    Unlock2   lk->cpu cleared, lock word still 1
    Pop       lock released, about to load CR3 and pop the trapframe
    Halted    in the monitor or in panic, never to return
  */
  datatype Phase =
    | User | Trapped(boot: bool) | Spin(boot: bool) | Taken(boot: bool) | Entering | Body | Leave | Yielding
    | Unlock1 | Unlock2 | Pop | Halted

  datatype Lock = Lock(locked: bool, cpu: int)

  datatype S = S(k: K, lock: Lock, phase: seq<Phase>)

  predicate Holding(s: S, c: nat) {
    s.lock.locked && s.lock.cpu == c
  }

  function Move(s: S, c: nat, k: K, lock: Lock, p: Phase): S
    requires c < |s.phase|
  {
    S(k, lock, s.phase[c := p])
  }

  /** One step of CPU c; tf is the frame a trap pushes, call what the trap asks for or what user code stores. */
  ghost predicate Next(s: S, s': S, c: nat, tf: Tf, call: Call) {
    && c < |s.phase| == |s.k.cpu|
    && match s.phase[c]
       case User =>
         if call.Stores? && s.k.cpu[c] >= 0
         then s' == Move(s, c, Stored(s.k, s.k.cpu[c], call.words), s.lock, User)
         else s' == Move(s, c, s.k, s.lock, Trapped(false))
       case Trapped(boot) => s' == Move(s, c, s.k, s.lock, if Holding(s, c) then Halted else Spin(boot))
       case Spin(boot) =>
         if s.lock.locked then s' == s
         else s' == Move(s, c, s.k, s.lock.(locked := true), Taken(boot))
       case Taken(boot) => s' == Move(s, c, s.k, s.lock.(cpu := c), if boot then Yielding else Entering)
       case Entering => NextEntry(s, s', c, tf)
       case Body => NextBody(s, s', c, call)
       case Leave =>
         && 0 <= s.k.cpu[c] < |s.k.envs|
         && s' == Move(s, c, EnvRun(s.k, c, s.k.cpu[c]), s.lock, Unlock1)
       case Yielding => NextYield(s, s', c)
       case Unlock1 =>
         if Holding(s, c) then s' == Move(s, c, s.k, s.lock.(cpu := -1), Unlock2)
         else s' == Move(s, c, s.k, s.lock, Halted)
       case Unlock2 => s' == Move(s, c, s.k, s.lock.(locked := false), Pop)
       case Pop => s' == Move(s, c, s.k, s.lock, User)
       case Halted => s' == s
  }

  /** trap(): collect a DYING environment, or save the trapframe. */
  ghost predicate NextEntry(s: S, s': S, c: nat, tf: Tf)
    requires c < |s.phase| == |s.k.cpu|
  {
    && 0 <= s.k.cpu[c] < |s.k.envs|
    && var e := s.k.cpu[c];
       if s.k.envs[e].status == DYING then s' == Move(s, c, Freed(s.k, c, e), s.lock, Yielding)
       else s' == Move(s, c, SetEnv(s.k, e, s.k.envs[e].(tf := tf)), s.lock, Body)
  }

  /** The result of a system call goes to the caller's saved eax. */
  function SetResult(k: K, c: nat, r: int): K {
    if c < |k.cpu| && 0 <= k.cpu[c] < |k.envs|
    then var e := k.cpu[c]; SetEnv(k, e, k.envs[e].(tf := k.envs[e].tf.(eax := r)))
    else k
  }

  ghost predicate NextBody(s: S, s': S, c: nat, call: Call)
    requires c < |s.phase| == |s.k.cpu|
  {
    && Ready(s.k, c) && Allowed(s.k, c, call)
    && match Dispatch(s.k, c, call)
       case Return(k', r) => s' == Move(s, c, SetResult(k', c, r), s.lock, Leave)
       case Switch(k') => s' == Move(s, c, k', s.lock, Yielding)
       case Panic(k') => s' == Move(s, c, k', s.lock, Halted)
  }

  ghost predicate NextYield(s: S, s': S, c: nat)
    requires c < |s.phase| == |s.k.cpu|
  {
    && 0 < |s.k.envs| && s.k.cpu[c] < |s.k.envs|
    && match SchedYield(s.k, c)
       case Ran(k') => s' == Move(s, c, k', s.lock, Unlock1)
       case Monitor(k') => s' == Move(s, c, k', s.lock, Halted)
       case NoIdle(k') => s' == Move(s, c, k', s.lock, Halted)
  }

  // ----- the invariant -----

  predicate Critical(p: Phase) {
    match p
    case User => false
    case Trapped(_) => false
    case Spin(_) => false
    case Pop => false
    case _ => true
  }

  /** Between the write of lk->cpu and its clearing. */
  predicate Recorded(p: Phase) {
    Critical(p) && !p.Taken? && !p.Unlock2?
  }

  /** Mutual exclusion. */
  ghost predicate AtMostOne(s: S) {
    forall c, d :: 0 <= c < |s.phase| && 0 <= d < |s.phase| && Critical(s.phase[c]) && Critical(s.phase[d]) ==>
      c == d
  }

  ghost predicate LockOk(s: S) {
    && AtMostOne(s)
    && (forall c :: 0 <= c < |s.phase| && Critical(s.phase[c]) ==> s.lock.locked)
    && (s.lock.locked ==> exists c :: 0 <= c < |s.phase| && Critical(s.phase[c]))
    && (forall c :: 0 <= c < |s.phase| ==> (s.lock.cpu == c <==> Recorded(s.phase[c])))
    && -1 <= s.lock.cpu < |s.phase|
  }

  /** CPUs that came from a trap have a current environment; booting ones have none. */
  ghost predicate PhaseOk(k: K, c: nat, p: Phase)
    requires c < |k.cpu|
  {
    match p
    case Trapped(boot) => if boot then k.cpu[c] == -1 else k.cpu[c] != -1
    case Spin(boot) => if boot then k.cpu[c] == -1 else k.cpu[c] != -1
    case Taken(boot) => if boot then k.cpu[c] == -1 else k.cpu[c] != -1
    case Yielding => true
    case Halted => true
    case _ => k.cpu[c] != -1
  }

  /** The kernel invariant as seen from the CPU in the critical section, at its phase. */
  ghost predicate HolderOk(k: K, c: nat, p: Phase) {
    match p
    case Body => Entered(k, c)
    case Leave => Entered(k, c)
    case Yielding => KInv(k, c)
    case Halted => KInv(k, c)
    case _ => KInv(k, -1)
  }

  ghost predicate SysInv(s: S) {
    && |s.phase| == |s.k.cpu|
    && LockOk(s)
    && (forall c :: 0 <= c < |s.phase| && Critical(s.phase[c]) ==> HolderOk(s.k, c, s.phase[c]))
    && (!s.lock.locked ==> KInv(s.k, -1))
    && (forall c :: 0 <= c < |s.phase| ==> PhaseOk(s.k, c, s.phase[c]))
  }

  // ----- single steps -----

  /** From "no CPU is inside" to "c is inside", when c's environment is not a zombie. */
  lemma EnterKernel(k: K, c: nat)
    requires KInv(k, -1) && c < |k.cpu| && (k.cpu[c] == -1 || k.envs[k.cpu[c]].status != DYING)
    ensures KInv(k, c)
  {
    hide Inv, ListOk, IdsOk, IpcOk, IdleOk;
  }

  lemma CollectZombie(k: K, c: nat)
    requires KInv(k, -1) && c < |k.cpu| && k.cpu[c] != -1 && k.envs[k.cpu[c]].status == DYING
    ensures KInv(Freed(k, c, k.cpu[c]), c)
  {
    hide Inv, FreeSpace;
    var e := k.cpu[c];
    assert e >= |k.cpu|;
    FreedCpuDying(k, c, e);
    FreedTable(k, c, e);
    FreedMem(k, c, e);
  }

  lemma FreedCpuDying(k: K, c: nat, e: nat)
    requires CpuOk(k, -1) && c < |k.cpu| <= e < |k.envs| && k.cpu[c] == e
    ensures CpuOk(Freed(k, c, e), c)
  {
    hide FreeSpace;
    var k' := Freed(k, c, e);
    forall i | 0 <= i < |k'.envs| && (k'.envs[i].status == RUNNING || k'.envs[i].status == DYING)
      ensures OnCpu(k', i)
    {
      assert OnCpu(k, i);
      var d :| 0 <= d < |k.cpu| && k.cpu[d] == i;
      assert k'.cpu[d] == i;
    }
  }

  lemma SaveFrame(k: K, c: nat, tf: Tf)
    requires KInv(k, -1) && c < |k.cpu| && k.cpu[c] != -1 && k.envs[k.cpu[c]].status != DYING
    ensures Entered(SetEnv(k, k.cpu[c], k.envs[k.cpu[c]].(tf := tf)), c)
  {
    hide Inv;
    EnterKernel(k, c);
    var e := k.cpu[c];
    var v := k.envs[e].(tf := tf);
    assert OnCpu(k, e);
    SetEnvOk(k, e, v, c);
    MemOkSetEnv(k, e, v);
  }

  lemma SetResultOk(k: K, c: nat, r: int)
    requires Entered(k, c)
    ensures Entered(SetResult(k, c, r), c) && SetResult(k, c, r).cpu == k.cpu
  {
    hide Inv;
    var e := k.cpu[c];
    var v := k.envs[e].(tf := k.envs[e].tf.(eax := r));
    assert OnCpu(k, e);
    SetEnvOk(k, e, v, c);
    MemOkSetEnv(k, e, v);
  }

  lemma RerunOk(k: K, c: nat)
    requires Entered(k, c)
    ensures KInv(EnvRun(k, c, k.cpu[c]), -1) && EnvRun(k, c, k.cpu[c]).cpu == k.cpu
  {
    EnvRunKeeps(k, c, k.cpu[c]);
    hide KInv;
  }

  lemma YieldOk(k: K, c: nat)
    requires KInv(k, c) && c < |k.cpu|
    ensures 0 < |k.envs| && k.cpu[c] < |k.envs| && !SchedYield(k, c).NoIdle?
    ensures SchedYield(k, c).Ran? ==>
              var k' := SchedYield(k, c).k; KInv(k', -1) && |k'.cpu| == |k.cpu| && k'.cpu[c] != -1
    ensures SchedYield(k, c).Monitor? ==> KInv(SchedYield(k, c).k, c)
  {
    SchedOk(k, c);
    hide Inv, SchedYield, ListOk, IdsOk, IpcOk, IdleOk, CpuOk;
  }

  // ----- every step keeps the invariant -----

  /** No step of CPU c changes another CPU's current environment. */
  ghost predicate OtherCpusSame(k: K, k': K, c: nat) {
    |k'.cpu| == |k.cpu| && forall d :: 0 <= d < |k.cpu| && d != c ==> k'.cpu[d] == k.cpu[d]
  }

  lemma DispatchOtherCpus(k: K, c: nat, call: Call)
    requires Ready(k, c)
    ensures OtherCpusSame(k, Dispatch(k, c, call).k, c)
  {
    hide FreeSpace, PageAllocAt, PageMapAt, PageRemove, Pte, SetupVm, NextId;
  }

  lemma YieldOtherCpus(k: K, c: nat)
    requires 0 < |k.envs| && c < |k.cpu| && k.cpu[c] < |k.envs|
    ensures OtherCpusSame(k, SchedYield(k, c).k, c)
  {
    hide Scan;
  }

  /** Only CPU c moves, to phase p, with kernel state k' and lock l. */
  lemma MoveOk(s: S, c: nat, k': K, l: Lock, p: Phase)
    requires SysInv(s) && c < |s.phase| && Critical(s.phase[c]) && Critical(p)
    requires OtherCpusSame(s.k, k', c) && PhaseOk(k', c, p) && HolderOk(k', c, p)
    requires l.locked && l.cpu == if Recorded(p) then c else -1
    ensures SysInv(Move(s, c, k', l, p))
  {
    hide KInv, Entered;
    var s' := Move(s, c, k', l, p);
    assert Critical(s'.phase[c]);
    forall d | 0 <= d < |s'.phase|
      ensures PhaseOk(s'.k, d, s'.phase[d])
    {
      if d != c {
        assert s.k.cpu[d] == k'.cpu[d];
        assert PhaseOk(s.k, d, s.phase[d]);
      }
    }
  }

  lemma OutsideMove(s: S, c: nat, p: Phase)
    requires SysInv(s) && c < |s.phase| && !Critical(s.phase[c]) && !Critical(p) && PhaseOk(s.k, c, p)
    ensures SysInv(Move(s, c, s.k, s.lock, p))
  {
    hide KInv, Entered;
    if s.lock.locked {
      var d :| 0 <= d < |s.phase| && Critical(s.phase[d]);
      assert Critical(Move(s, c, s.k, s.lock, p).phase[d]);
    }
  }

  /** A store of user code, whatever another CPU is doing inside the kernel. */
  lemma StoreMove(s: S, c: nat, words: seq<T.Store>)
    requires SysInv(s) && c < |s.phase| && s.phase[c].User? && 0 <= s.k.cpu[c]
    ensures SysInv(Move(s, c, Stored(s.k, s.k.cpu[c], words), s.lock, User))
  {
    hide KInv;
    var e := s.k.cpu[c];
    var s' := Move(s, c, Stored(s.k, e, words), s.lock, User);
    assert s'.phase == s.phase;
    if s.lock.locked {
      var h :| 0 <= h < |s.phase| && Critical(s.phase[h]);
      assert HolderOk(s.k, h, s.phase[h]);
      StoresHolder(s.k, h, s.phase[h], e, words);
    } else {
      StoresInv(s.k, -1, e, words);
    }
    forall d | 0 <= d < |s.phase|
      ensures PhaseOk(s'.k, d, s'.phase[d])
    {
      assert PhaseOk(s.k, d, s.phase[d]);
    }
  }

  lemma StoresHolder(k: K, h: nat, p: Phase, e: nat, words: seq<T.Store>)
    requires HolderOk(k, h, p)
    ensures HolderOk(Stored(k, e, words), h, p)
  {
    hide KInv;
    if KInv(k, h) {
      StoresInv(k, h, e, words);
    }
    if KInv(k, -1) {
      StoresInv(k, -1, e, words);
    }
  }

  lemma AcquireMove(s: S, c: nat, boot: bool)
    requires SysInv(s) && c < |s.phase| && s.phase[c] == Spin(boot) && !s.lock.locked
    ensures SysInv(Move(s, c, s.k, s.lock.(locked := true), Taken(boot)))
  {
    hide KInv, Entered;
    assert Critical(Move(s, c, s.k, s.lock.(locked := true), Taken(boot)).phase[c]);
  }

  lemma ReleaseMove(s: S, c: nat)
    requires SysInv(s) && c < |s.phase| && s.phase[c] == Unlock2
    ensures SysInv(Move(s, c, s.k, s.lock.(locked := false), Pop))
  {
    hide KInv, Entered;
    assert HolderOk(s.k, c, s.phase[c]);
  }

  /** Steps outside the critical section, and the two that cross its boundary. */
  lemma OuterStep(s: S, s': S, c: nat, tf: Tf, call: Call)
    requires SysInv(s) && Next(s, s', c, tf, call)
    requires !Critical(s.phase[c]) || s.phase[c].Unlock2?
    ensures SysInv(s')
  {
    hide KInv, Entered, HolderOk;
    assert PhaseOk(s.k, c, s.phase[c]);
    match s.phase[c]
    case User =>
      if call.Stores? && s.k.cpu[c] >= 0 {
        StoreMove(s, c, call.words);
      } else {
        OutsideMove(s, c, Trapped(false));
      }
    case Trapped(boot) => OutsideMove(s, c, Spin(boot));
    case Spin(boot) =>
      if !s.lock.locked {
        AcquireMove(s, c, boot);
      }
    case Pop => OutsideMove(s, c, User);
    case Unlock2 => ReleaseMove(s, c);
  }

  lemma InnerStep(s: S, s': S, c: nat, tf: Tf, call: Call)
    requires SysInv(s) && Next(s, s', c, tf, call)
    requires Critical(s.phase[c]) && !s.phase[c].Unlock2? && !s.phase[c].Halted?
    ensures SysInv(s')
  {
    hide KInv, SchedYield, Dispatch, EnvRun, Freed;
    var k := s.k;
    assert HolderOk(k, c, s.phase[c]) && PhaseOk(k, c, s.phase[c]);
    match s.phase[c]
    case Taken(boot) =>
      if boot {
        EnterKernel(k, c);
        MoveOk(s, c, k, s.lock.(cpu := c), Yielding);
      } else {
        MoveOk(s, c, k, s.lock.(cpu := c), Entering);
      }
    case Entering =>
      if k.envs[k.cpu[c]].status == DYING {
        CollectZombie(k, c);
        FreedOtherCpus(k, c, k.cpu[c]);
        MoveOk(s, c, Freed(k, c, k.cpu[c]), s.lock, Yielding);
      } else {
        SaveFrame(k, c, tf);
        MoveOk(s, c, SetEnv(k, k.cpu[c], k.envs[k.cpu[c]].(tf := tf)), s.lock, Body);
      }
    case Body =>
      DispatchOk(k, c, call);
      DispatchOtherCpus(k, c, call);
      match Dispatch(k, c, call) {
        case Return(k', r) =>
          SetResultOk(k', c, r);
          MoveOk(s, c, SetResult(k', c, r), s.lock, Leave);
        case Switch(k') => MoveOk(s, c, k', s.lock, Yielding);
        case Panic(k') => MoveOk(s, c, k', s.lock, Halted);
      }
    case Leave =>
      RerunOk(k, c);
      MoveOk(s, c, EnvRun(k, c, k.cpu[c]), s.lock, Unlock1);
    case Yielding =>
      YieldOk(k, c);
      YieldOtherCpus(k, c);
      match SchedYield(k, c) {
        case Ran(k') => MoveOk(s, c, k', s.lock, Unlock1);
        case Monitor(k') => MoveOk(s, c, k', s.lock, Halted);
        case NoIdle(k') =>
      }
    case Unlock1 =>
      MoveOk(s, c, k, s.lock.(cpu := -1), Unlock2);
  }

  lemma FreedOtherCpus(k: K, c: nat, e: nat)
    requires e < |k.envs| && c < |k.cpu|
    ensures OtherCpusSame(k, Freed(k, c, e), c)
  {
  }

  lemma StepOk(s: S, s': S, c: nat, tf: Tf, call: Call)
    requires SysInv(s) && Next(s, s', c, tf, call)
    ensures SysInv(s')
  {
    hide KInv, Entered, Critical, SysInv;
    if !Critical(s.phase[c]) || s.phase[c].Unlock2? {
      OuterStep(s, s', c, tf, call);
    } else if s.phase[c].Halted? {
      HaltedStep(s, s', c, tf, call);
    } else {
      InnerStep(s, s', c, tf, call);
    }
  }

  lemma HaltedStep(s: S, s': S, c: nat, tf: Tf, call: Call)
    requires Next(s, s', c, tf, call) && s.phase[c].Halted?
    ensures s' == s
  {
  }

  // ----- whole runs -----

  datatype Label = Label(c: nat, tf: Tf, call: Call)

  /** The boot CPU has created the environments and calls sched_yield; the others wait in mp_main. */
  ghost predicate Init(s: S) {
    && |s.phase| == |s.k.cpu|
    && (forall c :: 0 <= c < |s.phase| ==> s.k.cpu[c] == -1)
    && 0 <= s.lock.cpu < |s.phase| && s.lock.locked
    && (forall c :: 0 <= c < |s.phase| ==> s.phase[c] == if c == s.lock.cpu then Yielding else Trapped(true))
    && KInv(s.k, s.lock.cpu)
  }

  ghost predicate IsRun(ss: seq<S>, ls: seq<Label>) {
    && |ss| == |ls| + 1 && Init(ss[0])
    && forall i :: 0 <= i < |ls| ==> Next(ss[i], ss[i + 1], ls[i].c, ls[i].tf, ls[i].call)
  }

  lemma InitOk(s: S)
    requires Init(s)
    ensures SysInv(s)
  {
    hide KInv;
    assert Critical(s.phase[s.lock.cpu]);
  }

  lemma {:induction false} RunOk(ss: seq<S>, ls: seq<Label>, i: nat)
    requires IsRun(ss, ls) && i < |ss|
    ensures SysInv(ss[i])
  {
    hide Next, Init, SysInv;
    if i == 0 {
      InitOk(ss[0]);
    } else {
      RunOk(ss, ls, i - 1);
      StepOk(ss[i - 1], ss[i], ls[i - 1].c, ls[i - 1].tf, ls[i - 1].call);
    }
  }

  /**
    In every reachable state where the lock is free: cpu_env is injective; an environment is
    RUNNING or DYING exactly when it is current on exactly one CPU; no current environment is
    on the free list; a live receiver is NOT_RUNNABLE; and the page ledger is exact.
  */
  lemma LockFreeConsistent(ss: seq<S>, ls: seq<Label>, i: nat)
    requires IsRun(ss, ls) && i < |ss| && !ss[i].lock.locked
    ensures var k := ss[i].k;
            && (forall c, d :: 0 <= c < |k.cpu| && 0 <= d < |k.cpu| && k.cpu[c] == k.cpu[d] != -1 ==> c == d)
            && (forall e :: 0 <= e < |k.envs| ==>
                  (k.envs[e].status == RUNNING || k.envs[e].status == DYING <==> OnCpu(k, e)))
            && (forall c :: 0 <= c < |k.cpu| && k.cpu[c] != -1 ==> k.cpu[c] !in k.free)
            && (forall e :: 0 <= e < |k.envs| && k.envs[e].status != FREE && k.envs[e].recving ==>
                  k.envs[e].status == NOT_RUNNABLE)
            && Inv(k.pm, {})
  {
    hide Next, Init, Inv, LockOk, HolderOk, PhaseOk, IsRun;
    RunOk(ss, ls, i);
    LockFreeFacts(ss[i].k);
  }

  /** In every reachable state, lock free or held: a live environment that is receiving is NOT_RUNNABLE. */
  lemma ReceiverBlocked(ss: seq<S>, ls: seq<Label>, i: nat, e: nat)
    requires IsRun(ss, ls) && i < |ss| && e < |ss[i].k.envs| && ss[i].k.envs[e].status != FREE
    requires ss[i].k.envs[e].recving
    ensures ss[i].k.envs[e].status == NOT_RUNNABLE
  {
    hide Next, Init, Inv, IsRun, ListOk, IdsOk, IdleOk, CpuOk;
    RunOk(ss, ls, i);
    var s := ss[i];
    if s.lock.locked {
      var h :| 0 <= h < |s.phase| && Critical(s.phase[h]);
      assert HolderOk(s.k, h, s.phase[h]);
    }
  }

  lemma LockFreeFacts(k: K)
    requires KInv(k, -1)
    ensures forall e :: 0 <= e < |k.envs| ==>
              (k.envs[e].status == RUNNING || k.envs[e].status == DYING <==> OnCpu(k, e))
    ensures forall c :: 0 <= c < |k.cpu| && k.cpu[c] != -1 ==> k.cpu[c] !in k.free
  {
    hide Inv;
  }

  /** At most one CPU is past xchg, holding() answers exactly whether this CPU recorded itself, and
      neither of the lock's panics can happen. */
  lemma LockDiscipline(ss: seq<S>, ls: seq<Label>, i: nat)
    requires IsRun(ss, ls) && i < |ss|
    ensures var s := ss[i];
            && AtMostOne(s)
            && (forall c: nat :: c < |s.phase| ==> (Holding(s, c) <==> Recorded(s.phase[c])))
            && (forall c: nat :: c < |s.phase| && s.phase[c].Trapped? ==> !Holding(s, c))
            && (forall c: nat :: c < |s.phase| && s.phase[c].Unlock1? ==> Holding(s, c))
            && (forall c: nat :: c < |s.phase| && s.phase[c].Yielding? ==>
                  0 < |s.k.envs| && c < |s.k.cpu| && s.k.cpu[c] < |s.k.envs| && !SchedYield(s.k, c).NoIdle?)
  {
    hide Next, Init, Inv, KInv, Entered, PhaseOk, IsRun, SchedYield;
    RunOk(ss, ls, i);
    var s := ss[i];
    forall c: nat | c < |s.phase| && s.phase[c].Yielding?
      ensures 0 < |s.k.envs| && c < |s.k.cpu| && s.k.cpu[c] < |s.k.envs| && !SchedYield(s.k, c).NoIdle?
    {
      assert HolderOk(s.k, c, s.phase[c]);
      YieldOk(s.k, c);
    }
  }

  // ----- what another CPU relies on after it has dropped the lock -----

  /** Environment e keeps its saved frame, its identity and its page directory. */
  ghost predicate Spared(k: K, k': K, e: nat) {
    && e < |k.envs| == |k'.envs|
    && k'.envs[e].tf == k.envs[e].tf && k'.envs[e].id == k.envs[e].id
    && e in k.pm.dirs && e in k'.pm.dirs && k'.pm.dirs[e] == k.pm.dirs[e]
  }

  /** e is current on a CPU other than c. */
  ghost predicate Elsewhere(k: K, c: nat, e: nat) {
    exists d :: 0 <= d < |k.cpu| && d != c && k.cpu[d] == e
  }

  lemma ElsewhereFacts(k: K, c: nat, e: nat)
    requires KInv(k, c) && c < |k.cpu| && Elsewhere(k, c, e)
    ensures e < |k.envs| && (k.envs[e].status == RUNNING || k.envs[e].status == DYING) && !k.envs[e].recving
    ensures e in k.pm.dirs && e != k.cpu[c] && e !in k.free
  {
    hide Inv;
  }

  lemma FreedSpares(k: K, c: nat, i: nat, e: nat)
    requires MemOk(k) && i < |k.envs| && e < |k.envs| && c < |k.cpu|
    requires k.envs[i].status != FREE && e in k.pm.dirs && e != i
    ensures Spared(k, EnvFree(k, i), e) && Spared(k, Freed(k, c, i), e)
  {
    hide Inv, FreeSpace, OthersSame;
    FreeSpaceExact(k.pm, {}, i);
  }

  lemma DestroySpares(k: K, c: nat, i: nat, e: nat)
    requires Entered(k, c) && i < |k.envs| && k.envs[i].status != FREE
    requires k.envs[i].status != DYING && Elsewhere(k, c, e)
    ensures Spared(k, EnvDestroy(k, c, i).k, e)
  {
    hide Inv, FreeSpace, ListOk, IdsOk, IdleOk;
    ElsewhereFacts(k, c, e);
    if k.envs[i].status != RUNNING || k.cpu[c] == i {
      FreedSpares(k, c, i, e);
    }
  }

  lemma ExoforkSpares(k: K, c: nat, e: nat)
    requires Entered(k, c) && Ready(k, c) && Elsewhere(k, c, e)
    ensures Spared(k, SysExofork(k, c).k, e)
  {
    hide Inv, IpcOk, IdleOk, IdsOk, ListOk, CpuOk;
    ElsewhereFacts(k, c, e);
    if k.free != [] {
      FreeSlot(k);
      SetupVmInv(k.pm, k.free[0], k.kdir);
      if SetupVm(k.pm, k.free[0], k.kdir).1 {
        ExoforkForm(k, c);
      }
    }
  }

  lemma EnteredInv(k: K, c: nat)
    requires Entered(k, c)
    ensures Inv(k.pm, {})
  {
    hide Inv;
  }

  lemma AllocSpares(k: K, c: nat, envid: int, va: nat, perm: Perm, e: nat)
    requires Entered(k, c) && Ready(k, c) && Elsewhere(k, c, e)
    ensures Spared(k, SysPageAlloc(k, c, envid, va, perm).k, e)
  {
    hide Inv, KInv, PageAllocAt, EnvId2Env;
    ElsewhereFacts(k, c, e);
    EnteredInv(k, c);
    var t := EnvId2Env(k, c, envid, true);
    if t.Found? && va < UTOP {
      IdFound(k, c, envid, true);
      AllocAtDirs(k.pm, t.slot, va, perm);
    }
  }

  lemma MapSpares(k: K, c: nat, srcid: int, srcva: nat, dstid: int, dstva: nat, perm: Perm, e: nat)
    requires Entered(k, c) && Ready(k, c) && Elsewhere(k, c, e)
    requires EnvId2Env(k, c, srcid, true).Found? ==> RoomFor(k.pm, EnvId2Env(k, c, srcid, true).slot, srcva)
    ensures Spared(k, SysPageMap(k, c, srcid, srcva, dstid, dstva, perm).k, e)
  {
    hide Inv, KInv, PageMapAt, EnvId2Env, RoomFor;
    ElsewhereFacts(k, c, e);
    EnteredInv(k, c);
    var src := EnvId2Env(k, c, srcid, true);
    var dst := EnvId2Env(k, c, dstid, false);
    if src.Found? && dst.Found? {
      IdFound(k, c, srcid, true);
      IdFound(k, c, dstid, false);
      MapAtDirs(k.pm, src.slot, srcva, dst.slot, dstva, perm);
    }
  }

  lemma UnmapSpares(k: K, c: nat, envid: int, va: nat, e: nat)
    requires Entered(k, c) && Ready(k, c) && Elsewhere(k, c, e)
    ensures Spared(k, SysPageUnmap(k, c, envid, va).k, e)
  {
    hide Inv, KInv, PageRemove, EnvId2Env;
    ElsewhereFacts(k, c, e);
    EnteredInv(k, c);
    var t := EnvId2Env(k, c, envid, true);
    if t.Found? && UserPage(va) {
      RemoveDirs(k.pm, t.slot, va);
    }
  }

  lemma TrySendSpares(k: K, c: nat, envid: int, msg: int, va: nat, perm: Perm, e: nat)
    requires Entered(k, c) && Ready(k, c) && Elsewhere(k, c, e)
    requires va != IPC_NO_PAGE ==> RoomFor(k.pm, k.cpu[c], va)
    ensures Spared(k, SysIpcTrySend(k, c, envid, msg, va, perm).k, e)
  {
    hide Inv, KInv, PageMapAt, RoomFor, EnvId2Env, SendablePage, Pte;
    ElsewhereFacts(k, c, e);
    EnteredInv(k, c);
    var t := EnvId2Env(k, c, envid, false);
    if t.Found? && va != IPC_NO_PAGE {
      IdFound(k, c, envid, false);
      CurrentInDirs(k, c);
      MapAtDirs(k.pm, k.cpu[c], va, t.slot, k.envs[t.slot].dstva, perm);
    }
  }

  lemma StoresSpare(k: K, h: int, i: nat, words: seq<T.Store>, e: nat)
    requires KInv(k, h) && e < |k.envs| && e in k.pm.dirs
    ensures Spared(k, Stored(k, i, words), e)
  {
    hide KInv;
    StoresInv(k, h, i, words);
  }

  /** No system call touches the frame, identity or directory of an environment current elsewhere. */
  lemma DispatchSpares(k: K, c: nat, call: Call, e: nat)
    requires Entered(k, c) && Ready(k, c) && Allowed(k, c, call) && Elsewhere(k, c, e)
    ensures Spared(k, Dispatch(k, c, call).k, e)
  {
    hide Inv, EnvDestroy, SysExofork, SysPageAlloc, SysPageMap, SysPageUnmap, SysIpcTrySend, IdsOk, IpcOk, IdleOk,
      CpuOk, ListOk, EnvId2Env, MemOk;
    ElsewhereFacts(k, c, e);
    match call
    case Yield =>
    case Destroy(envid) =>
      var t := EnvId2Env(k, c, envid, true);
      if t.Found? {
        IdFound(k, c, envid, true);
        DestroySpares(k, c, t.slot, e);
      }
    case Exofork => ExoforkSpares(k, c, e);
    case SetStatus(envid, status) =>
      if EnvId2Env(k, c, envid, true).Found? {
        IdFound(k, c, envid, true);
      }
    case SetUpcall(envid, func) =>
      if EnvId2Env(k, c, envid, true).Found? {
        IdFound(k, c, envid, true);
      }
    case AllocPage(envid, va, perm) => AllocSpares(k, c, envid, va, perm, e);
    case MapPage(srcid, srcva, dstid, dstva, perm) => MapSpares(k, c, srcid, srcva, dstid, dstva, perm, e);
    case UnmapPage(envid, va) => UnmapSpares(k, c, envid, va, e);
    case TrySend(envid, msg, va, perm) => TrySendSpares(k, c, envid, msg, va, perm, e);
    case Recv(_) =>
    case Crash => DestroySpares(k, c, k.cpu[c], e);
    case Stores(words) => StoresSpare(k, c, k.cpu[c], words, e);
    case Quiet(_) =>
  }

  /** Scheduling changes only statuses, run counts and this CPU's current environment. */
  ghost predicate SameFrames(k: K, k': K) {
    && k'.pm == k.pm && |k'.envs| == |k.envs|
    && forall e :: 0 <= e < |k.envs| ==> k'.envs[e].tf == k.envs[e].tf && k'.envs[e].id == k.envs[e].id
  }

  lemma EnvRunFrames(k: K, c: nat, e: nat)
    requires c < |k.cpu| && e < |k.envs| && k.cpu[c] < |k.envs|
    ensures SameFrames(k, EnvRun(k, c, e))
  {
  }

  lemma UnrunFrames(k: K, c: nat)
    requires c < |k.cpu| && k.cpu[c] < |k.envs|
    ensures SameFrames(k, Unrun(k, c)) && Unrun(k, c).cpu == k.cpu
  {
  }

  lemma YieldFrames(k: K, c: nat)
    requires 0 < |k.envs| && c < |k.cpu| && k.cpu[c] < |k.envs|
    ensures SameFrames(k, SchedYield(k, c).k)
  {
    hide Scan, EnvRun, Unrun;
    var k1 := Unrun(k, c);
    UnrunFrames(k, c);
    var i := Scan(k1.envs, ScanStart(k, c), |k.envs|);
    if i >= 0 {
      EnvRunFrames(k1, c, i);
    } else if c < |k.envs| {
      EnvRunFrames(k1, c, c);
    }
  }

  lemma YieldSpares(k: K, c: nat, e: nat)
    requires KInv(k, c) && c < |k.cpu| && Elsewhere(k, c, e) && 0 < |k.envs| && k.cpu[c] < |k.envs|
    ensures Spared(k, SchedYield(k, c).k, e)
  {
    hide SchedYield, KInv;
    ElsewhereFacts(k, c, e);
    YieldFrames(k, c);
  }

  /** The same for a step inside the critical section. */
  lemma CriticalSpares(s: S, s': S, d: nat, tf: Tf, call: Call, e: nat)
    requires SysInv(s) && Next(s, s', d, tf, call) && s'.k != s.k && Elsewhere(s.k, d, e)
    ensures Spared(s.k, s'.k, e)
  {
    hide SchedYield, Dispatch, EnvRun, Freed, KInv, Spared;
    var k := s.k;
    assert PhaseOk(k, d, s.phase[d]) && (Critical(s.phase[d]) ==> HolderOk(k, d, s.phase[d]));
    match s.phase[d]
    case User => OutsideSpares(s, d, call.words, e);
    case Entering => EnteringSpares(k, d, tf, e);
    case Body =>
      DispatchSpares(k, d, call, e);
      DispatchOk(k, d, call);
      match Dispatch(k, d, call) {
        case Return(k', r) => ResultSpares(k, k', d, r, e);
        case Switch(_) =>
        case Panic(_) =>
      }
    case Leave =>
      LeaveSpares(k, d, e);
    case Yielding =>
      YieldOk(k, d);
      YieldSpares(k, d, e);
  }

  /** What user code on CPU d stores spares every environment current elsewhere. */
  lemma OutsideSpares(s: S, d: nat, words: seq<T.Store>, e: nat)
    requires SysInv(s) && d < |s.phase| && s.phase[d].User? && 0 <= s.k.cpu[d] && Elsewhere(s.k, d, e)
    ensures Spared(s.k, Stored(s.k, s.k.cpu[d], words), e)
  {
    hide KInv, Spared;
    var h: int := -1;
    if s.lock.locked {
      h :| 0 <= h < |s.phase| && Critical(s.phase[h]);
      assert HolderOk(s.k, h, s.phase[h]);
      if !KInv(s.k, h) {
        h := -1;
      }
    }
    CurrentInTable(s.k, h, d, e);
    StoresSpare(s.k, h, s.k.cpu[d], words, e);
  }

  lemma CurrentInTable(k: K, h: int, d: nat, e: nat)
    requires KInv(k, h) && Elsewhere(k, d, e)
    ensures e < |k.envs| && e in k.pm.dirs
  {
    hide Inv;
  }

  lemma EnteringSpares(k: K, d: nat, tf: Tf, e: nat)
    requires KInv(k, -1) && d < |k.cpu| && k.cpu[d] != -1 && Elsewhere(k, d, e)
    ensures k.cpu[d] < |k.envs| && Spared(k, Freed(k, d, k.cpu[d]), e)
    ensures Spared(k, SetEnv(k, k.cpu[d], k.envs[k.cpu[d]].(tf := tf)), e)
  {
    hide Inv, FreeSpace, Freed, EnvFree;
    assert e != k.cpu[d] && k.envs[e].status != FREE;
    FreedSpares(k, d, k.cpu[d], e);
  }

  lemma ResultSpares(k: K, k': K, d: nat, r: int, e: nat)
    requires Entered(k, d) && Entered(k', d) && k'.cpu == k.cpu && Elsewhere(k, d, e) && Spared(k, k', e)
    ensures Spared(k, SetResult(k', d, r), e)
  {
    hide Inv;
    ElsewhereFacts(k, d, e);
  }

  lemma LeaveSpares(k: K, d: nat, e: nat)
    requires Entered(k, d) && Elsewhere(k, d, e)
    ensures Spared(k, EnvRun(k, d, k.cpu[d]), e)
  {
    ElsewhereFacts(k, d, e);
    EnvRunFrames(k, d, k.cpu[d]);
    hide KInv, EnvRun;
  }

  /**
    Whatever another CPU d does, CPU c's current environment keeps the trapframe that c will
    pop and the page directory that c will load or is running on, even though c no longer
    holds the lock.
  */
  lemma FrameStable(ss: seq<S>, ls: seq<Label>, i: nat, c: nat)
    requires IsRun(ss, ls) && i < |ls| && c < |ss[i].phase| && c != ls[i].c
    requires c < |ss[i].k.cpu| && ss[i].k.cpu[c] >= 0
    ensures ss[i + 1].phase[c] == ss[i].phase[c]
    ensures ss[i + 1].k == ss[i].k || Spared(ss[i].k, ss[i + 1].k, ss[i].k.cpu[c])
    ensures c < |ss[i + 1].k.cpu| && ss[i + 1].k.cpu[c] == ss[i].k.cpu[c]
  {
    hide SchedYield, Dispatch, EnvRun, Freed, KInv, Spared, Init, Entered, HolderOk;
    RunOk(ss, ls, i);
    var s, s', l := ss[i], ss[i + 1], ls[i];
    assert Next(s, s', l.c, l.tf, l.call);
    OtherCpuKept(s, s', l.c, l.tf, l.call, c);
    if s'.k != s.k {
      assert Elsewhere(s.k, l.c, s.k.cpu[c]);
      CriticalSpares(s, s', l.c, l.tf, l.call, s.k.cpu[c]);
    }
  }

  lemma OtherCpuKept(s: S, s': S, d: nat, tf: Tf, call: Call, c: nat)
    requires Next(s, s', d, tf, call) && c < |s.phase| && c != d
    ensures s'.phase[c] == s.phase[c] && c < |s'.k.cpu| && s'.k.cpu[c] == s.k.cpu[c]
  {
    hide SchedYield, Dispatch, Freed;
    match s.phase[d]
    case Entering => FreedOtherCpus(s.k, d, s.k.cpu[d]);
    case Body => DispatchOtherCpus(s.k, d, call);
    case Yielding => YieldOtherCpus(s.k, d);
    case _ =>
  }
}
