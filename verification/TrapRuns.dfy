/**
  What user code finds when its system call returns, over whole runs (kern/trap.c, kern/env.c): the registers it trapped
  with, and the call's result in eax; and when a CPU stops scheduling.
*/
module TrapRuns {
  import Mmu
  import opened Kernel
  import opened KernelInv
  import opened UpperHalf
  import opened Smp
  import E = Effects

  /** No call that returns touches its caller's saved frame, or takes the caller off its CPU. */
  lemma CallerFrame(k: K, c: nat, call: Call)
    requires Entered(k, c) && Ready(k, c) && Allowed(k, c, call) && Dispatch(k, c, call).Return?
    ensures var k' := Dispatch(k, c, call).k; var e := k.cpu[c];
            e < |k'.envs| && k'.cpu == k.cpu && k'.envs[e].tf == k.envs[e].tf
  {
    hide KInv, Allowed, Dispatch;
    DispatchOk(k, c, call);
    match call
    case Destroy(envid) => OwnDestroy(k, c, envid);
    case Exofork => OwnExofork(k, c);
    case SetStatus(envid, status) => E.SetStatusEffect(k, c, envid, status);
    case SetUpcall(envid, func) => E.SetUpcallEffect(k, c, envid, func);
    case AllocPage(envid, va, perm) => E.AllocEffect(k, c, envid, va, perm);
    case MapPage(srcid, srcva, dstid, dstva, perm) => E.MapEffect(k, c, srcid, srcva, dstid, dstva, perm);
    case UnmapPage(envid, va) => E.UnmapEffect(k, c, envid, va);
    case TrySend(envid, msg, va, perm) => OwnSend(k, c, envid, msg, va, perm);
    case Recv(va) => E.RecvEffect(k, c, va);
    case Crash => OwnDestroy(k, c, 0);
    case Yield => E.OtherEffects(k, c, call);
    case Stores(_) => E.OtherEffects(k, c, call);
    case Quiet(_) => E.OtherEffects(k, c, call);
  }

  lemma OwnDestroy(k: K, c: nat, envid: int)
    requires Entered(k, c) && Ready(k, c)
    ensures var o := Dispatch(k, c, Destroy(envid)); var e := k.cpu[c];
            o.Return? ==> e < |o.k.envs| && o.k.envs[e].tf == k.envs[e].tf
    ensures !Dispatch(k, c, Crash).Return?
  {
    hide KInv, Dispatch, EnvDestroy;
    E.DestroyCalls(k, c, envid);
    E.DestroyEffect(k, c, k.cpu[c]);
    var t := E.Named(k, c, envid, true);
    if t >= 0 {
      IdFound(k, c, envid, true);
      E.DestroyEffect(k, c, t);
    }
  }

  lemma OwnExofork(k: K, c: nat)
    requires Entered(k, c) && Ready(k, c)
    ensures var o := Dispatch(k, c, Exofork); var e := k.cpu[c];
            o.Return? ==> e < |o.k.envs| && o.k.envs[e].tf == k.envs[e].tf
  {
    hide MemOk, IdsOk, IpcOk, IdleOk, Dispatch;
    E.ExoforkEffect(k, c);
    if k.free != [] {
      FreeSlot(k);
    }
  }

  lemma OwnSend(k: K, c: nat, envid: int, msg: int, va: nat, perm: Mmu.Perm)
    requires Entered(k, c) && Ready(k, c) && Allowed(k, c, TrySend(envid, msg, va, perm))
    ensures var o := Dispatch(k, c, TrySend(envid, msg, va, perm)); var e := k.cpu[c];
            o.Return? ==> e < |o.k.envs| && o.k.envs[e].tf == k.envs[e].tf
  {
    hide MemOk, IdsOk, ListOk, IdleOk, Dispatch, Allowed;
    E.SendEffect(k, c, envid, msg, va, perm);
  }

  // ----- from the trap to the pop -----

  /** CPU c is on its way back to user mode with environment e, whose saved frame is f. */
  ghost predicate Carries(s: S, c: nat, e: int, f: Tf) {
    c < |s.phase| && c < |s.k.cpu| && s.k.cpu[c] == e && 0 <= e < |s.k.envs| && s.k.envs[e].tf == f
  }

  /** Before the frame is popped again. */
  predicate Returning(p: Phase) {
    p.Leave? || p.Unlock1? || p.Unlock2? || p.Pop?
  }

  /** A step of another CPU leaves the frame and the phase. */
  lemma OthersCarry(ss: seq<S>, ls: seq<Label>, i: nat, c: nat, e: int, f: Tf)
    requires IsRun(ss, ls) && i < |ls| && ls[i].c != c && Carries(ss[i], c, e, f)
    ensures Carries(ss[i + 1], c, e, f) && ss[i + 1].phase[c] == ss[i].phase[c]
  {
    hide IsRun, SysInv;
    FrameStable(ss, ls, i, c);
    SamePhases(ss, ls, i);
  }

  lemma SamePhases(ss: seq<S>, ls: seq<Label>, i: nat)
    requires IsRun(ss, ls) && i < |ls|
    ensures |ss[i + 1].phase| == |ss[i].phase|
  {
    hide Init, SchedYield, Dispatch, EnvRun, Freed, Stored;
    assert Next(ss[i], ss[i + 1], ls[i].c, ls[i].tf, ls[i].call);
  }

  /** So does env_run, and the unlock. */
  lemma OwnCarry(ss: seq<S>, ls: seq<Label>, i: nat, c: nat, e: int, f: Tf)
    requires IsRun(ss, ls) && i < |ls| && ls[i].c == c && Carries(ss[i], c, e, f)
    requires Returning(ss[i].phase[c]) && !ss[i].phase[c].Pop?
    ensures Carries(ss[i + 1], c, e, f) && Returning(ss[i + 1].phase[c])
  {
    hide Init, EnvRun, SysInv;
    RunOk(ss, ls, i);
    LockDiscipline(ss, ls, i);
    assert Next(ss[i], ss[i + 1], c, ls[i].tf, ls[i].call);
    if ss[i].phase[c].Leave? {
      E.EnvRunEffect(ss[i].k, c, e);
    }
  }

  /** As long as CPU c has not popped the frame, it carries it. */
  lemma {:induction false} CarriesOn(ss: seq<S>, ls: seq<Label>, i: nat, j: nat, c: nat, e: int, f: Tf)
    requires IsRun(ss, ls) && i <= j < |ss| && Carries(ss[i], c, e, f) && Returning(ss[i].phase[c])
    requires forall x :: i <= x < j && ls[x].c == c ==> c < |ss[x].phase| && !ss[x].phase[c].Pop?
    ensures Carries(ss[j], c, e, f) && Returning(ss[j].phase[c])
  {
    hide Next, Init, Carries;
    if i < j {
      CarriesOn(ss, ls, i, j - 1, c, e, f);
      CarriesPhase(ss[j - 1], c, e, f);
      if ls[j - 1].c == c {
        OwnCarry(ss, ls, j - 1, c, e, f);
      } else {
        OthersCarry(ss, ls, j - 1, c, e, f);
      }
      CarriesPhase(ss[j], c, e, f);
    }
  }

  lemma CarriesPhase(s: S, c: nat, e: int, f: Tf)
    requires Carries(s, c, e, f)
    ensures c < |s.phase|
  {
  }

  /** Between the saving of the frame and the dispatch, CPU c carries the saved frame. */
  lemma {:induction false} SavedCarries(ss: seq<S>, ls: seq<Label>, a: nat, b: nat, c: nat, e: int, f: Tf)
    requires IsRun(ss, ls) && a <= b < |ss| && Carries(ss[a], c, e, f)
    requires forall x :: a <= x < b ==> ls[x].c != c
    ensures Carries(ss[b], c, e, f) && ss[b].phase[c] == ss[a].phase[c]
  {
    hide Next, Init;
    if a < b {
      SavedCarries(ss, ls, a, b - 1, c, e, f);
      OthersCarry(ss, ls, b - 1, c, e, f);
    }
  }

  /** CPU c takes a trap at step a with frame tf, and step b is its next one, the dispatch. */
  ghost predicate Traps(ss: seq<S>, ls: seq<Label>, a: nat, b: nat, c: nat) {
    && a < b < |ls| && |ss| == |ls| + 1 && ls[a].c == c && ls[b].c == c && (forall x :: a < x < b ==> ls[x].c != c)
    && c < |ss[a].phase| && ss[a].phase[c].Entering? && c < |ss[b].phase| && ss[b].phase[c].Body?
  }

  /** The frame that is dispatched on is the one the trap came with. */
  lemma FrameSaved(ss: seq<S>, ls: seq<Label>, a: nat, b: nat, c: nat)
    requires IsRun(ss, ls) && Traps(ss, ls, a, b, c)
    ensures c < |ss[a].k.cpu| && Carries(ss[b], c, ss[a].k.cpu[c], ls[a].tf)
  {
    hide Init, SysInv, Freed, KInv;
    RunOk(ss, ls, a);
    assert Next(ss[a], ss[a + 1], c, ls[a].tf, ls[a].call);
    var e := ss[a].k.cpu[c];
    if ss[a].k.envs[e].status == DYING {
      StaysYielding(ss, ls, a + 1, b, c);
      assert false;
    }
    SavedCarries(ss, ls, a + 1, b, c, e, ls[a].tf);
  }

  lemma {:induction false} StaysYielding(ss: seq<S>, ls: seq<Label>, i: nat, b: nat, c: nat)
    requires IsRun(ss, ls) && i <= b < |ss| && c < |ss[i].phase| && (forall x :: i <= x < b ==> ls[x].c != c)
    ensures c < |ss[b].phase| && ss[b].phase[c] == ss[i].phase[c]
  {
    hide Init, SchedYield, Dispatch, EnvRun, Freed, Stored;
    if i < b {
      StaysYielding(ss, ls, i, b - 1, c);
      assert Next(ss[b - 1], ss[b], ls[b - 1].c, ls[b - 1].tf, ls[b - 1].call);
    }
  }

  /**
    In every run: a call that returns r resumes its caller, on the same CPU, with the frame it trapped with but r in
    eax, whatever the other CPUs do in the meantime.
  */
  lemma CallReturns(ss: seq<S>, ls: seq<Label>, a: nat, b: nat, j: nat, c: nat)
    requires IsRun(ss, ls) && Traps(ss, ls, a, b, c) && b < j < |ss| && Ready(ss[b].k, c)
    requires Dispatch(ss[b].k, c, ls[b].call).Return?
    requires forall x :: b < x < j && ls[x].c == c ==> c < |ss[x].phase| && !ss[x].phase[c].Pop?
    ensures c < |ss[a].k.cpu| && c < |ss[j].phase| && Returning(ss[j].phase[c])
    ensures Carries(ss[j], c, ss[a].k.cpu[c], Tf(Dispatch(ss[b].k, c, ls[b].call).r, ls[a].tf.rest))
  {
    hide Next, Init, Dispatch;
    FrameSaved(ss, ls, a, b, c);
    BodyReturns(ss, ls, b, c, ss[a].k.cpu[c], ls[a].tf);
    CarriesOn(ss, ls, b + 1, j, c, ss[a].k.cpu[c], Tf(Dispatch(ss[b].k, c, ls[b].call).r, ls[a].tf.rest));
  }

  lemma BodyReturns(ss: seq<S>, ls: seq<Label>, b: nat, c: nat, e: int, f: Tf)
    requires IsRun(ss, ls) && b < |ls| && ls[b].c == c && c < |ss[b].phase| && ss[b].phase[c].Body?
    requires Ready(ss[b].k, c) && Carries(ss[b], c, e, f) && Dispatch(ss[b].k, c, ls[b].call).Return?
    ensures Carries(ss[b + 1], c, e, Tf(Dispatch(ss[b].k, c, ls[b].call).r, f.rest)) && Returning(ss[b + 1].phase[c])
  {
    hide Init, KInv, Dispatch, Allowed, LockOk, PhaseOk;
    RunOk(ss, ls, b);
    assert Next(ss[b], ss[b + 1], c, ls[b].tf, ls[b].call);
    assert HolderOk(ss[b].k, c, ss[b].phase[c]);
    CallerFrame(ss[b].k, c, ls[b].call);
  }

  // ----- when scheduling stops -----

  /** A CPU goes from sched_yield to a halt exactly if nothing but idle environments can run; otherwise it goes on to
      run an environment. */
  lemma HaltsWhenFinished(ss: seq<S>, ls: seq<Label>, i: nat, c: nat)
    requires IsRun(ss, ls) && i < |ls| && ls[i].c == c && c < |ss[i].phase| && ss[i].phase[c].Yielding?
    ensures c < |ss[i + 1].phase| && (ss[i + 1].phase[c].Halted? <==> E.Finished(ss[i].k))
    ensures !E.Finished(ss[i].k) ==> ss[i + 1].phase[c].Unlock1?
  {
    hide Init, KInv, LockOk, PhaseOk, SchedYield, E.Finished;
    RunOk(ss, ls, i);
    assert Next(ss[i], ss[i + 1], c, ls[i].tf, ls[i].call);
    assert HolderOk(ss[i].k, c, ss[i].phase[c]);
    EnvsOf(ss[i].k, c);
    E.SchedEffect(ss[i].k, c);
  }

  lemma EnvsOf(k: K, c: nat)
    requires KInv(k, c)
    ensures EnvsOk(k, c)
  {
    hide MemOk, EnvsOk;
  }

  // ----- what each step does to the kernel's state -----

  /** Environment tables, memory and CPUs change only where the code does it: a trap saves its frame or frees a zombie,
      a dispatched call has its effect and leaves its result, env_run and sched_yield switch, user code stores; taking
      and releasing the lock change nothing. */
  lemma StepEffects(ss: seq<S>, ls: seq<Label>, i: nat, c: nat)
    requires IsRun(ss, ls) && i < |ls| && ls[i].c == c && c < |ss[i].phase|
    ensures var k, k', p := ss[i].k, ss[i + 1].k, ss[i].phase[c];
            && c < |k.cpu|
            && (p.Trapped? || p.Spin? || p.Taken? || p.Unlock1? || p.Unlock2? || p.Pop? || p.Halted? ==> k' == k)
            && (p.User? ==> E.OnlyMemory(k, k') && FlatSame(k.pm, k'.pm))
            && (p.Entering? ==> 0 <= k.cpu[c] < |k.envs| && TrapEntered(k, k', c, ls[i].tf))
            && (p.Leave? ==> 0 <= k.cpu[c] && E.Switched(k, k', c, k.cpu[c]))
            && (p.Yielding? ==> E.Switched(k, k', c, if E.Finished(k) then -1 else k'.cpu[c]))
  {
    hide Init, KInv, LockOk, PhaseOk, SchedYield, EnvRun, Freed, Stored, Dispatch, E.Finished, E.Switched, E.EnvGone;
    RunOk(ss, ls, i);
    var s := ss[i];
    assert Next(s, ss[i + 1], c, ls[i].tf, ls[i].call);
    assert Critical(s.phase[c]) ==> HolderOk(s.k, c, s.phase[c]);
    match s.phase[c]
    case User => StoreEffect(s, c, ls[i].call);
    case Entering =>
      if s.k.envs[s.k.cpu[c]].status == DYING {
        E.ZombieEffect(s.k, c);
      }
    case Leave => E.EnvRunEffect(s.k, c, s.k.cpu[c]);
    case Yielding =>
      EnvsOf(s.k, c);
      E.SchedEffect(s.k, c);
    case _ =>
  }

  /** trap()'s first step: the zombie is gone, or the frame is saved and nothing else changed. */
  ghost predicate TrapEntered(k: K, k': K, c: nat, tf: Tf)
    requires c < |k.cpu| && 0 <= k.cpu[c] < |k.envs|
  {
    var e := k.cpu[c];
    if k.envs[e].status == DYING then E.EnvGone(k, k', e) && c < |k'.cpu| && k'.cpu[c] == -1
    else
      && E.OnlyEnv(k, k', e) && k'.pm == k.pm
      && k'.envs[e].tf == tf && k'.envs[e].(tf := k.envs[e].tf) == k.envs[e]
  }

  lemma StoreEffect(s: S, c: nat, call: Call)
    requires SysInv(s) && c < |s.phase| && s.phase[c].User?
    ensures c < |s.k.cpu| && E.OnlyMemory(s.k, s.k) && FlatSame(s.k.pm, s.k.pm)
    ensures call.Stores? && s.k.cpu[c] >= 0 ==>
              var k' := Stored(s.k, s.k.cpu[c], call.words); E.OnlyMemory(s.k, k') && FlatSame(s.k.pm, k'.pm)
  {
    hide KInv, T.UserStores, PhaseOk;
    if call.Stores? && s.k.cpu[c] >= 0 {
      if s.lock.locked {
        var h :| 0 <= h < |s.phase| && Critical(s.phase[h]);
        assert HolderOk(s.k, h, s.phase[h]);
        StoresFlat(s.k, if KInv(s.k, h) then h else -1, s.k.cpu[c], call);
      } else {
        StoresFlat(s.k, -1, s.k.cpu[c], call);
      }
    }
  }

  lemma StoresFlat(k: K, h: int, e: nat, call: Call)
    requires KInv(k, h) && call.Stores?
    ensures FlatSame(k.pm, Stored(k, e, call.words).pm)
  {
    hide EnvsOk, T.UserStores;
    StoresKeep(k.pm, k.kdir, e, call.words);
  }
}
