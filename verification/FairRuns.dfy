/**
  Fairness of sched_yield (kern/sched.c) over whole runs of all CPUs: what module Sched asks of successive
  scheduling calls holds of the calls one CPU makes in any run, whatever happens in between.
*/
module FairRuns {
  import opened Kernel
  import opened KernelInv
  import opened Smp
  import opened Sched
  import EnvIds

  // ----- a CPU that is about to schedule -----

  /** It has no current environment, or one that is RUNNING or NOT_RUNNABLE. */
  ghost predicate MayYield(k: K, c: nat) {
    && c < |k.cpu| && k.cpu[c] < |k.envs|
    && (k.cpu[c] >= 0 ==> k.envs[k.cpu[c]].status == RUNNING || k.envs[k.cpu[c]].status == NOT_RUNNABLE)
  }

  ghost predicate YieldsReady(s: S) {
    forall c: nat :: c < |s.phase| && s.phase[c].Yielding? ==> MayYield(s.k, c)
  }

  /** A step that brings CPU c to sched_yield leaves it ready. */
  lemma BecomesReady(s: S, s': S, c: nat, tf: Tf, call: Call)
    requires SysInv(s) && Next(s, s', c, tf, call) && c < |s'.phase| && s'.phase[c].Yielding?
    ensures MayYield(s'.k, c)
  {
    hide KInv, LockOk, Next, MayYield;
    assert c < |s.phase| by {
      NextCpu(s, s', c, tf, call);
    }
    assert PhaseOk(s.k, c, s.phase[c]) && (Critical(s.phase[c]) ==> HolderOk(s.k, c, s.phase[c]));
    ReadyFrom(s, s', c, tf, call);
  }

  lemma NextCpu(s: S, s': S, c: nat, tf: Tf, call: Call)
    requires Next(s, s', c, tf, call)
    ensures c < |s.phase| == |s.k.cpu|
  {
    hide Dispatch, SchedYield, EnvRun;
  }

  lemma ReadyFrom(s: S, s': S, c: nat, tf: Tf, call: Call)
    requires Next(s, s', c, tf, call) && c < |s'.phase| && s'.phase[c].Yielding? && c < |s.phase| == |s.k.cpu|
    requires PhaseOk(s.k, c, s.phase[c]) && (s.phase[c].Body? ==> Entered(s.k, c))
    ensures MayYield(s'.k, c)
  {
    hide Dispatch, SchedYield, EnvRun, Allowed, Freed, MayYield, Stored, Entered, Ready, SetResult;
    match s.phase[c]
    case Taken(_) => NoneMayYield(s.k, c);
    case Entering => FreedNone(s.k, c);
    case Body => SwitchReady(s.k, c, call);
    case _ =>
  }

  lemma FreedNone(k: K, c: nat)
    requires c < |k.cpu| && 0 <= k.cpu[c] < |k.envs|
    ensures MayYield(Freed(k, c, k.cpu[c]), c)
  {
    hide Pmap.FreeSpace;
  }

  lemma NoneMayYield(k: K, c: nat)
    requires c < |k.cpu|
    ensures k.cpu[c] == -1 ==> MayYield(k, c)
  {
  }

  lemma SwitchReady(k: K, c: nat, call: Call)
    requires Entered(k, c) && Ready(k, c) && Allowed(k, c, call)
    ensures Dispatch(k, c, call).Switch? ==> MayYield(Dispatch(k, c, call).k, c)
  {
    hide Entered, Allowed, Dispatch;
    DispatchOtherCpus(k, c, call);
    if Dispatch(k, c, call).Switch? {
      SwitchNotRunnable(k, c, call);
    }
  }

  lemma StoresMayYield(k: K, e: nat, call: Call, c: nat)
    requires MayYield(k, c) && call.Stores?
    ensures MayYield(Stored(k, e, call.words), c)
  {
  }

  lemma StepReady(s: S, s': S, c: nat, tf: Tf, call: Call)
    requires SysInv(s) && Next(s, s', c, tf, call) && YieldsReady(s)
    ensures YieldsReady(s')
  {
    hide KInv, Entered, HolderOk, PhaseOk, MayYield, Dispatch, SchedYield, EnvRun, Freed, Allowed;
    forall d: nat | d < |s'.phase| && s'.phase[d].Yielding?
      ensures MayYield(s'.k, d)
    {
      if d == c {
        BecomesReady(s, s', c, tf, call);
      } else {
        assert Critical(s.phase[d]);
        assert !Critical(s.phase[c]);
        if call.Stores? && s.phase[c].User? && s.k.cpu[c] >= 0 {
          StoresMayYield(s.k, s.k.cpu[c], call, d);
        }
      }
    }
  }

  lemma {:induction false} RunReady(ss: seq<S>, ls: seq<Label>, i: nat)
    requires IsRun(ss, ls) && i < |ss|
    ensures YieldsReady(ss[i])
  {
    hide Next, SysInv, KInv;
    if i > 0 {
      RunReady(ss, ls, i - 1);
      RunOk(ss, ls, i - 1);
      StepReady(ss[i - 1], ss[i], ls[i - 1].c, ls[i - 1].tf, ls[i - 1].call);
    } else {
      RunOk(ss, ls, 0);
      InitReady(ss[0]);
    }
  }

  lemma InitReady(s: S)
    requires Init(s)
    ensures YieldsReady(s)
  {
    hide KInv;
  }

  // ----- between two scheduling calls of a CPU -----

  /** Step i of the run is a scheduling call of CPU c. */
  ghost predicate Schedules(ss: seq<S>, ls: seq<Label>, c: nat, i: nat) {
    i < |ls| && i < |ss| && ls[i].c == c && c < |ss[i].phase| && ss[i].phase[c].Yielding?
  }

  /** Any other step leaves c's current environment or takes it away. */
  lemma StepCurrent(s: S, s': S, d: nat, tf: Tf, call: Call, c: nat)
    requires Next(s, s', d, tf, call) && c < |s.phase| && !(d == c && s.phase[c].Yielding?)
    ensures |s'.phase| == |s.phase| && c < |s.k.cpu| && c < |s'.k.cpu|
    ensures s'.k.cpu[c] == s.k.cpu[c] || s'.k.cpu[c] == -1
  {
    hide SchedYield, Dispatch;
    if d != c {
      OtherCpuKept(s, s', d, tf, call, c);
    } else if s.phase[c].Body? {
      DispatchCurrent(s.k, c, call);
    }
  }

  lemma DispatchCurrent(k: K, c: nat, call: Call)
    requires Ready(k, c)
    ensures var k' := Dispatch(k, c, call).k; |k'.cpu| == |k.cpu| && (k'.cpu[c] == k.cpu[c] || k'.cpu[c] == -1)
  {
    hide Pmap.FreeSpace, PageAllocAt, PageMapAt, Pmap.PageRemove, Pmap.Pte, Pmap.SetupVm, NextId;
  }

  lemma {:induction false} CurrentKept(ss: seq<S>, ls: seq<Label>, c: nat, i: nat, j: nat)
    requires IsRun(ss, ls) && i <= j < |ss| && c < |ss[i].phase| && c < |ss[i].k.cpu|
    requires forall x: nat :: i <= x < j ==> !Schedules(ss, ls, c, x)
    ensures c < |ss[j].phase| && c < |ss[j].k.cpu|
    ensures ss[j].k.cpu[c] == ss[i].k.cpu[c] || ss[j].k.cpu[c] == -1
  {
    hide Next, Init;
    if i < j {
      CurrentKept(ss, ls, c, i, j - 1);
      assert !Schedules(ss, ls, c, j - 1);
      StepCurrent(ss[j - 1], ss[j], ls[j - 1].c, ls[j - 1].tf, ls[j - 1].call, c);
    }
  }

  // ----- fairness -----

  /** at lists successive scheduling calls of CPU c, at each of which it has a current environment and e waits. */
  ghost predicate Waiting(ss: seq<S>, ls: seq<Label>, c: nat, e: nat, at: seq<nat>) {
    && (forall j :: 0 <= j < |at| ==>
          && Schedules(ss, ls, c, at[j])
          && var k := ss[at[j]].k; c < |k.cpu| && 0 <= k.cpu[c] && e < |k.envs| && Eligible(k.envs, e))
    && (forall j :: 0 < j < |at| ==> at[j - 1] < at[j])
    && (forall j, x: nat :: 0 < j < |at| && at[j - 1] < x < at[j] ==> !Schedules(ss, ls, c, x))
  }

  /** Each of these calls is one that module Sched speaks about. */
  lemma CallWaits(ss: seq<S>, ls: seq<Label>, c: nat, e: nat, i: nat)
    requires IsRun(ss, ls) && Schedules(ss, ls, c, i)
    requires var k := ss[i].k; c < |k.cpu| && 0 <= k.cpu[c] && e < |k.envs| && Eligible(k.envs, e)
    ensures Waits(ss[i].k, c, e) && ss[i + 1].k == SchedYield(ss[i].k, c).k && ss[i + 1].k.cpu[c] == Picked(ss[i].k, c)
    ensures c < |ss[i + 1].phase|
  {
    hide Init, SchedYield;
    RunReady(ss, ls, i);
    assert MayYield(ss[i].k, c);
    Closer(ss[i].k, c, e);
    assert Next(ss[i], ss[i + 1], ls[i].c, ls[i].tf, ls[i].call);
  }

  /** The next call starts from what the last one picked. */
  lemma CallsLinked(ss: seq<S>, ls: seq<Label>, c: nat, e: nat, i: nat, j: nat)
    requires IsRun(ss, ls) && i < j && Schedules(ss, ls, c, i) && Schedules(ss, ls, c, j)
    requires var k := ss[i].k; c < |k.cpu| && 0 <= k.cpu[c] && e < |k.envs| && Eligible(k.envs, e)
    requires c < |ss[j].k.cpu| && 0 <= ss[j].k.cpu[c]
    requires forall x: nat :: i < x < j ==> !Schedules(ss, ls, c, x)
    ensures Waits(ss[i].k, c, e) && ss[j].k.cpu[c] == Picked(ss[i].k, c)
  {
    hide IsRun, Picked, SchedYield;
    CallWaits(ss, ls, c, e, i);
    YieldOtherCpus(ss[i].k, c);
    CurrentKept(ss, ls, c, i + 1, j);
  }

  /**
    In every run: an environment that is RUNNABLE at NENV successive scheduling calls of one CPU, at each of which
    the CPU has a current environment, is picked by one of them.
  */
  lemma FairInRuns(ss: seq<S>, ls: seq<Label>, c: nat, e: nat, at: seq<nat>)
    requires IsRun(ss, ls) && Waiting(ss, ls, c, e, at) && 0 < |ss[0].k.envs| <= |at|
    ensures exists j :: 0 <= j < |at| && at[j] < |ls| && c < |ss[at[j] + 1].k.cpu| && ss[at[j] + 1].k.cpu[c] == e
  {
    hide IsRun, Picked, SchedYield, Eligible;
    var n := |ss[0].k.envs|;
    var ks := seq(|at|, j requires 0 <= j < |at| && at[j] < |ss| => ss[at[j]].k);
    forall j | 0 <= j < |ks|
      ensures Waits(ks[j], c, e) && |ks[j].envs| == n
    {
      CallWaits(ss, ls, c, e, at[j]);
      EnvIds.RunIds(ss, ls, 0, 0, at[j]);
    }
    forall j | 0 < j < |ks|
      ensures ks[j].cpu[c] == Picked(ks[j - 1], c)
    {
      CallsLinked(ss, ls, c, e, at[j - 1], at[j]);
    }
    PickedInTime(ks, c, e, n);
    var j :| 0 <= j < |ks| && Picked(ks[j], c) == e;
    CallWaits(ss, ls, c, e, at[j]);
    YieldOtherCpus(ks[j], c);
  }
}
