/**
  Inter-environment messages over whole SMP runs (kern/syscall.c, lib/ipc.c).

  Each step of module Smp is logged: what was sent to each slot, what the receiver's
  ipc_recv returned, and how far the receiver's library code has got.  The library reads
  the three IPC fields one at a time, outside the lock.
*/
module IpcLog {
  import opened Mmu
  import opened Pmap
  import opened Kernel
  import opened KernelInv
  import opened Smp

  datatype Msg = Msg(value: int, from: int, perm: Perm)

  /**
    Out       not inside ipc_recv
    Inside    sys_ipc_recv accepted, not back in user mode yet
    Back      back in user mode with the system call's result, nothing read
    HasFrom   env_ipc_from read
    HasPerm   env_ipc_from and env_ipc_perm read
  */
  datatype Stage = Out | Inside | Back(eax: int) | HasFrom(from: int) | HasPerm(from: int, perm: Perm)

  datatype L = L(s: S, sent: seq<seq<Msg>>, got: seq<seq<Msg>>, at: seq<Stage>)

  function Slot(v: Env): Msg {
    Msg(v.value, v.from, v.perm)
  }

  // ----- what one system call does to the IPC fields -----

  predicate SameIpc(v: Env, v': Env) {
    v'.recving == v.recving && Slot(v') == Slot(v)
  }

  /** Does this call deliver a message to e? */
  ghost predicate Delivers(k: K, c: nat, call: Call, e: nat)
    requires Ready(k, c)
  {
    && call.TrySend? && EnvId2Env(k, c, call.envid, false) == Found(e)
    && Dispatch(k, c, call).Return? && Dispatch(k, c, call).r == 0
  }

  ghost predicate Blocks(k: K, c: nat, call: Call, e: nat)
    requires Ready(k, c)
  {
    call.Recv? && e == k.cpu[c] && Dispatch(k, c, call).Switch?
  }

  ghost predicate Creates(k: K, c: nat, call: Call, e: nat)
    requires Ready(k, c)
  {
    call.Exofork? && k.free != [] && k.free[0] == e && SetupVm(k.pm, e, k.kdir).1
  }

  /** What the sender put in: a page and its permission travel only if both sides ask for one. */
  function Sent(k: K, c: nat, call: Call, e: nat): Msg
    requires Ready(k, c) && call.TrySend? && e < |k.envs|
  {
    Msg(call.msg, k.envs[k.cpu[c]].id,
        if call.va != IPC_NO_PAGE && k.envs[e].dstva != IPC_NO_PAGE then call.perm else {})
  }

  /** Left alone, but that a receiver may lose the permission of an earlier message. */
  predicate Undisturbed(v: Env, v': Env) {
    SameIpc(v, v') || (v.recving && v'.recving && Slot(v') == Slot(v).(perm := {}))
  }

  /** The effect of a dispatched call on one slot's IPC fields. */
  ghost predicate IpcEffect(k: K, k': K, c: nat, call: Call, e: nat)
    requires Ready(k, c) && e < |k.envs| && |k'.envs| == |k.envs|
  {
    if Creates(k, c, call, e) then k.envs[e].status == FREE && !k'.envs[e].recving
    else if Delivers(k, c, call, e) then
      && k.envs[e].recving && !k'.envs[e].recving && Slot(k'.envs[e]) == Sent(k, c, call, e)
      && k'.envs[e].tf == Tf(0, k.envs[e].tf.rest)
    else if Blocks(k, c, call, e) then k'.envs[e].recving && Slot(k'.envs[e]) == Slot(k.envs[e])
    else k'.envs[e].tf == k.envs[e].tf && Undisturbed(k.envs[e], k'.envs[e])
  }

  lemma ExoforkIpc(k: K, c: nat, e: nat)
    requires Entered(k, c) && Ready(k, c) && e < |k.envs|
    ensures IpcEffect(k, Dispatch(k, c, Exofork).k, c, Exofork, e)
  {
    hide Inv, IpcOk, IdleOk, IdsOk, CpuOk, SetupVm, NextId;
    if k.free != [] {
      FreeSlot(k);
      if SetupVm(k.pm, k.free[0], k.kdir).1 {
        ExoforkForm(k, c);
      }
    }
  }

  lemma TrySendIpc(k: K, c: nat, call: Call, e: nat)
    requires Entered(k, c) && Ready(k, c) && e < |k.envs| && call.TrySend?
    ensures |Dispatch(k, c, call).k.envs| == |k.envs| && IpcEffect(k, Dispatch(k, c, call).k, c, call, e)
  {
    hide Inv, Entered, PageMapAt, SendablePage, Pte, SetupVm;
  }

  /** Every call's effect on every slot: deliver, block, create, or leave alone, but that a send refused for its page
      clears the permission of the receiver it found. */
  lemma DispatchIpc(k: K, c: nat, call: Call, e: nat)
    requires Entered(k, c) && Ready(k, c) && e < |k.envs|
    ensures |Dispatch(k, c, call).k.envs| == |k.envs| && IpcEffect(k, Dispatch(k, c, call).k, c, call, e)
  {
    if call.Exofork? {
      ExoforkIpc(k, c, e);
    } else if call.TrySend? {
      TrySendIpc(k, c, call, e);
    } else {
      OtherCallsIpc(k, c, call, e);
    }
  }

  lemma OtherCallsIpc(k: K, c: nat, call: Call, e: nat)
    requires Ready(k, c) && e < |k.envs| && !call.Exofork? && !call.TrySend?
    ensures |Dispatch(k, c, call).k.envs| == |k.envs| && IpcEffect(k, Dispatch(k, c, call).k, c, call, e)
  {
    hide FreeSpace, PageAllocAt, PageMapAt, PageRemove, SetupVm;
  }

  /** A free slot comes alive only through sys_exofork. */
  lemma DispatchLive(k: K, c: nat, call: Call, e: nat)
    requires Entered(k, c) && Ready(k, c) && Allowed(k, c, call) && e < |k.envs|
    requires k.envs[e].status == FREE && !Creates(k, c, call, e)
    ensures |Dispatch(k, c, call).k.envs| == |k.envs| && Dispatch(k, c, call).k.envs[e].status == FREE
  {
    hide Inv, FreeSpace, PageAllocAt, PageMapAt, PageRemove, SendablePage, Pte, IdsOk, IdleOk, ListOk, NextId, SetupVm,
      RoomFor;
    if call.Exofork? && k.free != [] && SetupVm(k.pm, k.free[0], k.kdir).1 {
      ExoforkForm(k, c);
    } else if call.TrySend? {
      if EnvId2Env(k, c, call.envid, false).Found? {
        IdFound(k, c, call.envid, false);
      }
    }
  }

  // ----- logged runs -----

  /** CPU c is about to dispatch `call`. */
  ghost predicate AtBody(s: S, c: nat) {
    c < |s.phase| && s.phase[c].Body? && Ready(s.k, c)
  }

  ghost predicate SentUpdate(l: L, l': L, c: nat, call: Call, e: nat)
    requires e < |l.s.k.envs| == |l.sent| == |l'.sent|
  {
    l'.sent[e] ==
      if AtBody(l.s, c) && Creates(l.s.k, c, call, e) then []
      else if AtBody(l.s, c) && Delivers(l.s.k, c, call, e) then l.sent[e] + [Sent(l.s.k, c, call, e)]
      else l.sent[e]
  }

  ghost predicate GotUpdate(l: L, l': L, c: nat, call: Call, e: nat)
    requires e < |l.s.k.envs| == |l.got| == |l'.got|
  {
    l'.got[e] == if AtBody(l.s, c) && Creates(l.s.k, c, call, e) then [] else l.got[e]
  }

  ghost predicate AtUpdate(l: L, l': L, c: nat, call: Call, e: nat)
    requires e < |l.s.k.envs| == |l.at| == |l'.at|
  {
    l'.at[e] ==
      if AtBody(l.s, c) && Creates(l.s.k, c, call, e) then Out
      else if AtBody(l.s, c) && Blocks(l.s.k, c, call, e) then Inside
      else if c < |l.s.phase| && c < |l.s.k.cpu| && l.s.phase[c].Pop? && l.s.k.cpu[c] == e && l.at[e].Inside?
      then Back(l.s.k.envs[e].tf.eax)
      else l.at[e]
  }

  /** A kernel step with its log entries; library code calls sys_ipc_recv only when not already in ipc_recv. */
  ghost predicate LogStep(l: L, l': L, c: nat, tf: Tf, call: Call) {
    && Next(l.s, l'.s, c, tf, call)
    && |l.sent| == |l.got| == |l.at| == |l.s.k.envs| && |l'.sent| == |l'.got| == |l'.at| == |l.s.k.envs|
    && (AtBody(l.s, c) && call.Recv? ==> l.at[l.s.k.cpu[c]].Out?)
    && (forall e: nat :: e < |l.s.k.envs| ==>
          SentUpdate(l, l', c, call, e) && GotUpdate(l, l', c, call, e) && AtUpdate(l, l', c, call, e))
  }

  /** ipc_recv, back in user mode on CPU c, gives up if its system call returned an error, and else reads the next of
      its three fields. */
  ghost predicate ReadStep(l: L, l': L, c: nat) {
    && c < |l.s.phase| == |l.s.k.cpu| && l.s.phase[c].User? && 0 <= l.s.k.cpu[c] < |l.s.k.envs|
    && |l.sent| == |l.got| == |l.at| == |l.s.k.envs|
    && var e := l.s.k.cpu[c]; var v := l.s.k.envs[e];
       match l.at[e]
       case Back(eax) => l' == l.(at := l.at[e := if eax == 0 then HasFrom(v.from) else Out])
       case HasFrom(f) => l' == l.(at := l.at[e := HasPerm(f, v.perm)])
       case HasPerm(f, p) => l' == l.(at := l.at[e := Out], got := l.got[e := l.got[e] + [Msg(v.value, f, p)]])
       case _ => l' == l
  }

  /** Messages sent to a slot against messages its receiver has returned. */
  predicate SlotOk(v: Env, sent: seq<Msg>, got: seq<Msg>, at: Stage) {
    match at
    case Out => !v.recving && sent == got
    case Inside => if v.recving then sent == got else sent == got + [Slot(v)] && v.tf.eax == 0
    case Back(eax) => !v.recving && sent == got + [Slot(v)] && eax == 0
    case HasFrom(f) => !v.recving && sent == got + [Slot(v)] && f == v.from
    case HasPerm(f, p) => !v.recving && sent == got + [Slot(v)] && f == v.from && p == v.perm
  }

  /** Phases in which a CPU's environment is running user code or has just trapped. */
  predicate Busy(p: Phase) {
    match p
    case User => true
    case Trapped(boot) => !boot
    case Spin(boot) => !boot
    case Taken(boot) => !boot
    case Entering => true
    case Body => true
    case Leave => true
    case _ => false
  }

  /** No environment does that while it is inside sys_ipc_recv. */
  ghost predicate NoneInside(s: S, at: seq<Stage>) {
    forall d: nat :: d < |s.phase| && d < |s.k.cpu| && Busy(s.phase[d]) && 0 <= s.k.cpu[d] < |at| ==>
      !at[s.k.cpu[d]].Inside?
  }

  ghost predicate LogInv(l: L) {
    && SysInv(l.s) && NoneInside(l.s, l.at)
    && |l.sent| == |l.got| == |l.at| == |l.s.k.envs|
    && (forall e :: 0 <= e < |l.s.k.envs| && l.s.k.envs[e].status != FREE ==>
          SlotOk(l.s.k.envs[e], l.sent[e], l.got[e], l.at[e]))
  }

  /** A step that is not a dispatch leaves IPC fields alone and brings no slot to life. */
  ghost predicate IpcUntouched(k: K, k': K) {
    && |k'.envs| == |k.envs|
    && forall e :: 0 <= e < |k.envs| ==>
         SameIpc(k.envs[e], k'.envs[e]) && (k.envs[e].status == FREE ==> k'.envs[e].status == FREE)
  }

  lemma EnvRunIpc(k: K, c: nat, e: nat)
    requires c < |k.cpu| && e < |k.envs| && k.cpu[c] < |k.envs| && k.envs[e].status != FREE
    ensures IpcUntouched(k, EnvRun(k, c, e))
  {
  }

  lemma YieldIpc(k: K, c: nat)
    requires KInv(k, c) && c < |k.cpu| && 0 < |k.envs| && k.cpu[c] < |k.envs|
    ensures IpcUntouched(k, SchedYield(k, c).k)
  {
    hide Inv, Scan, EnvRun, ListOk, IdsOk, IpcOk, CpuOk;
    var k1 := Unrun(k, c);
    assert IpcUntouched(k, k1);
    ScanFinds(k1.envs, ScanStart(k, c), |k.envs|);
    var i := Scan(k1.envs, ScanStart(k, c), |k.envs|);
    if i >= 0 {
      EnvRunIpc(k1, c, i);
    } else {
      EnvRunIpc(k1, c, c);
    }
  }

  lemma OffBodyIpc(s: S, s': S, c: nat, tf: Tf, call: Call)
    requires SysInv(s) && Next(s, s', c, tf, call) && !s.phase[c].Body?
    ensures IpcUntouched(s.k, s'.k)
  {
    hide Inv, KInv, SchedYield, EnvRun, FreeSpace, LockOk;
    assert Critical(s.phase[c]) ==> HolderOk(s.k, c, s.phase[c]);
    match s.phase[c]
    case Leave =>
      EnteredLive(s.k, c);
      EnvRunIpc(s.k, c, s.k.cpu[c]);
    case Yielding => YieldIpc(s.k, c);
    case _ =>
  }

  /** Saved frames change only when the environment's own CPU traps. */
  lemma OffBodyFrames(s: S, s': S, c: nat, tf: Tf, call: Call, e: nat)
    requires SysInv(s) && Next(s, s', c, tf, call) && !s.phase[c].Body? && e < |s.k.envs| == |s'.k.envs|
    requires !(s.phase[c].Entering? && s.k.cpu[c] == e)
    ensures s'.k.envs[e].tf == s.k.envs[e].tf
  {
    hide SysInv, SchedYield, EnvRun, FreeSpace, Stored;
    match s.phase[c]
    case User => StoredFrames(s.k, call);
    case Leave => EnvRunFrames(s.k, c, s.k.cpu[c]);
    case Yielding => YieldFrames(s.k, c);
    case _ =>
  }

  lemma StoredFrames(k: K, call: Call)
    ensures call.Stores? ==> forall i: nat :: Stored(k, i, call.words).envs == k.envs
  {
  }

  lemma EnteredLive(k: K, c: nat)
    requires Entered(k, c)
    ensures k.cpu[c] < |k.envs| && k.envs[k.cpu[c]].status == RUNNING
  {
    hide Inv;
  }

  /** The environment of a CPU outside the critical section is not receiving. */
  lemma CurrentNotReceiving(s: S, c: nat)
    requires SysInv(s) && c < |s.phase| && !Critical(s.phase[c]) && s.k.cpu[c] != -1
    ensures 0 <= s.k.cpu[c] < |s.k.envs| && !s.k.envs[s.k.cpu[c]].recving
  {
    if s.lock.locked {
      var h :| 0 <= h < |s.phase| && Critical(s.phase[h]);
      assert HolderOk(s.k, h, s.phase[h]);
      OutsiderNotReceiving(s.k, if KInv(s.k, h) then h else -1, c);
    } else {
      OutsiderNotReceiving(s.k, -1, c);
    }
  }

  lemma OutsiderNotReceiving(k: K, h: int, c: nat)
    requires KInv(k, h) && c < |k.cpu| && c != h && k.cpu[c] != -1
    ensures 0 <= k.cpu[c] < |k.envs| && !k.envs[k.cpu[c]].recving
  {
    hide Inv;
  }

  lemma BodyStep(l: L, l': L, c: nat, tf: Tf, call: Call)
    requires LogInv(l) && LogStep(l, l', c, tf, call) && l.s.phase[c].Body?
    ensures forall e :: 0 <= e < |l'.s.k.envs| && l'.s.k.envs[e].status != FREE ==>
              |l'.s.k.envs| == |l.s.k.envs| && SlotOk(l'.s.k.envs[e], l'.sent[e], l'.got[e], l'.at[e])
    ensures |l'.s.k.envs| == |l.s.k.envs|
  {
    hide Inv, KInv, Dispatch, Allowed, LockOk, PhaseOk, SlotOk, IpcEffect;
    var k := l.s.k;
    assert HolderOk(k, c, l.s.phase[c]);
    var k1 := Dispatch(k, c, call).k;
    DispatchOk(k, c, call);
    forall e: nat | e < |k.envs|
      ensures e < |l'.s.k.envs| == |k.envs|
      ensures l'.s.k.envs[e].status != FREE ==> SlotOk(l'.s.k.envs[e], l'.sent[e], l'.got[e], l'.at[e])
    {
      DispatchIpc(k, c, call, e);
      if k.envs[e].status == FREE && !Creates(k, c, call, e) {
        DispatchLive(k, c, call, e);
      }
      SetResultIpc(k1, c, Dispatch(k, c, call));
      DispatchCpu(k, c, call);
      BodySlot(l, l', c, call, e, k1);
    }
  }

  lemma SetResultIpc(k1: K, c: nat, o: Outcome)
    ensures o.Return? ==> IpcUntouched(k1, SetResult(k1, c, o.r)) && |SetResult(k1, c, o.r).envs| == |k1.envs|
    ensures o.Return? ==>
              forall e: nat :: e < |k1.envs| && !(c < |k1.cpu| && k1.cpu[c] == e) ==>
                SetResult(k1, c, o.r).envs[e].tf == k1.envs[e].tf
  {
  }

  /** A call that returns leaves its CPU with the same environment. */
  lemma DispatchCpu(k: K, c: nat, call: Call)
    requires Entered(k, c) && Ready(k, c) && Allowed(k, c, call)
    ensures Dispatch(k, c, call).Return? ==> Dispatch(k, c, call).k.cpu == k.cpu
  {
    hide KInv, Dispatch, Allowed;
    DispatchOk(k, c, call);
  }

  lemma BodySlot(l: L, l': L, c: nat, call: Call, e: nat, k1: K)
    requires AtBody(l.s, c) && e < |l.s.k.envs| == |k1.envs|
    requires |l.sent| == |l.got| == |l.at| == |l.s.k.envs| == |l'.sent| == |l'.got| == |l'.at|
    requires l.s.k.envs[e].status != FREE ==> SlotOk(l.s.k.envs[e], l.sent[e], l.got[e], l.at[e])
    requires SentUpdate(l, l', c, call, e) && GotUpdate(l, l', c, call, e) && AtUpdate(l, l', c, call, e)
    requires IpcEffect(l.s.k, k1, c, call, e)
    requires l.s.k.envs[e].status == FREE && !Creates(l.s.k, c, call, e) ==> k1.envs[e].status == FREE
    requires call.Recv? ==> l.at[l.s.k.cpu[c]].Out?
    requires IpcUntouched(k1, l'.s.k) && !l.at[l.s.k.cpu[c]].Inside?
    requires e != l.s.k.cpu[c] ==> l'.s.k.envs[e].tf == k1.envs[e].tf
    ensures l'.s.k.envs[e].status != FREE ==> SlotOk(l'.s.k.envs[e], l'.sent[e], l'.got[e], l'.at[e])
  {
    hide Dispatch, SetupVm, EnvId2Env;
  }

  lemma OffBodyStep(l: L, l': L, c: nat, tf: Tf, call: Call)
    requires LogInv(l) && LogStep(l, l', c, tf, call) && !l.s.phase[c].Body?
    ensures |l'.s.k.envs| == |l.s.k.envs|
    ensures forall e :: 0 <= e < |l'.s.k.envs| && l'.s.k.envs[e].status != FREE ==>
              SlotOk(l'.s.k.envs[e], l'.sent[e], l'.got[e], l'.at[e])
  {
    hide Inv, KInv, Dispatch, Allowed, LockOk, HolderOk;
    OffBodyIpc(l.s, l'.s, c, tf, call);
    if l.s.phase[c].Pop? {
      assert PhaseOk(l.s.k, c, l.s.phase[c]);
      CurrentNotReceiving(l.s, c);
    }
    forall e: nat | e < |l'.s.k.envs| && l'.s.k.envs[e].status != FREE
      ensures SlotOk(l'.s.k.envs[e], l'.sent[e], l'.got[e], l'.at[e])
    {
      assert SentUpdate(l, l', c, call, e) && GotUpdate(l, l', c, call, e) && AtUpdate(l, l', c, call, e);
      assert SlotOk(l.s.k.envs[e], l.sent[e], l.got[e], l.at[e]);
      if l.at[e].Inside? {
        OffBodyFrames(l.s, l'.s, c, tf, call, e);
      }
    }
  }

  /** A CPU becomes busy with an environment only by popping its frame, which ends its stay inside. */
  lemma StepNoneInside(l: L, l': L, c: nat, tf: Tf, call: Call)
    requires LogInv(l) && LogStep(l, l', c, tf, call) && SysInv(l'.s) && |l'.s.k.envs| == |l.s.k.envs|
    ensures NoneInside(l'.s, l'.at)
  {
    hide SysInv, SlotOk, SchedYield, Dispatch, Freed, EnvRun, Stored, SentUpdate, GotUpdate, AtUpdate, Next;
    forall d: nat | d < |l'.s.phase| && d < |l'.s.k.cpu| && Busy(l'.s.phase[d]) && 0 <= l'.s.k.cpu[d] < |l'.at|
      ensures !l'.at[l'.s.k.cpu[d]].Inside?
    {
      var e := l'.s.k.cpu[d];
      assert AtUpdate(l, l', c, call, e);
      if d == c {
        OwnBusy(l, l', c, tf, call, e);
      } else {
        OtherBusy(l, l', c, tf, call, d, e);
      }
    }
  }

  lemma OtherBusy(l: L, l': L, c: nat, tf: Tf, call: Call, d: nat, e: nat)
    requires LogInv(l) && Next(l.s, l'.s, c, tf, call) && c != d && d < |l'.s.phase| && d < |l'.s.k.cpu|
    requires Busy(l'.s.phase[d]) && l'.s.k.cpu[d] == e < |l.s.k.envs| && |l'.at| == |l.s.k.envs|
    requires AtUpdate(l, l', c, call, e)
    ensures !l'.at[e].Inside?
  {
    hide SlotOk, SchedYield, Dispatch, Freed, EnvRun, Stored;
    SameCpus(l.s, l'.s, c, tf, call);
    OtherCpuKept(l.s, l'.s, c, tf, call, d);
    if AtBody(l.s, c) {
      assert HolderOk(l.s.k, c, l.s.phase[c]);
      CpusDiffer(l.s.k, c, d);
    }
  }

  lemma SameCpus(s: S, s': S, c: nat, tf: Tf, call: Call)
    requires Next(s, s', c, tf, call)
    ensures |s'.phase| == |s.phase| == |s.k.cpu| && c < |s.phase|
  {
    hide SchedYield, Dispatch, Freed, EnvRun, Stored;
  }

  lemma CpusDiffer(k: K, c: nat, d: nat)
    requires Entered(k, c) && d < |k.cpu| && d != c
    ensures k.cpu[d] != k.cpu[c]
  {
    hide MemOk, ListOk, IdsOk, IpcOk, IdleOk;
  }

  lemma OwnBusy(l: L, l': L, c: nat, tf: Tf, call: Call, e: nat)
    requires LogInv(l) && Next(l.s, l'.s, c, tf, call) && c < |l'.s.phase| && c < |l'.s.k.cpu|
    requires Busy(l'.s.phase[c]) && l'.s.k.cpu[c] == e < |l.s.k.envs| && |l'.at| == |l.s.k.envs|
    requires AtUpdate(l, l', c, call, e)
    ensures !l'.at[e].Inside?
  {
    hide KInv, SlotOk, SchedYield, Dispatch, Freed, EnvRun, T.UserStores, LockOk, Allowed, Creates;
    if l.s.phase[c].Body? {
      assert HolderOk(l.s.k, c, l.s.phase[c]);
      DispatchCpu(l.s.k, c, call);
    }
  }

  lemma LogStepOk(l: L, l': L, c: nat, tf: Tf, call: Call)
    requires LogInv(l) && LogStep(l, l', c, tf, call)
    ensures LogInv(l')
  {
    hide SysInv, SlotOk, SentUpdate, GotUpdate, AtUpdate;
    StepOk(l.s, l'.s, c, tf, call);
    if l.s.phase[c].Body? {
      BodyStep(l, l', c, tf, call);
    } else {
      OffBodyStep(l, l', c, tf, call);
    }
    StepNoneInside(l, l', c, tf, call);
  }

  lemma ReadStepOk(l: L, l': L, c: nat)
    requires LogInv(l) && ReadStep(l, l', c)
    ensures LogInv(l')
  {
    hide SysInv, NoneInside, SlotOk;
    var e := l.s.k.cpu[c];
    LiveOutside(l.s, c);
    assert SlotOk(l.s.k.envs[e], l.sent[e], l.got[e], l.at[e]);
    ReadSlot(l, l', c);
    ReadNoneInside(l, l', c);
    forall i | 0 <= i < |l.s.k.envs| && i != e && l.s.k.envs[i].status != FREE
      ensures SlotOk(l'.s.k.envs[i], l'.sent[i], l'.got[i], l'.at[i])
    {
      assert SlotOk(l.s.k.envs[i], l.sent[i], l.got[i], l.at[i]);
    }
  }

  lemma ReadSlot(l: L, l': L, c: nat)
    requires ReadStep(l, l', c) && var e := l.s.k.cpu[c]; SlotOk(l.s.k.envs[e], l.sent[e], l.got[e], l.at[e])
    ensures var e := l.s.k.cpu[c];
            && l'.s == l.s && |l'.sent| == |l'.got| == |l'.at| == |l.s.k.envs|
            && SlotOk(l.s.k.envs[e], l'.sent[e], l'.got[e], l'.at[e])
            && (forall i :: 0 <= i < |l.s.k.envs| && i != e ==>
                  l'.sent[i] == l.sent[i] && l'.got[i] == l.got[i] && l'.at[i] == l.at[i])
  {
  }

  lemma ReadNoneInside(l: L, l': L, c: nat)
    requires ReadStep(l, l', c) && NoneInside(l.s, l.at)
    ensures NoneInside(l'.s, l'.at)
  {
    hide Busy;
  }

  lemma LiveOutside(s: S, c: nat)
    requires SysInv(s) && c < |s.phase| && !Critical(s.phase[c]) && s.k.cpu[c] != -1
    ensures 0 <= s.k.cpu[c] < |s.k.envs| && s.k.envs[s.k.cpu[c]].status != FREE
  {
    if s.lock.locked {
      var h :| 0 <= h < |s.phase| && Critical(s.phase[h]);
      assert HolderOk(s.k, h, s.phase[h]);
      OutsiderLive(s.k, if KInv(s.k, h) then h else -1, c);
    } else {
      OutsiderLive(s.k, -1, c);
    }
  }

  lemma OutsiderLive(k: K, h: int, c: nat)
    requires KInv(k, h) && c < |k.cpu| && c != h && k.cpu[c] != -1
    ensures 0 <= k.cpu[c] < |k.envs| && k.envs[k.cpu[c]].status != FREE
  {
    hide Inv;
  }

  /** A run: kernel steps of any CPU and library reads, in any order. */
  datatype Event = KernelStep(step: Label) | Read(c: nat)

  ghost predicate LogNext(l: L, l': L, v: Event) {
    match v
    case KernelStep(b) => LogStep(l, l', b.c, b.tf, b.call)
    case Read(c) => ReadStep(l, l', c)
  }

  ghost predicate LogInit(l: L) {
    && Init(l.s) && |l.sent| == |l.got| == |l.at| == |l.s.k.envs|
    && forall e :: 0 <= e < |l.s.k.envs| ==>
         l.sent[e] == [] && l.got[e] == [] && l.at[e] == Out && !l.s.k.envs[e].recving
  }

  ghost predicate IsLogRun(ls: seq<L>, vs: seq<Event>) {
    && |ls| == |vs| + 1 && LogInit(ls[0])
    && forall i :: 0 <= i < |vs| ==> LogNext(ls[i], ls[i + 1], vs[i])
  }

  lemma {:induction false} LogRunOk(ls: seq<L>, vs: seq<Event>, i: nat)
    requires IsLogRun(ls, vs) && i < |ls|
    ensures LogInv(ls[i])
  {
    hide LogStep, ReadStep, Init, SysInv;
    if i == 0 {
      InitOk(ls[0].s);
    } else {
      LogRunOk(ls, vs, i - 1);
      assert LogNext(ls[i - 1], ls[i], vs[i - 1]);
      match vs[i - 1]
      case KernelStep(b) => LogStepOk(ls[i - 1], ls[i], b.c, b.tf, b.call);
      case Read(c) => ReadStepOk(ls[i - 1], ls[i], c);
    }
  }

  /**
    Exactly once and in order: at every point of every run, what a live environment's ipc_recv
    has returned is what was successfully sent to it, in order, except for at most the one
    message it is still reading; no returned message mixes two sends; and its system call returns 0.
  */
  lemma ExactlyOnce(ls: seq<L>, vs: seq<Event>, i: nat, e: nat)
    requires IsLogRun(ls, vs) && i < |ls| && e < |ls[i].s.k.envs| && ls[i].s.k.envs[e].status != FREE
    ensures |ls[i].sent| == |ls[i].got| == |ls[i].at| == |ls[i].s.k.envs|
    ensures ls[i].at[e].Inside? && !ls[i].s.k.envs[e].recving ==> ls[i].s.k.envs[e].tf.eax == 0
    ensures ls[i].at[e].Back? ==> ls[i].at[e].eax == 0
    ensures ls[i].got[e] <= ls[i].sent[e] && |ls[i].sent[e]| <= |ls[i].got[e]| + 1
    ensures ls[i].at[e].Out? ==> ls[i].got[e] == ls[i].sent[e]
  {
    hide IsLogRun, SysInv;
    LogRunOk(ls, vs, i);
    assert SlotOk(ls[i].s.k.envs[e], ls[i].sent[e], ls[i].got[e], ls[i].at[e]);
  }
}
