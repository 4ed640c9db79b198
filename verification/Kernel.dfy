/**
  Environments and system calls (kern/env.c, kern/sched.c, kern/syscall.c) as functions on
  the kernel state.  Everything here runs with the big kernel lock held, on behalf of the
  CPU `c`; module Smp interleaves the CPUs.
*/
module Kernel {
  import opened Mmu
  import opened Pmap
  import opened Errors
  import T = Translate

  /** env_status: one of the five values with a meaning, or any other integer that sys_env_set_status stored. */
  datatype Status = FREE | DYING | RUNNABLE | RUNNING | NOT_RUNNABLE | Other(n: int)

  /** A saved trapframe: the register that carries results, and the rest. */
  datatype Tf = Tf(eax: int, rest: int)

  datatype Env = Env(
    id: int, parent: int, idle: bool, status: Status, runs: nat, tf: Tf, upcall: nat,
    recving: bool, dstva: nat, value: int, from: int, perm: Perm)

  /**
    envs   the environment table
    free   env_free_list, first to last
    cpu    cpu_env of every CPU, -1 for none
    kdir   kern_pgdir
  */
  datatype K = K(pm: Pm, envs: seq<Env>, free: seq<nat>, cpu: seq<int>, kdir: Frame)

  /** The table env_init leaves: cleared entries, all but the last of the idle type. */
  const UNBORN: Env := Env(0, 0, false, FREE, 0, Tf(0, 0), 0, false, 0, 0, 0, {})

  function FreshEnvs(n: nat): (envs: seq<Env>)
    ensures |envs| == n
  {
    seq(n, i => UNBORN.(idle := i + 1 < n))
  }

  const IPC_NO_PAGE: nat := 0xaabb_ccdd
  const GENERATION: nat := 0x1000
  const INT_LIMIT: nat := 0x8000_0000

  // ----- environment identifiers -----

  /** Signed 32-bit wrap-around. */
  function Wrap32(x: int): int {
    (x + INT_LIMIT) % ADDR_LIMIT - INT_LIMIT
  }

  /** env_alloc's next identifier for a slot of an n-entry table whose last identifier was id. */
  function NextId(id: int, slot: nat, n: nat): int
    requires n > 0
  {
    var raw := Wrap32(id + GENERATION);
    var generation := raw - raw % n;
    (if generation <= 0 then GENERATION else generation) + slot
  }

  datatype Lookup = Found(slot: nat) | BadEnv

  function EnvId2Env(k: K, c: nat, envid: int, checkperm: bool): Lookup
    requires |k.envs| > 0 && c < |k.cpu| && 0 <= k.cpu[c] < |k.envs|
  {
    if envid < 0 then BadEnv
    else if envid == 0 then Found(k.cpu[c])
    else
      var e := envid % |k.envs|;
      if k.envs[e].status == FREE || k.envs[e].id != envid then BadEnv
      else if checkperm && e != k.cpu[c] && k.envs[e].parent != k.envs[k.cpu[c]].id then BadEnv
      else Found(e)
  }

  // ----- environment operations -----

  function SetEnv(k: K, e: nat, v: Env): K {
    k.(envs := Put(k.envs, e, v))
  }

  function EnvRun(k: K, c: nat, e: nat): K
    requires c < |k.cpu| && e < |k.envs| && k.cpu[c] < |k.envs|
  {
    var k1 := if k.cpu[c] >= 0 && k.envs[k.cpu[c]].status == RUNNING
              then SetEnv(k, k.cpu[c], k.envs[k.cpu[c]].(status := RUNNABLE)) else k;
    SetEnv(k1, e, k1.envs[e].(status := RUNNING, runs := k1.envs[e].runs + 1)).(cpu := k.cpu[c := e])
  }

  predicate Eligible(envs: seq<Env>, i: nat)
    requires i < |envs|
  {
    !envs[i].idle && envs[i].status == RUNNABLE
  }

  /** sched_yield's scan: the first eligible slot among start, start+1, ..., start+left-1, cyclically. */
  function Scan(envs: seq<Env>, start: nat, left: nat): (i: int)
    requires |envs| > 0
    ensures -1 <= i < |envs|
    decreases left
  {
    if left == 0 then -1
    else if Eligible(envs, start % |envs|) then start % |envs|
    else Scan(envs, start + 1, left - 1)
  }

  datatype Sched = Ran(k: K) | Monitor(k: K) | NoIdle(k: K)

  /** sched_yield first makes a running current environment runnable again. */
  function Unrun(k: K, c: nat): K
    requires c < |k.cpu| && k.cpu[c] < |k.envs|
  {
    if k.cpu[c] >= 0 && k.envs[k.cpu[c]].status == RUNNING
    then SetEnv(k, k.cpu[c], k.envs[k.cpu[c]].(status := RUNNABLE)) else k
  }

  function ScanStart(k: K, c: nat): nat
    requires c < |k.cpu| && k.cpu[c] < |k.envs|
  {
    if k.cpu[c] < 0 then 0 else if k.envs[k.cpu[c]].status == RUNNING then k.cpu[c] + 1 else k.cpu[c]
  }

  function SchedYield(k: K, c: nat): Sched
    requires |k.envs| > 0 && c < |k.cpu| && k.cpu[c] < |k.envs|
  {
    var k1 := Unrun(k, c);
    var i := Scan(k1.envs, ScanStart(k, c), |k.envs|);
    if i >= 0 then Ran(EnvRun(k1, c, i))
    else if forall j: nat :: j < |k1.envs| ==>
              k1.envs[j].idle || (k1.envs[j].status != RUNNABLE && k1.envs[j].status != RUNNING) then Monitor(k1)
    else if c < |k.envs| && (k1.envs[c].status == RUNNABLE || k1.envs[c].status == RUNNING) then Ran(EnvRun(k1, c, c))
    else NoIdle(k1)
  }

  function EnvFree(k: K, e: nat): K
    requires e < |k.envs|
  {
    SetEnv(k, e, k.envs[e].(status := FREE)).(pm := FreeSpace(k.pm, e), free := [e] + k.free)
  }

  /** What a system call does to its CPU: return a value, give up the CPU, or panic. */
  datatype Outcome = Return(k: K, r: int) | Switch(k: K) | Panic(k: K)

  function EnvDestroy(k: K, c: nat, e: nat): Outcome
    requires c < |k.cpu| && e < |k.envs|
  {
    if k.envs[e].status == RUNNING && k.cpu[c] != e then Return(SetEnv(k, e, k.envs[e].(status := DYING)), 0)
    else
      var k1 := EnvFree(k, e);
      if k.cpu[c] == e then Switch(k1.(cpu := k1.cpu[c := -1])) else Return(k1, 0)
  }

  /** env_alloc: the new state and the new slot, or an error. */
  function EnvAlloc(k: K, parent: int): (r: (K, int))
    requires |k.envs| > 0 && forall e :: e in k.free ==> e < |k.envs|
    ensures r.1 < |r.0.envs| == |k.envs|
  {
    if k.free == [] then (k, -E_NO_FREE_ENV)
    else
      var e := k.free[0];
      assert e in k.free;
      var (pm', ok) := SetupVm(k.pm, e, k.kdir);
      if !ok then (k.(pm := pm'), -E_NO_MEM)
      else
        (SetEnv(k, e, k.envs[e].(id := NextId(k.envs[e].id, e, |k.envs|), parent := parent, idle := false,
                                 status := RUNNABLE, runs := 0, tf := Tf(0, 0), upcall := 0, recving := false))
           .(pm := pm', free := k.free[1..]), e)
  }

  // ----- system calls -----

  ghost predicate Ready(k: K, c: nat) {
    && c < |k.cpu| && 0 <= k.cpu[c] < |k.envs|
    && (forall e :: e in k.free ==> e < |k.envs|)
  }

  function SysDestroy(k: K, c: nat, envid: int): Outcome
    requires Ready(k, c)
  {
    match EnvId2Env(k, c, envid, true)
    case BadEnv => Return(k, -E_BAD_ENV)
    case Found(e) => EnvDestroy(k, c, e)
  }

  function SysExofork(k: K, c: nat): Outcome
    requires Ready(k, c)
  {
    var cur := k.envs[k.cpu[c]];
    var (k1, r) := EnvAlloc(k, cur.id);
    if r < 0 then Return(k1, r)
    else
      Return(SetEnv(k1, r, k1.envs[r].(tf := cur.tf.(eax := 0), status := NOT_RUNNABLE)), k1.envs[r].id)
  }

  function SysSetStatus(k: K, c: nat, envid: int, status: Status): Outcome
    requires Ready(k, c)
  {
    match EnvId2Env(k, c, envid, true)
    case BadEnv => Return(k, -E_BAD_ENV)
    case Found(e) =>
      if k.envs[e].status != RUNNABLE && k.envs[e].status != NOT_RUNNABLE then Return(k, -E_INVAL)
      else Return(SetEnv(k, e, k.envs[e].(status := status)), 0)
  }

  function SysSetUpcall(k: K, c: nat, envid: int, func: nat): Outcome
    requires Ready(k, c)
  {
    match EnvId2Env(k, c, envid, true)
    case BadEnv => Return(k, -E_BAD_ENV)
    case Found(e) => Return(SetEnv(k, e, k.envs[e].(upcall := func)), 0)
  }

  function PageAllocAt(s: Pm, e: nat, va: nat, perm: Perm): (Pm, int) {
    if s.free == [] then (s, -E_NO_MEM)
    else
      var p := s.free[0];
      var (s', ok) := PageInsert(PageAlloc(s), e, PDX(va), PTX(va), p, perm);
      if ok then (s', 0) else (PageFree(s', p), -E_NO_MEM)
  }

  function SysPageAlloc(k: K, c: nat, envid: int, va: nat, perm: Perm): Outcome
    requires Ready(k, c)
  {
    match EnvId2Env(k, c, envid, true)
    case BadEnv => Return(k, -E_BAD_ENV)
    case Found(e) =>
      if va >= UTOP || !(perm <= PTE_SYSCALL) then Return(k, -E_INVAL)
      else
        var (pm', r) := PageAllocAt(k.pm, e, va, perm);
        Return(k.(pm := pm'), r)
  }

  predicate UserPage(va: nat) {
    va < UTOP && PGOFF(va) == 0
  }

  function PageMapAt(s: Pm, src: nat, srcva: nat, dst: nat, dstva: nat, perm: Perm): (Pm, int) {
    if !UserPage(srcva) || !UserPage(dstva) then (s, -E_INVAL)
    else
      var x := Pte(s, src, PDX(srcva), PTX(srcva));
      if !Present(x) then (s, -E_INVAL)
      else if PTE_W !in x.perm && PTE_W in perm then (s, -E_INVAL)
      else
        var (s', ok) := PageInsert(s, dst, PDX(dstva), PTX(dstva), x.ppn, perm);
        (s', if ok then 0 else -E_NO_MEM)
  }

  function SysPageMap(k: K, c: nat, srcid: int, srcva: nat, dstid: int, dstva: nat, perm: Perm): Outcome
    requires Ready(k, c)
  {
    var src := EnvId2Env(k, c, srcid, true);
    var dst := EnvId2Env(k, c, dstid, false);
    if src.BadEnv? || dst.BadEnv? then Return(k, -E_BAD_ENV)
    else
      var (pm', r) := PageMapAt(k.pm, src.slot, srcva, dst.slot, dstva, perm);
      Return(k.(pm := pm'), r)
  }

  function SysPageUnmap(k: K, c: nat, envid: int, va: nat): Outcome
    requires Ready(k, c)
  {
    match EnvId2Env(k, c, envid, true)
    case BadEnv => Return(k, -E_BAD_ENV)
    case Found(e) =>
      if !UserPage(va) then Return(k, -E_INVAL)
      else Return(k.(pm := PageRemove(k.pm, e, PDX(va), PTX(va))), 0)
  }

  /** The checks sys_ipc_try_send makes on the page it is asked to send. */
  predicate SendablePage(k: K, c: nat, srcva: nat, perm: Perm)
    requires Ready(k, c)
  {
    && UserPage(srcva) && perm <= PTE_SYSCALL
    && var x := Pte(k.pm, k.cpu[c], PDX(srcva), PTX(srcva));
       Present(x) && (PTE_W in perm ==> PTE_W in x.perm)
  }

  function Deliver(k: K, c: nat, e: nat, value: int, perm: Perm): K
    requires Ready(k, c) && e < |k.envs|
  {
    SetEnv(k, e, k.envs[e].(perm := perm, from := k.envs[k.cpu[c]].id, value := value,
                            tf := k.envs[e].tf.(eax := 0), recving := false, status := RUNNABLE))
  }

  /** A send that passed its checks, to a receiver in slot e. */
  function SendTo(k: K, c: nat, e: nat, value: int, srcva: nat, perm: Perm): Outcome
    requires Ready(k, c) && e < |k.envs|
  {
    if srcva == IPC_NO_PAGE || k.envs[e].dstva == IPC_NO_PAGE then Return(Deliver(k, c, e, value, {}), 0)
    else
      var dstva := k.envs[e].dstva;
      if Present(Pte(k.pm, e, PDX(dstva), PTX(dstva))) then
        Return(SetEnv(k, e, k.envs[e].(perm := {})), -E_NO_MEM)
      else
        var (pm', _) := PageMapAt(k.pm, k.cpu[c], srcva, e, dstva, perm);
        var k1 := k.(pm := pm');
        if !Present(Pte(pm', e, PDX(dstva), PTX(dstva))) then Panic(SetEnv(k1, e, k1.envs[e].(perm := {})))
        else Return(Deliver(k1, c, e, value, perm), 0)
  }

  function SysIpcTrySend(k: K, c: nat, envid: int, value: int, srcva: nat, perm: Perm): Outcome
    requires Ready(k, c)
  {
    match EnvId2Env(k, c, envid, false)
    case BadEnv => Return(k, -E_BAD_ENV)
    case Found(e) =>
      if !k.envs[e].recving then Return(k, -E_IPC_NOT_RECV)
      else if srcva != IPC_NO_PAGE && !SendablePage(k, c, srcva, perm) then Return(k, -E_INVAL)
      else SendTo(k, c, e, value, srcva, perm)
  }

  function SysIpcRecv(k: K, c: nat, dstva: nat): Outcome
    requires Ready(k, c)
  {
    if dstva != IPC_NO_PAGE && !UserPage(dstva) then Return(k, -E_INVAL)
    else Switch(SetEnv(k, k.cpu[c], k.envs[k.cpu[c]].(recving := true, dstva := dstva, status := NOT_RUNNABLE)))
  }

  /** What a trap asks for: a system call, an unexpected trap, words pushed on the user's exception stack by
      page_fault_handler, or a call that changes no kernel state. */
  datatype Call =
    | Yield
    | Destroy(envid: int)
    | Exofork
    | SetStatus(envid: int, status: Status)
    | SetUpcall(envid: int, func: nat)
    | AllocPage(envid: int, va: nat, perm: Perm)
    | MapPage(envid: int, srcva: nat, dstid: int, dstva: nat, perm: Perm)
    | UnmapPage(envid: int, va: nat)
    | TrySend(envid: int, msg: int, va: nat, perm: Perm)
    | Recv(va: nat)
    | Crash
    | Stores(words: seq<T.Store>)
    | Quiet(result: int)

  /** Words stored to the memory of environment e. */
  function Stored(k: K, e: nat, words: seq<T.Store>): K {
    k.(pm := T.UserStores(k.pm, e, words))
  }

  function Dispatch(k: K, c: nat, call: Call): Outcome
    requires Ready(k, c)
  {
    match call
    case Yield => Switch(k)
    case Destroy(envid) => SysDestroy(k, c, envid)
    case Exofork => SysExofork(k, c)
    case SetStatus(envid, status) => SysSetStatus(k, c, envid, status)
    case SetUpcall(envid, func) => SysSetUpcall(k, c, envid, func)
    case AllocPage(envid, va, perm) => SysPageAlloc(k, c, envid, va, perm)
    case MapPage(srcid, srcva, dstid, dstva, perm) => SysPageMap(k, c, srcid, srcva, dstid, dstva, perm)
    case UnmapPage(envid, va) => SysPageUnmap(k, c, envid, va)
    case TrySend(envid, msg, va, perm) => SysIpcTrySend(k, c, envid, msg, va, perm)
    case Recv(va) => SysIpcRecv(k, c, va)
    case Crash => EnvDestroy(k, c, k.cpu[c])
    case Stores(words) => Return(Stored(k, k.cpu[c], words), k.envs[k.cpu[c]].tf.eax)
    case Quiet(r) => Return(k, r)
  }
}
