/**
  The code of kern/env.c, kern/sched.c, kern/syscall.c and trap() of kern/trap.c over the page-map object: an array of
  environments, the linked env_free_list through it, and the CPUs' current environments, all updated in place.  Each
  method is tied to the kernel model, and the calls to the invariant they keep.
*/
module KernelCode {
  import opened Mmu
  import P = Pmap
  import S = Kernel
  import opened Kernel
  import opened Errors
  import opened KernelInv
  import opened FreeList
  import opened Arith
  import opened Smp
  import EnvIds
  import E = Effects
  import TrapRuns
  import IpcLog
  import Limits
  import M = PageMap

  /** How a call leaves its CPU. */
  datatype Ret = Value(r: int) | GaveUp | Panicked

  ghost predicate Matches(o: Outcome, ret: Ret, k: K) {
    match o
    case Return(k', r) => ret == Value(r) && k == k'
    case Switch(k') => ret == GaveUp && k == k'
    case Panic(k') => ret == Panicked && k == k'
  }

  datatype Transferred = Moved | Occupied | Lost

  datatype Chosen = Running | InMonitor | NoIdleEnv

  /** env_init: all slots free and linked in the order of the table. */
  method EnvInit(envs: array<Env>, link: array<int>) returns (head: int)
    requires envs.Length == link.Length > 0
    modifies envs, link
    ensures Chain(head, link[..], Range(0, link.Length)) && head == 0
    ensures envs[..] == FreshEnvs(envs.Length)
  {
    var n := envs.Length;
    forall i | 0 <= i < n {
      envs[i] := UNBORN;
    }
    head := 0;
    var i := 1;
    while i < n
      invariant 1 <= i <= n
      invariant forall j :: 0 <= j < n ==> envs[j] == UNBORN.(idle := j < i - 1)
      invariant forall j :: 0 <= j < i - 1 ==> link[j] == j + 1
    {
      envs[i - 1] := envs[i - 1].(idle := true);
      link[i - 1] := i;
      i := i + 1;
    }
    link[n - 1] := NIL;
    var f := Range(0, n);
    forall j | 0 <= j < n
      ensures link[..][f[j]] == FreeList.After(f, j)
    {
    }
  }

  class Kern {
    const mm: M.PageMap
    const kdir: Frame
    const envs: array<Env>
    /** env_link of every environment, and env_free_list. */
    const link: array<int>
    var head: int
    /** cpu_env of every CPU. */
    var cpu: seq<int>
    ghost var free: seq<nat>

    ghost predicate Valid()
      reads this, link, mm, mm.refs, mm.link, mm.mem
    {
      && mm.Valid() && Apart()
      && envs.Length == link.Length && Chain(head, link[..], free)
    }

    ghost predicate Apart()
      reads this
    {
      && link != mm.link && (link as object) != (mm.refs as object) && (link as object) != (mm.mem as object)
      && (envs as object) != (mm.refs as object) && (envs as object) != (mm.mem as object)
      && (envs as object) != (mm.link as object) && (envs as object) != (link as object)
    }

    ghost function State(): K
      reads this, envs, mm, mm.refs, mm.mem
    {
      K(mm.State(), envs[..], free, cpu, kdir)
    }

    /** The kernel after mem_init and env_init, on a machine with n slots and ncpu CPUs. */
    constructor (mm: M.PageMap, kdir: Frame, n: nat, ncpu: nat)
      requires mm.Valid() && n > 0
      ensures Valid() && fresh(envs) && fresh(link) && this.mm == mm
      ensures State() == K(mm.State(), FreshEnvs(n), Range(0, n), seq(ncpu, _ => -1), kdir)
    {
      this.mm, this.kdir := mm, kdir;
      envs, link := new Env[n], new int[n];
      cpu, free := seq(ncpu, _ => -1), Range(0, n);
      new;
      head := EnvInit(envs, link);
    }

    method PutEnv(e: nat, v: Env)
      requires Valid() && e < envs.Length
      modifies envs
      ensures Valid() && State() == SetEnv(old(State()), e, v)
    {
      envs[e] := v;
      assert envs[..] == old(envs[..])[e := v];
    }

    // ----- kern/env.c and kern/sched.c -----

    /** env_run: afterwards no CPU is inside the kernel, and the CPUs and the environments they run still match. */
    method EnvRun(c: nat, e: nat)
      requires Valid() && c < |cpu| && e < envs.Length && cpu[c] < envs.Length
      modifies this`cpu, envs
      ensures Valid() && State() == S.EnvRun(old(State()), c, e) && cpu == old(cpu)[c := e]
      ensures KInv(old(State()), c) && MayRun(old(State()), c, e) ==> KInv(State(), -1)
    {
      hide P.Inv, KInv, Chain;
      ghost var k := State();
      if cpu[c] >= 0 && envs[cpu[c]].status == RUNNING {
        PutEnv(cpu[c], envs[cpu[c]].(status := RUNNABLE));
      }
      cpu := cpu[c := e];
      PutEnv(e, envs[e].(status := RUNNING, runs := envs[e].runs + 1));
      if KInv(k, c) && MayRun(k, c, e) {
        EnvRunKeeps(k, c, e);
      }
    }

    /** sched_yield: the cyclic scan, the monitor test and the idle environment.  In a consistent kernel it never lacks
        an idle environment, enters the monitor exactly if nothing but idle environments can run, and otherwise leaves
        the CPU a current one. */
    method SchedYield(c: nat) returns (o: Chosen)
      requires Valid() && 0 < envs.Length && c < |cpu| && cpu[c] < envs.Length
      modifies this`cpu, envs
      ensures Valid() && |cpu| == |old(cpu)|
      ensures match S.SchedYield(old(State()), c)
              case Ran(k) => o == Running && State() == k
              case Monitor(k) => o == InMonitor && State() == k
              case NoIdle(k) => o == NoIdleEnv && State() == k
      ensures KInv(old(State()), c) ==>
                if o == Running then KInv(State(), -1) && cpu[c] >= 0 else o == InMonitor && KInv(State(), c)
      ensures KInv(old(State()), c) ==>
                && (o == InMonitor <==> E.Finished(old(State())))
                && E.Switched(old(State()), State(), c, if o == Running then cpu[c] else -1)
    {
      hide Chain, E.Finished, E.Switched;
      ghost var k0 := State();
      o := Choose(c);
      KeptBySched(k0, c);
      if KInv(k0, c) {
        TrapRuns.EnvsOf(k0, c);
        E.SchedEffect(k0, c);
      }
    }

    method Choose(c: nat) returns (o: Chosen)
      requires Valid() && 0 < envs.Length && c < |cpu| && cpu[c] < envs.Length
      modifies this`cpu, envs
      ensures Valid() && |cpu| == |old(cpu)|
      ensures match S.SchedYield(old(State()), c)
              case Ran(k) => o == Running && State() == k
              case Monitor(k) => o == InMonitor && State() == k
              case NoIdle(k) => o == NoIdleEnv && State() == k
    {
      hide S.EnvRun, KInv, MayRun, Chain;
      var i := -1;
      if cpu[c] < 0 {
        i := 0;
      } else if envs[cpu[c]].status == RUNNING {
        i := cpu[c] + 1;
        PutEnv(cpu[c], envs[cpu[c]].(status := RUNNABLE));
      }
      if i == -1 {
        i := cpu[c];
      }
      assert State() == Unrun(old(State()), c) && i == ScanStart(old(State()), c);
      var found := FindRunnable(i);
      if found >= 0 {
        EnvRun(c, found);
        return Running;
      }
      var busy := AnyBusy();
      ghost var k1 := State();
      assert !busy <==> forall j: nat :: j < |k1.envs| ==>
               k1.envs[j].idle || (k1.envs[j].status != RUNNABLE && k1.envs[j].status != RUNNING);
      if !busy {
        return InMonitor;
      }
      if c < envs.Length && (envs[c].status == RUNNABLE || envs[c].status == RUNNING) {
        EnvRun(c, c);
        return Running;
      }
      return NoIdleEnv;
    }

    /** The scan: NENV slots from i on, wrapping around. */
    method FindRunnable(start: nat) returns (found: int)
      requires 0 < envs.Length && start <= envs.Length
      ensures found == Scan(envs[..], start, envs.Length)
    {
      hide SameSlot;
      var n := envs.Length;
      var i, cnt := start, 0;
      assert SameSlot(i, start + cnt, n) by {
        Reflexive(start, n);
      }
      while cnt < n
        invariant 0 <= cnt <= n && 0 <= i <= n && SameSlot(i, start + cnt, n)
        invariant Scan(envs[..], start, n) == Scan(envs[..], start + cnt, n - cnt)
      {
        NextSlot(i, start + cnt, n);
        if i >= n {
          i := i % n;
        }
        if !envs[i].idle && envs[i].status == RUNNABLE {
          return i;
        }
        i := i + 1;
        cnt := cnt + 1;
      }
      return -1;
    }

    /** Whether some environment other than the idle ones could still run. */
    method AnyBusy() returns (busy: bool)
      ensures !busy <==> forall j: nat :: j < envs.Length ==>
                envs[..][j].idle || (envs[..][j].status != RUNNABLE && envs[..][j].status != RUNNING)
    {
      var i := 0;
      while i < envs.Length
        invariant 0 <= i <= envs.Length
        invariant forall j: nat :: j < i ==> envs[j].idle || (envs[j].status != RUNNABLE && envs[j].status != RUNNING)
      {
        if !envs[i].idle && (envs[i].status == RUNNABLE || envs[i].status == RUNNING) {
          assert !(envs[..][i].idle || (envs[..][i].status != RUNNABLE && envs[..][i].status != RUNNING));
          return true;
        }
        i := i + 1;
      }
      return false;
    }

    /** envid2env: 0 is the caller; any other identifier resolves to the live environment that carries it,
        wherever it is
        in the table, and is refused only if there is none or, on request, if it is neither the caller nor its child. */
    method Envid2Env(c: nat, envid: int, checkperm: bool) returns (e: int)
      requires 0 < envs.Length && c < |cpu| && 0 <= cpu[c] < envs.Length
      ensures -1 <= e < envs.Length && (envid == 0 ==> e == cpu[c])
      ensures envid != 0 && e >= 0 ==>
                && envs[e].status != FREE && envs[e].id == envid
                && (checkperm ==> e == cpu[c] || envs[e].parent == envs[cpu[c]].id)
      ensures IdsOk(State()) && envid != 0 && e < 0 ==>
                forall i :: 0 <= i < envs.Length && envs[i].status != FREE && envs[i].id == envid ==>
                  checkperm && i != cpu[c] && envs[i].parent != envs[cpu[c]].id
      ensures match EnvId2Env(State(), c, envid, checkperm)
              case Found(s) => e == s
              case BadEnv => e == -1
    {
      ghost var k := State();
      if IdsOk(k) && envid != 0 {
        forall i | 0 <= i < envs.Length && envs[i].status != FREE && envs[i].id == envid
          ensures envid > 0 && envid % envs.Length == i
        {
          EnvIds.LiveDistinct(k, i, i);
        }
      }
      if envid < 0 {
        return -1;
      }
      if envid == 0 {
        return cpu[c];
      }
      e := envid % envs.Length;
      if envs[e].status == FREE || envs[e].id != envid {
        return -1;
      }
      if checkperm && e != cpu[c] && envs[e].parent != envs[cpu[c]].id {
        return -1;
      }
    }

    /** env_free: the address space, and the slot pushed on the linked free list. */
    method EnvFree(e: nat)
      requires Valid() && P.Inv(State().pm, {}) && e < envs.Length && e in mm.dirs && e !in free
      modifies this, envs, link, mm, mm.refs, mm.link, mm.mem
      ensures Valid() && State() == S.EnvFree(old(State()), e) && cpu == old(cpu)
    {
      hide P.Inv, P.FreeSpace, Chain;
      mm.FreeEnv(e, {});
      PutEnv(e, envs[e].(status := FREE));
      ghost var l := link[..];
      link[e] := head;
      assert link[..] == l[e := head];
      M.ChainPush(l, head, free, e);
      head := e;
      free := [e] + free;
    }

    /** env_destroy; giving up the CPU is the call of sched_yield at its end. */
    method EnvDestroy(c: nat, e: nat) returns (ret: Ret)
      requires Valid() && P.Inv(State().pm, {}) && c < |cpu| && e < envs.Length && e in mm.dirs && e !in free
      modifies this, envs, link, mm, mm.refs, mm.link, mm.mem
      ensures Valid() && Matches(S.EnvDestroy(old(State()), c, e), ret, State())
    {
      hide P.Inv, P.FreeSpace, Chain;
      if envs[e].status == RUNNING && cpu[c] != e {
        PutEnv(e, envs[e].(status := DYING));
        return Value(0);
      }
      EnvFree(e);
      if cpu[c] == e {
        cpu := cpu[c := -1];
        return GaveUp;
      }
      return Value(0);
    }

    /** env_alloc: the first slot of the linked list, unlinked once its address space is there; or an error. */
    method EnvAlloc(parent: int) returns (r: int)
      requires Valid() && P.Inv(State().pm, {}) && P.KernelTemplate(kdir) && envs.Length > 0
      requires (forall e :: e in free ==> e < envs.Length) && (free != [] ==> free[0] !in mm.dirs)
      modifies this, envs, mm, mm.refs, mm.link, mm.mem
      ensures Valid() && (State(), r) == S.EnvAlloc(old(State()), parent) && P.Inv(State().pm, {})
    {
      hide P.Inv, P.SetupVm, NextId, Wrap32, Chain;
      HeadOf(head, link[..], free);
      if head == NIL {
        return -E_NO_FREE_ENV;
      }
      var e := head;
      assert e in free;
      var ok := mm.SetupVm(e, kdir);
      if ok < 0 {
        return -E_NO_MEM;
      }
      var generation := Wrap32(envs[e].id + GENERATION);
      generation := generation - generation % envs.Length;
      if generation <= 0 {
        generation := GENERATION;
      }
      var v := envs[e].(id := generation + e, parent := parent, idle := false, status := RUNNABLE, runs := 0);
      v := v.(tf := Tf(0, 0), upcall := 0, recving := false);
      NextIdBody(envs[e].id, e, envs.Length);
      PutEnv(e, v);
      ChainTail(head, link[..], free);
      head := link[e];
      free := free[1..];
      return e;
    }

    // ----- kern/syscall.c -----

    method SysExofork(c: nat) returns (ret: Ret)
      requires Valid() && Entered(State(), c) && Ready(State(), c)
      modifies this, envs, mm, mm.refs, mm.link, mm.mem
      ensures Valid() && Matches(S.SysExofork(old(State()), c), ret, State())
    {
      hide P.Inv, S.EnvAlloc, IpcOk, IdleOk, Chain;
      FreeHead(State(), c);
      var cur := envs[cpu[c]];
      var r := EnvAlloc(cur.id);
      if r < 0 {
        return Value(r);
      }
      PutEnv(r, envs[r].(tf := cur.tf, status := NOT_RUNNABLE));
      PutEnv(r, envs[r].(tf := envs[r].tf.(eax := 0)));
      return Value(envs[r].id);
    }

    /** sys_env_set_status.  It breaks the kernel exactly if it stores a status that the kernel gives out itself, or
        takes a blocked receiver out of NOT_RUNNABLE. */
    method SysSetStatus(c: nat, envid: int, status: Status) returns (ret: Ret)
      requires Valid() && Ready(State(), c)
      modifies envs
      ensures Valid() && Matches(S.SysSetStatus(old(State()), c, envid, status), ret, State())
      ensures Entered(old(State()), c) && cpu[c] >= |cpu| && ret == Value(0) ==>
                var e := EnvId2Env(old(State()), c, envid, true).slot;
                (KInv(State(), c) <==>
                   status !in {FREE, DYING, RUNNING} && (old(envs[..])[e].recving ==> status == NOT_RUNNABLE))
    {
      hide P.Inv, KInv, Entered, Chain;
      ghost var k := State();
      var e := Envid2Env(c, envid, true);
      if e < 0 {
        return Value(-E_BAD_ENV);
      }
      if envs[e].status != RUNNABLE && envs[e].status != NOT_RUNNABLE {
        return Value(-E_INVAL);
      }
      PutEnv(e, envs[e].(status := status));
      if Entered(k, c) && cpu[c] >= |cpu| {
        Limits.SetStatusExact(k, c, envid, status);
      }
      return Value(0);
    }

    method SysSetUpcall(c: nat, envid: int, func: nat) returns (ret: Ret)
      requires Valid() && Ready(State(), c)
      modifies envs
      ensures Valid() && Matches(S.SysSetUpcall(old(State()), c, envid, func), ret, State())
    {
      hide Chain;
      var e := Envid2Env(c, envid, true);
      if e < 0 {
        return Value(-E_BAD_ENV);
      }
      PutEnv(e, envs[e].(upcall := func));
      return Value(0);
    }

    method SysDestroy(c: nat, envid: int) returns (ret: Ret)
      requires Valid() && Entered(State(), c) && Ready(State(), c)
      modifies this, envs, link, mm, mm.refs, mm.link, mm.mem
      ensures Valid() && Matches(S.SysDestroy(old(State()), c, envid), ret, State())
    {
      hide P.Inv, IpcOk, IdleOk, CpuOk, S.EnvDestroy, Chain;
      var e := Envid2Env(c, envid, true);
      if e < 0 {
        return Value(-E_BAD_ENV);
      }
      IdFound(State(), c, envid, true);
      ret := EnvDestroy(c, e);
    }

    method SysPageAlloc(c: nat, envid: int, va: nat, perm: Perm) returns (ret: Ret)
      requires Valid() && Entered(State(), c) && Ready(State(), c)
      modifies this, envs, mm, mm.refs, mm.link, mm.mem
      ensures Valid() && Matches(S.SysPageAlloc(old(State()), c, envid, va, perm), ret, State())
    {
      hide P.Inv, IpcOk, IdleOk, CpuOk, IdsOk, ListOk, PageAllocAt;
      var e := Envid2Env(c, envid, true);
      if e < 0 {
        return Value(-E_BAD_ENV);
      }
      if va >= UTOP || !(perm <= PTE_SYSCALL) {
        return Value(-E_INVAL);
      }
      IdFound(State(), c, envid, true);
      var r := PageAllocInto(e, va, perm);
      return Value(r);
    }

    /** The allocation and insertion of sys_page_alloc. */
    method PageAllocInto(e: nat, va: nat, perm: Perm) returns (r: int)
      requires Valid() && P.Inv(mm.State(), {}) && e in mm.dirs && va < UTOP
      modifies mm, mm.refs, mm.link, mm.mem
      ensures Valid() && (mm.State(), r) == PageAllocAt(old(mm.State()), e, va, perm)
    {
      hide P.Inv, P.PageInsert, P.PageAlloc, Chain;
      ghost var s0 := mm.State();
      var p := mm.Alloc();
      if p == NIL {
        return -E_NO_MEM;
      }
      FreshPage(s0);
      var ok := mm.Insert(e, va, p, perm, {p as int});
      if ok != 0 {
        InLimbo(mm.State(), p);
        mm.Free(p);
        return -E_NO_MEM;
      }
      return 0;
    }

    method SysPageMap(c: nat, srcid: int, srcva: nat, dstid: int, dstva: nat, perm: Perm) returns (ret: Ret)
      requires Valid() && Entered(State(), c) && Ready(State(), c)
      requires Allowed(State(), c, MapPage(srcid, srcva, dstid, dstva, perm))
      modifies this, envs, mm, mm.refs, mm.link, mm.mem
      ensures Valid() && Matches(S.SysPageMap(old(State()), c, srcid, srcva, dstid, dstva, perm), ret, State())
    {
      hide P.Inv, KInv, PageMapAt, RoomFor, Chain;
      CurrentLive(State(), c);
      var src := Envid2Env(c, srcid, true);
      if src < 0 {
        return Value(-E_BAD_ENV);
      }
      var dst := Envid2Env(c, dstid, false);
      if dst < 0 {
        return Value(-E_BAD_ENV);
      }
      IdFound(State(), c, srcid, true);
      IdFound(State(), c, dstid, false);
      var r := MapInto(src, srcva, dst, dstva, perm);
      return Value(r);
    }

    /** The checks, the lookup and the insertion of sys_page_map. */
    method MapInto(src: nat, srcva: nat, dst: nat, dstva: nat, perm: Perm) returns (r: int)
      requires Valid() && P.Inv(mm.State(), {}) && src in mm.dirs && dst in mm.dirs && RoomFor(mm.State(), src, srcva)
      modifies mm, mm.refs, mm.link, mm.mem
      ensures Valid() && (mm.State(), r) == PageMapAt(old(mm.State()), src, srcva, dst, dstva, perm)
    {
      hide P.Inv, P.PageInsert, Chain;
      if !UserPage(srcva) || !UserPage(dstva) {
        return -E_INVAL;
      }
      UserDirectoryEntries(srcva);
      UserDirectoryEntries(dstva);
      M.InvWalkable(mm.State(), {}, src, PDX(srcva));
      var p, table := mm.Lookup(src, srcva);
      if p == NIL {
        return -E_INVAL;
      }
      var pte := mm.mem[table][PTX(srcva)];
      if PTE_W !in pte.perm && PTE_W in perm {
        return -E_INVAL;
      }
      UserPageMappable(mm.State(), {}, src, PDX(srcva), PTX(srcva));
      r := mm.Insert(dst, dstva, p, perm, {});
    }

    method SysPageUnmap(c: nat, envid: int, va: nat) returns (ret: Ret)
      requires Valid() && Entered(State(), c) && Ready(State(), c)
      modifies this, envs, mm, mm.refs, mm.link, mm.mem
      ensures Valid() && Matches(S.SysPageUnmap(old(State()), c, envid, va), ret, State())
    {
      hide P.Inv, IpcOk, IdleOk, CpuOk, IdsOk, ListOk, P.PageRemove;
      var e := Envid2Env(c, envid, true);
      if e < 0 {
        return Value(-E_BAD_ENV);
      }
      if !UserPage(va) {
        return Value(-E_INVAL);
      }
      IdFound(State(), c, envid, true);
      UserDirectoryEntries(va);
      M.InvWalkable(mm.State(), {}, e, PDX(va));
      mm.Remove(e, va);
      return Value(0);
    }

    method SysIpcTrySend(c: nat, envid: int, value: int, srcva: nat, perm: Perm) returns (ret: Ret)
      requires Valid() && Entered(State(), c) && Ready(State(), c)
      requires Allowed(State(), c, TrySend(envid, value, srcva, perm))
      modifies this, envs, mm, mm.refs, mm.link, mm.mem
      ensures Valid() && Matches(S.SysIpcTrySend(old(State()), c, envid, value, srcva, perm), ret, State())
    {
      hide P.Inv, IdleOk, CpuOk, IdsOk, ListOk, SendTo, RoomFor, Chain, P.Pte;
      var e := Envid2Env(c, envid, false);
      if e < 0 {
        return Value(-E_BAD_ENV);
      }
      if !envs[e].recving {
        return Value(-E_IPC_NOT_RECV);
      }
      IdFound(State(), c, envid, false);
      CurrentInDirs(State(), c);
      if srcva != IPC_NO_PAGE {
        var ok := Sendable(c, srcva, perm);
        if !ok {
          return Value(-E_INVAL);
        }
      }
      ret := Send(c, e, value, srcva, perm);
    }

    method Send(c: nat, e: nat, value: int, srcva: nat, perm: Perm) returns (ret: Ret)
      requires Valid() && P.Inv(mm.State(), {}) && Ready(State(), c) && e < envs.Length
      requires e in mm.dirs && cpu[c] in mm.dirs
      requires (srcva != IPC_NO_PAGE ==> RoomFor(mm.State(), cpu[c], srcva))
      requires (envs[e].dstva == IPC_NO_PAGE || UserPage(envs[e].dstva))
      modifies this, envs, mm, mm.refs, mm.link, mm.mem
      ensures Valid() && Matches(SendTo(old(State()), c, e, value, srcva, perm), ret, State())
    {
      hide P.Inv, PageMapAt, RoomFor, Chain, P.Pte, P.Inv, UserPage;
      PutEnv(e, envs[e].(perm := {}));
      if srcva != IPC_NO_PAGE && envs[e].dstva != IPC_NO_PAGE {
        var t := Transfer(cpu[c], srcva, e, envs[e].dstva, perm);
        if t == Occupied {
          return Value(-E_NO_MEM);
        }
        if t == Lost {
          return Panicked;
        }
        PutEnv(e, envs[e].(perm := perm));
      }
      var v := envs[e].(from := envs[cpu[c]].id, value := value);
      PutEnv(e, v.(tf := v.tf.(eax := 0), recving := false, status := RUNNABLE));
      return Value(0);
    }

    /** The page part of a send: the receiver's address must be unmapped before and mapped after. */
    method Transfer(src: nat, srcva: nat, e: nat, dstva: nat, perm: Perm) returns (t: Transferred)
      requires Valid() && P.Inv(mm.State(), {}) && src in mm.dirs && e in mm.dirs && RoomFor(mm.State(), src, srcva)
      requires UserPage(dstva)
      modifies mm, mm.refs, mm.link, mm.mem
      ensures Valid()
      ensures t == Occupied <==> Present(P.Pte(old(mm.State()), e, PDX(dstva), PTX(dstva)))
      ensures t == Occupied ==> mm.State() == old(mm.State())
      ensures t != Occupied ==> mm.State() == PageMapAt(old(mm.State()), src, srcva, e, dstva, perm).0
      ensures t != Occupied ==> (t == Moved <==> Present(P.Pte(mm.State(), e, PDX(dstva), PTX(dstva))))
    {
      hide P.Inv, Chain, PageMapAt, RoomFor;
      var present := Mapped(e, dstva);
      if present {
        return Occupied;
      }
      PageMapAtInv(mm.State(), src, srcva, e, dstva, perm);
      MapAtDirs(mm.State(), src, srcva, e, dstva, perm);
      var _ := MapInto(src, srcva, e, dstva, perm);
      var there := Mapped(e, dstva);
      t := if there then Moved else Lost;
    }

    /** Whether page_lookup finds a page. */
    method Mapped(e: nat, va: nat) returns (b: bool)
      requires Valid() && P.Inv(mm.State(), {}) && e in mm.dirs && UserPage(va)
      ensures b == Present(P.Pte(mm.State(), e, PDX(va), PTX(va)))
    {
      hide P.Inv, Chain;
      UserDirectoryEntries(va);
      M.InvWalkable(mm.State(), {}, e, PDX(va));
      var p, _ := mm.Lookup(e, va);
      b := p != NIL;
    }

    method Sendable(c: nat, srcva: nat, perm: Perm) returns (b: bool)
      requires Valid() && P.Inv(mm.State(), {}) && Ready(State(), c) && cpu[c] in mm.dirs
      ensures b == SendablePage(State(), c, srcva, perm)
    {
      hide P.Inv, Chain;
      if !UserPage(srcva) || !(perm <= PTE_SYSCALL) {
        return false;
      }
      UserDirectoryEntries(srcva);
      M.InvWalkable(mm.State(), {}, cpu[c], PDX(srcva));
      var p, table := mm.Lookup(cpu[c], srcva);
      if p == NIL {
        return false;
      }
      var pte := mm.mem[table][PTX(srcva)];
      b := PTE_W in pte.perm || PTE_W !in perm;
    }

    /** sys_ipc_recv up to its first sched_yield.  A receiver that is accepted is blocked, with its slot as it was, and
        the kernel is consistent without it running; a bad address changes nothing. */
    method SysIpcRecv(c: nat, dstva: nat) returns (ret: Ret)
      requires Valid() && Ready(State(), c)
      modifies envs
      ensures Valid() && Matches(S.SysIpcRecv(old(State()), c, dstva), ret, State())
      ensures ret != GaveUp ==> State() == old(State()) && dstva != IPC_NO_PAGE && !UserPage(dstva)
      ensures ret == GaveUp ==>
                && envs[cpu[c]].recving && !Eligible(envs[..], cpu[c])
                && IpcLog.Slot(envs[cpu[c]]) == IpcLog.Slot(old(envs[..])[cpu[c]])
      ensures Entered(old(State()), c) && cpu[c] >= |cpu| ==> KInv(State(), c)
    {
      hide P.Inv, KInv, Entered, Chain;
      ghost var k := State();
      if Entered(k, c) && cpu[c] >= |cpu| {
        RecvOk(k, c, dstva);
        EnteredKInv(k, c);
      }
      if dstva != IPC_NO_PAGE && !UserPage(dstva) {
        return Value(-E_INVAL);
      }
      PutEnv(cpu[c], envs[cpu[c]].(recving := true, dstva := dstva));
      PutEnv(cpu[c], envs[cpu[c]].(status := NOT_RUNNABLE));
      return GaveUp;
    }

    // ----- kern/trap.c -----

    /** trap_dispatch: whatever a process asks for, on every path, the kernel stays consistent; if the call returns, to
        the same running environment. */
    method TrapDispatch(c: nat, call: Call) returns (ret: Ret)
      requires Valid() && Entered(State(), c) && Ready(State(), c) && Allowed(State(), c, call)
      modifies this, envs, link, mm, mm.refs, mm.link, mm.mem
      ensures Valid() && Matches(S.Dispatch(old(State()), c, call), ret, State())
      ensures |cpu| == |old(cpu)| && (ret.Value? ==> Entered(State(), c) && cpu == old(cpu))
      ensures ret == GaveUp ==> KInv(State(), c)
      ensures ret == Panicked ==> Entered(State(), c)
    {
      ghost var k := State();
      DispatchOk(k, c, call);
      ret := Perform(c, call);
    }

    method Perform(c: nat, call: Call) returns (ret: Ret)
      requires Valid() && Entered(State(), c) && Ready(State(), c) && Allowed(State(), c, call)
      modifies this, envs, link, mm, mm.refs, mm.link, mm.mem
      ensures Valid() && Matches(S.Dispatch(old(State()), c, call), ret, State())
    {
      hide P.Inv, KInv, Entered, Chain, S.EnvDestroy, S.SysDestroy, S.SysExofork, S.SysSetStatus, S.SysSetUpcall,
        S.SysPageAlloc,
        S.SysPageMap, S.SysPageUnmap, S.SysIpcTrySend, S.SysIpcRecv, Allowed, Matches;
      match call
      case Yield => ret := GaveUp; Matched(State());
      case Destroy(envid) => ret := SysDestroy(c, envid);
      case Exofork => ret := SysExofork(c);
      case SetStatus(envid, status) => ret := SysSetStatus(c, envid, status);
      case SetUpcall(envid, func) => ret := SysSetUpcall(c, envid, func);
      case AllocPage(envid, va, perm) => ret := SysPageAlloc(c, envid, va, perm);
      case MapPage(srcid, srcva, dstid, dstva, perm) => ret := SysPageMap(c, srcid, srcva, dstid, dstva, perm);
      case UnmapPage(envid, va) => ret := SysPageUnmap(c, envid, va);
      case TrySend(envid, msg, va, perm) => ret := SysIpcTrySend(c, envid, msg, va, perm);
      case Recv(va) => ret := SysIpcRecv(c, va);
      case Crash =>
        CurrentLive(State(), c);
        ret := EnvDestroy(c, cpu[c]);
      case Stores(words) =>
        CurrentLive(State(), c);
        mm.StoreWords(cpu[c], words);
        ret := Value(envs[cpu[c]].tf.eax);
        Matched(State());
      case Quiet(r) => ret := Value(r); Matched(State());
    }

    /**
      trap() with the lock held, up to the unlock in env_run: collect a zombie, or save the frame, dispatch, and resume
      or reschedule.  On the steps of module Smp this is the part of a run that CPU c takes on its own: ss lists its
      states, from s, in which c has just taken the lock, to one in which it is about to release it or has halted.
    */
    method Trap(c: nat, tf: Tf, call: Call, ghost s: Smp.S) returns (resumed: bool, ghost ss: seq<Smp.S>)
      requires Valid() && SysInv(s) && s.k == State() && c < |s.phase| && s.phase[c].Entering?
      requires TrapAllowed(State(), c, tf, call)
      modifies this, envs, link, mm, mm.refs, mm.link, mm.mem
      ensures Valid() && Steps(ss, c, tf, call) && ss[0] == s
      ensures var z := ss[|ss| - 1];
              SysInv(z) && z.k == State() && |z.phase| == |s.phase| && z.phase[c] == if resumed then Unlock1 else Halted
      ensures resumed ==> KInv(State(), -1) && c < |cpu| && cpu[c] >= 0
      ensures !Zombie(old(State()), c) ==> Answers(Saved(old(State()), c, tf), State(), c, call, tf, resumed)
    {
      hide P.Inv, KInv, Entered, Chain, SysInv, S.EnvFree, Next, Steps, Allowed, Ready, S.Dispatch, Answers;
      NextEnter(s, c, tf, call);
      var e := cpu[c];
      if envs[e].status == DYING {
        ZombieFacts(State(), c);
        EnvFree(e);
        cpu := cpu[c := -1];
        ss := Advance([s], c, tf, call, State(), Yielding);
        resumed, ss := Reschedule(c, tf, call, ss);
      } else {
        PutEnv(e, envs[e].(tf := tf));
        ss := Advance([s], c, tf, call, State(), Body);
        resumed, ss := Serve(c, tf, call, ss);
      }
    }

    /** Dispatch, and what follows from its outcome. */
    method Serve(c: nat, tf: Tf, call: Call, ghost ss0: seq<Smp.S>) returns (resumed: bool, ghost ss: seq<Smp.S>)
      requires Valid() && OnPath(ss0, c, tf, call) && ss0[|ss0| - 1].k == State() && ss0[|ss0| - 1].phase[c].Body?
      requires Ready(State(), c) && Allowed(State(), c, call)
      modifies this, envs, link, mm, mm.refs, mm.link, mm.mem
      ensures Valid() && OnPath(ss, c, tf, call) && ss[0] == ss0[0] && ss[|ss| - 1].k == State()
      ensures |ss[|ss| - 1].phase| == |ss0[|ss0| - 1].phase|
      ensures ss[|ss| - 1].phase[c] == if resumed then Unlock1 else Halted
      ensures resumed ==> KInv(State(), -1) && c < |cpu| && cpu[c] >= 0
      ensures Answers(old(State()), State(), c, call, old(envs[..])[old(cpu)[c]].tf, resumed)
    {
      hide P.Inv, KInv, Chain, SysInv, S.Dispatch, Next, Steps, Allowed, Ready;
      ghost var k := State();
      NextDispatch(ss0[|ss0| - 1], c, tf, call);
      if S.Dispatch(k, c, call).Return? {
        TrapRuns.CallerFrame(k, c, call);
      }
      var ret := TrapDispatch(c, call);
      if ret.Value? {
        CurrentLive(State(), c);
        PutResult(c, ret.r);
        ss := Advance(ss0, c, tf, call, State(), Leave);
        resumed, ss := Resume(c, tf, call, ss);
      } else if ret == GaveUp {
        ss := Advance(ss0, c, tf, call, State(), Yielding);
        resumed, ss := Reschedule(c, tf, call, ss);
      } else {
        ss := Advance(ss0, c, tf, call, State(), Halted);
        resumed := false;
      }
    }

    /** The result of a system call goes to the caller's saved eax. */
    method PutResult(c: nat, r: int)
      requires Valid() && c < |cpu| && 0 <= cpu[c] < envs.Length
      modifies envs
      ensures Valid() && State() == SetResult(old(State()), c, r) && cpu == old(cpu)
      ensures envs[cpu[c]].tf == Tf(r, old(envs[..])[cpu[c]].tf.rest)
    {
      hide Chain;
      PutEnv(cpu[c], envs[cpu[c]].(tf := envs[cpu[c]].tf.(eax := r)));
    }

    /** The end of trap(): the current environment is RUNNING still. */
    method Resume(c: nat, tf: Tf, call: Call, ghost ss0: seq<Smp.S>) returns (resumed: bool, ghost ss: seq<Smp.S>)
      requires Valid() && OnPath(ss0, c, tf, call) && ss0[|ss0| - 1].k == State() && ss0[|ss0| - 1].phase[c].Leave?
      modifies this`cpu, envs
      ensures Valid() && OnPath(ss, c, tf, call) && ss[0] == ss0[0] && ss[|ss| - 1].k == State()
      ensures |ss[|ss| - 1].phase| == |ss0[|ss0| - 1].phase|
      ensures resumed && ss[|ss| - 1].phase[c].Unlock1? && KInv(State(), -1) && c < |cpu| && cpu[c] >= 0
      ensures cpu == old(cpu) && cpu[c] < envs.Length && envs[cpu[c]].tf == old(envs[..])[cpu[c]].tf
    {
      hide P.Inv, KInv, Entered, Chain, SysInv, S.EnvRun, Next, Steps, MayRun;
      NextLeave(ss0[|ss0| - 1], c, tf, call);
      E.EnvRunEffect(State(), c, cpu[c]);
      EnvRun(c, cpu[c]);
      ss := Advance(ss0, c, tf, call, State(), Unlock1);
      resumed := true;
    }

    method Reschedule(c: nat, tf: Tf, call: Call, ghost ss0: seq<Smp.S>) returns (resumed: bool, ghost ss: seq<Smp.S>)
      requires Valid() && OnPath(ss0, c, tf, call) && ss0[|ss0| - 1].k == State() && ss0[|ss0| - 1].phase[c].Yielding?
      modifies this`cpu, envs
      ensures Valid() && OnPath(ss, c, tf, call) && ss[0] == ss0[0] && ss[|ss| - 1].k == State()
      ensures |ss[|ss| - 1].phase| == |ss0[|ss0| - 1].phase|
      ensures ss[|ss| - 1].phase[c] == if resumed then Unlock1 else Halted
      ensures resumed ==> KInv(State(), -1) && c < |cpu| && cpu[c] >= 0
    {
      hide P.Inv, KInv, Entered, Chain, SysInv, S.SchedYield, Next, Steps;
      NextSched(ss0[|ss0| - 1], c, tf, call);
      var o := SchedYield(c);
      resumed := o == Running;
      ss := Advance(ss0, c, tf, call, State(), if resumed then Unlock1 else Halted);
    }
  }

  // ----- the steps of module Smp that trap() takes -----

  /** CPU c's environment was destroyed on another CPU. */
  ghost predicate Zombie(k: K, c: nat) {
    !(c < |k.cpu| && 0 <= k.cpu[c] < |k.envs|) || k.envs[k.cpu[c]].status == DYING
  }

  /** The state in which the frame has been saved. */
  ghost function Saved(k: K, c: nat, tf: Tf): K {
    if Zombie(k, c) then k else SetEnv(k, k.cpu[c], k.envs[k.cpu[c]].(tf := tf))
  }

  /** If the call returns r, its caller resumes with frame f but r in eax. */
  ghost predicate Answers(k: K, k': K, c: nat, call: Call, f: Tf, resumed: bool) {
    Ready(k, c) && Dispatch(k, c, call).Return? ==>
      && resumed && c < |k'.cpu| && k'.cpu[c] == k.cpu[c] && k.cpu[c] < |k'.envs|
      && k'.envs[k.cpu[c]].tf == Tf(Dispatch(k, c, call).r, f.rest)
  }

  /** The call a trap asks for may be dispatched in the state in which the frame has been saved. */
  ghost predicate TrapAllowed(k: K, c: nat, tf: Tf, call: Call) {
    c < |k.cpu| && 0 <= k.cpu[c] < |k.envs| && k.envs[k.cpu[c]].status != DYING ==>
      var k1 := SetEnv(k, k.cpu[c], k.envs[k.cpu[c]].(tf := tf));
      Ready(k1, c) && Allowed(k1, c, call)
  }

  /** Successive states of a run in which only CPU c moves. */
  ghost predicate Steps(ss: seq<Smp.S>, c: nat, tf: Tf, call: Call) {
    |ss| > 0 && forall i :: 0 <= i < |ss| - 1 ==> Next(ss[i], ss[i + 1], c, tf, call)
  }

  ghost predicate OnPath(ss: seq<Smp.S>, c: nat, tf: Tf, call: Call) {
    |ss| > 0 && Steps(ss, c, tf, call) && SysInv(ss[|ss| - 1]) && c < |ss[|ss| - 1].phase|
  }

  lemma Advance(ss: seq<Smp.S>, c: nat, tf: Tf, call: Call, k: K, p: Phase) returns (ss': seq<Smp.S>)
    requires OnPath(ss, c, tf, call)
    requires var s := ss[|ss| - 1]; Next(s, Move(s, c, k, s.lock, p), c, tf, call)
    ensures OnPath(ss', c, tf, call) && |ss'| == |ss| + 1 && ss'[0] == ss[0]
    ensures var s := ss[|ss| - 1]; ss'[|ss'| - 1] == Move(s, c, k, s.lock, p)
  {
    hide SysInv, Next;
    var s := ss[|ss| - 1];
    StepOk(s, Move(s, c, k, s.lock, p), c, tf, call);
    ss' := ss + [Move(s, c, k, s.lock, p)];
  }

  lemma NextEnter(s: Smp.S, c: nat, tf: Tf, call: Call)
    requires SysInv(s) && c < |s.phase| && s.phase[c].Entering?
    ensures KInv(s.k, -1) && c < |s.k.cpu| && 0 <= s.k.cpu[c] < |s.k.envs| && OnPath([s], c, tf, call)
    ensures var e := s.k.cpu[c];
            if s.k.envs[e].status == DYING
            then Next(s, Move(s, c, S.EnvFree(s.k, e).(cpu := s.k.cpu[c := -1]), s.lock, Yielding), c, tf, call)
            else Next(s, Move(s, c, SetEnv(s.k, e, s.k.envs[e].(tf := tf)), s.lock, Body), c, tf, call)
  {
    hide P.Inv, ListOk, IdsOk, IpcOk, IdleOk, LockOk;
    assert HolderOk(s.k, c, s.phase[c]) && PhaseOk(s.k, c, s.phase[c]);
  }

  lemma ZombieFacts(k: K, c: nat)
    requires KInv(k, -1) && c < |k.cpu| && 0 <= k.cpu[c] < |k.envs| && k.envs[k.cpu[c]].status == DYING
    ensures P.Inv(k.pm, {}) && k.cpu[c] in k.pm.dirs && k.cpu[c] !in k.free
  {
    hide P.Inv;
  }

  lemma NextDispatch(s: Smp.S, c: nat, tf: Tf, call: Call)
    requires SysInv(s) && c < |s.phase| && s.phase[c].Body? && Ready(s.k, c) && Allowed(s.k, c, call)
    ensures Entered(s.k, c)
    ensures match Dispatch(s.k, c, call)
            case Return(k', r) =>
              && Next(s, Move(s, c, SetResult(k', c, r), s.lock, Leave), c, tf, call)
              && Entered(k', c) && k'.cpu == s.k.cpu
            case Switch(k') => Next(s, Move(s, c, k', s.lock, Yielding), c, tf, call)
            case Panic(k') => Next(s, Move(s, c, k', s.lock, Halted), c, tf, call)
  {
    hide KInv, LockOk, Dispatch, Allowed;
    assert HolderOk(s.k, c, s.phase[c]);
    DispatchOk(s.k, c, call);
  }

  lemma NextLeave(s: Smp.S, c: nat, tf: Tf, call: Call)
    requires SysInv(s) && c < |s.phase| && s.phase[c].Leave?
    ensures KInv(s.k, c) && c < |s.k.cpu| && 0 <= s.k.cpu[c] < |s.k.envs| && MayRun(s.k, c, s.k.cpu[c])
    ensures Next(s, Move(s, c, S.EnvRun(s.k, c, s.k.cpu[c]), s.lock, Unlock1), c, tf, call)
  {
    hide P.Inv, ListOk, IdsOk, IpcOk, LockOk, S.EnvRun;
    assert HolderOk(s.k, c, s.phase[c]);
  }

  lemma NextSched(s: Smp.S, c: nat, tf: Tf, call: Call)
    requires SysInv(s) && c < |s.phase| && s.phase[c].Yielding?
    ensures KInv(s.k, c) && c < |s.k.cpu| && 0 < |s.k.envs| && s.k.cpu[c] < |s.k.envs|
    ensures match S.SchedYield(s.k, c)
            case Ran(k') => Next(s, Move(s, c, k', s.lock, Unlock1), c, tf, call)
            case Monitor(k') => Next(s, Move(s, c, k', s.lock, Halted), c, tf, call)
            case NoIdle(k') => Next(s, Move(s, c, k', s.lock, Halted), c, tf, call)
  {
    hide P.Inv, KInv, LockOk, S.SchedYield;
    assert HolderOk(s.k, c, s.phase[c]);
    YieldOk(s.k, c);
  }

  // ----- smaller facts -----

  lemma KeptBySched(k: K, c: nat)
    requires 0 < |k.envs| && c < |k.cpu| && k.cpu[c] < |k.envs|
    ensures KInv(k, c) ==>
              match S.SchedYield(k, c)
              case Ran(k') => KInv(k', -1) && c < |k'.cpu| && -1 <= k'.cpu[c] && k'.cpu[c] != -1
              case Monitor(k') => KInv(k', c)
              case NoIdle(k') => false
  {
    hide KInv, S.SchedYield;
    if KInv(k, c) {
      YieldOk(k, c);
      if S.SchedYield(k, c).Ran? {
        CpuInTable(S.SchedYield(k, c).k, c);
      }
    }
  }

  lemma CpuInTable(k: K, c: nat)
    requires KInv(k, -1) && c < |k.cpu|
    ensures -1 <= k.cpu[c] < |k.envs|
  {
    hide P.Inv;
  }

  lemma HeadOf(head: int, link: seq<int>, f: seq<nat>)
    requires Chain(head, link, f)
    ensures head == First(f) && (head == NIL <==> f == []) && (f != [] ==> head == f[0] < |link|)
  {
  }

  lemma EnteredKInv(k: K, c: nat)
    requires Entered(k, c)
    ensures KInv(k, c)
  {
  }

  lemma Matched(k: K)
    ensures Matches(Switch(k), GaveUp, k) && forall r :: Matches(Return(k, r), Value(r), k)
  {
  }

  lemma CurrentLive(k: K, c: nat)
    requires Entered(k, c)
    ensures P.Inv(k.pm, {}) && P.Shape(k.pm) && k.cpu[c] < |k.envs| && k.cpu[c] in k.pm.dirs && k.cpu[c] !in k.free
  {
    hide P.Inv, P.Shape;
    ShapeOf(k.pm);
  }

  lemma ShapeOf(s: P.Pm)
    requires P.Inv(s, {})
    ensures P.Shape(s)
  {
  }

  lemma NextIdBody(id: int, slot: nat, n: nat)
    requires n > 0
    ensures NextId(id, slot, n) ==
              var g := Wrap32(id + GENERATION); (if g - g % n <= 0 then GENERATION else g - g % n) + slot
  {
  }

  lemma FreeHead(k: K, c: nat)
    requires Entered(k, c)
    ensures P.Inv(k.pm, {}) && P.KernelTemplate(k.kdir) && |k.envs| > 0
    ensures (forall e :: e in k.free ==> e < |k.envs|) && (k.free != [] ==> k.free[0] !in k.pm.dirs)
  {
    hide P.Inv;
    if k.free != [] {
      FreeSlot(k);
    }
  }

  /** A page just allocated may be mapped. */
  lemma FreshPage(s: P.Pm)
    requires P.Inv(s, {}) && s.free != []
    ensures P.Inv(P.PageAlloc(s), {s.free[0]}) && P.Mappable(P.PageAlloc(s), {s.free[0]}, s.free[0])
  {
    hide P.Refs, P.Owned, P.Exclusive, P.ZeroFilled, P.RightsNested;
    var p := s.free[0];
    assert p in s.free;
    P.AllocInv(s, {});
    assert {} + {p} == {p};
    P.Unreferenced(P.PageAlloc(s), p);
  }

  lemma InLimbo(s: P.Pm, p: nat)
    requires P.Inv(s, {p})
    ensures p !in s.free
  {
  }

  /** The index i stands for slot x of a table of n. */
  ghost predicate SameSlot(i: nat, x: nat, n: nat) {
    0 < n && i % n == x % n
  }

  lemma Reflexive(x: nat, n: nat)
    requires 0 < n
    ensures SameSlot(x, x, n)
  {
  }

  lemma NextSlot(i: nat, x: nat, n: nat)
    requires i <= n && SameSlot(i, x, n)
    ensures var j := if i >= n then i % n else i; j == x % n && SameSlot(j + 1, x + 1, n)
  {
    var j := if i >= n then i % n else i;
    assert j == x % n by {
      if i == n {
        MulMod(1, 0, n);
      } else {
        MulMod(0, i, n);
      }
    }
    var q := x / n;
    assert x + 1 == q * n + (j + 1);
    if j + 1 < n {
      MulMod(q, j + 1, n);
      MulMod(0, j + 1, n);
    } else {
      MulMod(q + 1, 0, n);
      MulMod(1, 0, n);
    }
  }
}
