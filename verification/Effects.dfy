/**
  What each system call changes, and what it leaves alone (kern/syscall.c, kern/env.c): for every call, in terms of the
  environment table, the flat page map and the CPUs before and after.
*/
module Effects {
  import opened Mmu
  import opened Pmap
  import opened Kernel
  import opened Errors
  import opened KernelInv
  import opened UpperHalf
  import S = Sched

  // ----- frames -----

  /** Only environment e's entry of the table may differ. */
  ghost predicate OnlyEnv(k: K, k': K, e: nat) {
    && |k'.envs| == |k.envs| && (forall i :: 0 <= i < |k.envs| && i != e ==> k'.envs[i] == k.envs[i])
    && k'.free == k.free && k'.cpu == k.cpu && k'.kdir == k.kdir
  }

  ghost predicate OnlyMemory(k: K, k': K) {
    k'.envs == k.envs && k'.free == k.free && k'.cpu == k.cpu && k'.kdir == k.kdir
  }

  /** The environment a call names, as the caller may name it. */
  function Named(k: K, c: nat, envid: int, checkperm: bool): int
    requires Ready(k, c)
  {
    match EnvId2Env(k, c, envid, checkperm)
    case Found(e) => e
    case BadEnv => -1
  }

  // ----- environments -----

  /** sys_env_set_status stores its argument, if the target was RUNNABLE or NOT_RUNNABLE, and does nothing else. */
  lemma SetStatusEffect(k: K, c: nat, envid: int, status: Status)
    requires Entered(k, c) && Ready(k, c)
    ensures var o := Dispatch(k, c, SetStatus(envid, status)); var e := Named(k, c, envid, true);
            && o.Return?
            && (e < 0 ==> o.r == -E_BAD_ENV && o.k == k)
            && (e >= 0 && k.envs[e].status !in {RUNNABLE, NOT_RUNNABLE} ==> o.r == -E_INVAL && o.k == k)
            && (e >= 0 && k.envs[e].status in {RUNNABLE, NOT_RUNNABLE} ==>
                  && o.r == 0 && OnlyEnv(k, o.k, e) && o.k.pm == k.pm
                  && o.k.envs[e].status == status && o.k.envs[e].(status := k.envs[e].status) == k.envs[e])
  {
    hide KInv;
  }

  lemma SetUpcallEffect(k: K, c: nat, envid: int, func: nat)
    requires Entered(k, c) && Ready(k, c)
    ensures var o := Dispatch(k, c, SetUpcall(envid, func)); var e := Named(k, c, envid, true);
            && o.Return?
            && (e < 0 ==> o.r == -E_BAD_ENV && o.k == k)
            && (e >= 0 ==>
                  && o.r == 0 && OnlyEnv(k, o.k, e) && o.k.pm == k.pm
                  && o.k.envs[e].upcall == func && o.k.envs[e].(upcall := k.envs[e].upcall) == k.envs[e])
  {
    hide KInv;
  }

  /** The address space of e is gone: its directory, and every page that only e's tables named. */
  ghost predicate SpaceFreed(s: Pm, s': Pm, e: nat) {
    && s'.dirs == s.dirs - {e}
    && (forall i: nat, d: nat, t: nat :: d < UPDES ==> Pte(s', i, d, t) == if i == e then ZERO else Pte(s, i, d, t))
    && (forall r: Ref :: Target(s', r) == if r.e == e then -1 else Target(s, r))
    && (forall p :: p in s'.free <==> p in s.managed && (forall r: Ref :: Target(s, r) == p ==> r.e == e))
  }

  /** Environment e is freed: its slot first on the free list, its memory back, and its CPU without it. */
  ghost predicate EnvGone(k: K, k': K, e: nat)
    requires e < |k.envs|
  {
    && |k'.envs| == |k.envs| && (forall i :: 0 <= i < |k.envs| && i != e ==> k'.envs[i] == k.envs[i])
    && k'.envs[e].status == FREE && k'.envs[e].(status := k.envs[e].status) == k.envs[e]
    && |k'.free| == |k.free| + 1 && k'.free[0] == e && k'.free[1..] == k.free && k'.kdir == k.kdir
    && SpaceFreed(k.pm, k'.pm, e)
  }

  /** env_destroy: an environment running on another CPU becomes DYING and keeps its memory; any other is freed at once,
      and the CPU that runs it has no environment and schedules. */
  lemma DestroyEffect(k: K, c: nat, e: nat)
    requires Entered(k, c) && e < |k.envs| && k.envs[e].status != FREE
    ensures var o := EnvDestroy(k, c, e);
            if k.envs[e].status == RUNNING && k.cpu[c] != e then
              && o.Return? && o.r == 0 && OnlyEnv(k, o.k, e) && o.k.pm == k.pm
              && o.k.envs[e].status == DYING && o.k.envs[e].(status := RUNNING) == k.envs[e]
            else
              && EnvGone(k, o.k, e) && (o.Switch? <==> k.cpu[c] == e) && (o.Return? ==> o.r == 0 && o.k.cpu == k.cpu)
              && (o.Switch? ==> |o.k.cpu| == |k.cpu| && o.k.cpu[c] == -1)
              && (forall d :: 0 <= d < |k.cpu| && d != c ==> d < |o.k.cpu| && o.k.cpu[d] == k.cpu[d])
              && !o.Panic?
  {
    hide Inv, Guarded, FreeSpace, IpcOk, IdleOk, IdsOk, ListOk;
    FreeSpaceExact(k.pm, {}, e);
  }

  /** sys_env_destroy, and a trap the kernel does not expect. */
  lemma DestroyCalls(k: K, c: nat, envid: int)
    requires Entered(k, c) && Ready(k, c)
    ensures var e := Named(k, c, envid, true); var o := Dispatch(k, c, Destroy(envid));
            if e < 0 then o == Return(k, -E_BAD_ENV) else o == EnvDestroy(k, c, e)
    ensures Dispatch(k, c, Crash) == EnvDestroy(k, c, k.cpu[c])
  {
    hide KInv;
  }

  /** A CPU that finds its environment DYING frees it. */
  lemma ZombieEffect(k: K, c: nat)
    requires KInv(k, -1) && c < |k.cpu| && 0 <= k.cpu[c] < |k.envs| && k.envs[k.cpu[c]].status == DYING
    ensures var k' := Freed(k, c, k.cpu[c]);
            && EnvGone(k, k', k.cpu[c]) && |k'.cpu| == |k.cpu| && k'.cpu[c] == -1
            && (forall d :: 0 <= d < |k.cpu| && d != c ==> k'.cpu[d] == k.cpu[d])
  {
    hide Inv, Guarded, FreeSpace, IpcOk, IdleOk, IdsOk, ListOk;
    FreeSpaceExact(k.pm, {}, k.cpu[c]);
  }

  /** What sys_exofork leaves in slot e: the caller's frame but for eax, and nothing of the slot's former environment
      but the message fields. */
  ghost predicate Forked(k: K, k': K, c: nat, e: nat)
    requires c < |k.cpu| && 0 <= k.cpu[c] < |k.envs| && e < |k.envs| == |k'.envs|
  {
    var v, cur, was := k'.envs[e], k.envs[k.cpu[c]], k.envs[e];
    && v.status == NOT_RUNNABLE && v.parent == cur.id && v.tf.eax == 0 && v.tf.rest == cur.tf.rest
    && !v.idle && !v.recving && v.upcall == 0 && v.runs == 0
    && v.dstva == was.dstva && v.value == was.value && v.from == was.from && v.perm == was.perm
    && v.id > 0 && v.id % |k.envs| == e
  }

  /** sys_exofork: the first free slot, with an empty address space and the next identifier, which is returned; or an
      error and no change. */
  lemma ExoforkEffect(k: K, c: nat)
    requires Entered(k, c) && Ready(k, c)
    ensures var o := Dispatch(k, c, Exofork);
            && o.Return? && |o.k.envs| == |k.envs| && o.k.cpu == k.cpu && o.k.kdir == k.kdir
            && (o.r == -E_NO_FREE_ENV <==> k.free == [])
            && (o.r == -E_NO_MEM <==> k.free != [] && k.pm.free == [])
            && (o.r < 0 ==> o.k == k && (k.free == [] || k.pm.free == []))
            && (o.r >= 0 ==>
                  var e := k.free[0];
                  && e < |k.envs| && o.r == o.k.envs[e].id && Forked(k, o.k, c, e) && o.k.free == k.free[1..]
                  && (forall i :: 0 <= i < |k.envs| && i != e ==> o.k.envs[i] == k.envs[i])
                  && o.k.pm.dirs == k.pm.dirs[e := k.pm.free[0]]
                  && (forall i: nat, d: nat, t: nat :: d < UPDES ==> Pte(o.k.pm, i, d, t) == Pte(k.pm, i, d, t)))
  {
    hide Inv, Guarded, IpcOk, IdleOk, CpuOk, SetupVm, NextId;
    if k.free != [] {
      FreeSlot(k);
      var e := k.free[0];
      SetupVmInv(k.pm, e, k.kdir);
      NextIdOk(k.envs[e].id, e, |k.envs|);
      if SetupVm(k.pm, e, k.kdir).1 {
        ExoforkForm(k, c);
      }
    }
  }

  // ----- scheduling -----

  /** The table after CPU c stopped running its environment and, if i is not negative, started running i. */
  ghost predicate Switched(k: K, k': K, c: nat, i: int)
    requires c < |k.cpu|
  {
    && |k'.envs| == |k.envs| && |k'.cpu| == |k.cpu| && k'.pm == k.pm && k'.free == k.free && k'.kdir == k.kdir
    && k'.cpu[c] == (if i >= 0 then i else k.cpu[c])
    && (forall d :: 0 <= d < |k.cpu| && d != c ==> k'.cpu[d] == k.cpu[d])
    && (forall e :: 0 <= e < |k.envs| ==>
          && k'.envs[e].(status := k.envs[e].status, runs := k.envs[e].runs) == k.envs[e]
          && k'.envs[e].runs == (if e == i then k.envs[e].runs + 1 else k.envs[e].runs)
          && k'.envs[e].status ==
               (if e == i then RUNNING
                else if e == k.cpu[c] && k.envs[e].status == RUNNING then RUNNABLE else k.envs[e].status))
  }

  /** env_run counts the run, makes e RUNNING and current, and the environment it replaces RUNNABLE if it was
      RUNNING. */
  lemma EnvRunEffect(k: K, c: nat, e: nat)
    requires c < |k.cpu| && e < |k.envs| && k.cpu[c] < |k.envs|
    ensures Switched(k, EnvRun(k, c, e), c, e)
  {
  }

  /** The environments sched_yield may pick: not idle, and RUNNABLE once the CPU has put its own back. */
  predicate Pickable(k: K, c: nat, e: nat)
    requires c < |k.cpu| && e < |k.envs|
  {
    !k.envs[e].idle && (k.envs[e].status == RUNNABLE || (k.cpu[c] == e && k.envs[e].status == RUNNING))
  }

  /** Slots from which the cyclic scan starts: after the current environment if it was RUNNING, else at it, or at 0. */
  function Origin(k: K, c: nat): nat
    requires c < |k.cpu| && k.cpu[c] < |k.envs|
  {
    if k.cpu[c] < 0 then 0 else k.cpu[c] + if k.envs[k.cpu[c]].status == RUNNING then 1 else 0
  }

  /** Nothing but idle environments can still run. */
  ghost predicate Finished(k: K) {
    forall e :: 0 <= e < |k.envs| && !k.envs[e].idle ==> k.envs[e].status !in {RUNNABLE, RUNNING}
  }

  /** sched_yield: the nearest environment that may be picked; else, if some environment still runs elsewhere, this
      CPU's idle environment; and the monitor exactly if nothing but idle environments can run. */
  lemma SchedEffect(k: K, c: nat)
    requires EnvsOk(k, c) && c < |k.cpu|
    ensures 0 < |k.envs| && c < |k.envs| && k.cpu[c] < |k.envs|
    ensures var o := SchedYield(k, c);
            && !o.NoIdle? && (o.Monitor? <==> Finished(k)) && (o.Monitor? ==> Switched(k, o.k, c, -1))
            && (o.Ran? ==>
                  && c < |o.k.cpu| && 0 <= o.k.cpu[c] < |k.envs| && Switched(k, o.k, c, o.k.cpu[c])
                  && (if exists e: nat :: e < |k.envs| && Pickable(k, c, e) then
                        && Pickable(k, c, o.k.cpu[c])
                        && (forall e: nat :: e < |k.envs| && Pickable(k, c, e) ==>
                              S.Ahead(Origin(k, c), o.k.cpu[c], |k.envs|) <= S.Ahead(Origin(k, c), e, |k.envs|))
                      else o.k.cpu[c] == c))
  {
    InTable(k, c);
    SchedOk(k, c);
    hide EnvsOk, S.Ahead, Scan, EnvRun, Unrun, Switched, Pickable, Finished, SchedYield;
    PickCases(k, c);
    var i := Scan(Unrun(k, c).envs, ScanStart(k, c), |k.envs|);
    if i >= 0 {
      RunAfterUnrun(k, c, i);
      PickedNearest(k, c);
    } else {
      RunAfterUnrun(k, c, c);
      UnrunEffect(k, c);
      NonePicked(k, c);
    }
  }

  lemma InTable(k: K, c: nat)
    requires EnvsOk(k, c) && c < |k.cpu|
    ensures 0 < |k.envs| && c < |k.envs| && k.cpu[c] < |k.envs|
  {
  }

  /** The three ways through sched_yield, by what the scan finds. */
  lemma PickCases(k: K, c: nat)
    requires c < |k.cpu| && c < |k.envs| && k.cpu[c] < |k.envs|
    ensures var i := Scan(Unrun(k, c).envs, ScanStart(k, c), |k.envs|); var o := SchedYield(k, c);
            && (i >= 0 ==> o == Ran(EnvRun(Unrun(k, c), c, i)) && !Finished(k))
            && (i < 0 && Finished(k) ==> o == Monitor(Unrun(k, c)))
            && (i < 0 && !Finished(k) ==> o.NoIdle? || o == Ran(EnvRun(Unrun(k, c), c, c)))
  {
    hide Scan, EnvRun;
    var k1 := Unrun(k, c);
    ScanFinds(k1.envs, ScanStart(k, c), |k.envs|);
    var i := Scan(k1.envs, ScanStart(k, c), |k.envs|);
    assert i >= 0 ==> Eligible(k1.envs, i);
    SameFinished(k, c);
  }

  lemma SameFinished(k: K, c: nat)
    requires c < |k.cpu| && k.cpu[c] < |k.envs|
    ensures Finished(k) <==> Finished(Unrun(k, c))
  {
    var k1 := Unrun(k, c);
    forall e | 0 <= e < |k.envs|
      ensures k1.envs[e].idle == k.envs[e].idle
      ensures k1.envs[e].status in {RUNNABLE, RUNNING} <==> k.envs[e].status in {RUNNABLE, RUNNING}
    {
    }
    if Finished(k1) {
      forall e | 0 <= e < |k.envs| && !k.envs[e].idle
        ensures k.envs[e].status !in {RUNNABLE, RUNNING}
      {
        assert !k1.envs[e].idle;
      }
    }
  }

  lemma UnrunEffect(k: K, c: nat)
    requires c < |k.cpu| && k.cpu[c] < |k.envs|
    ensures Switched(k, Unrun(k, c), c, -1)
  {
  }

  lemma RunAfterUnrun(k: K, c: nat, i: nat)
    requires c < |k.cpu| && k.cpu[c] < |k.envs| && i < |k.envs|
    ensures Switched(k, EnvRun(Unrun(k, c), c, i), c, i)
  {
  }

  lemma PutBack(k: K, c: nat)
    requires c < |k.cpu| && k.cpu[c] < |k.envs| && 0 < |k.envs|
    ensures |Unrun(k, c).envs| == |k.envs|
    ensures forall e: nat :: e < |k.envs| ==> (Eligible(Unrun(k, c).envs, e) <==> Pickable(k, c, e))
    ensures ScanStart(k, c) == Origin(k, c)
  {
  }

  lemma PickedNearest(k: K, c: nat)
    requires c < |k.cpu| && k.cpu[c] < |k.envs| && 0 < |k.envs|
    ensures |Unrun(k, c).envs| == |k.envs|
    ensures var i := Scan(Unrun(k, c).envs, ScanStart(k, c), |k.envs|);
            i >= 0 ==>
              && Pickable(k, c, i)
              && (forall e: nat :: e < |k.envs| && Pickable(k, c, e) ==>
                    S.Ahead(Origin(k, c), i, |k.envs|) <= S.Ahead(Origin(k, c), e, |k.envs|))
  {
    hide S.Ahead, Scan, Unrun, Pickable, Eligible, Origin, ScanStart;
    PutBack(k, c);
    S.NearestChosen(Unrun(k, c).envs, ScanStart(k, c));
  }

  lemma NonePicked(k: K, c: nat)
    requires c < |k.cpu| && k.cpu[c] < |k.envs| && 0 < |k.envs|
    ensures |Unrun(k, c).envs| == |k.envs|
    ensures Scan(Unrun(k, c).envs, ScanStart(k, c), |k.envs|) < 0 ==>
              forall e: nat :: e < |k.envs| ==> !Pickable(k, c, e)
  {
    hide S.Ahead, Scan, Unrun, Pickable, Eligible, Origin, ScanStart;
    PutBack(k, c);
    S.NearestChosen(Unrun(k, c).envs, ScanStart(k, c));
  }

  // ----- pages -----

  /** sys_page_alloc: on success a cleared page that nothing named is mapped at va with perm, and that is all. */
  lemma AllocEffect(k: K, c: nat, envid: int, va: nat, perm: Perm)
    requires Entered(k, c) && Ready(k, c)
    ensures var o := Dispatch(k, c, AllocPage(envid, va, perm)); var e := Named(k, c, envid, true);
            && o.Return? && OnlyMemory(k, o.k)
            && (o.r == 0 ==>
                  && e >= 0 && k.pm.free != [] && (forall q :: Target(k.pm, q) != k.pm.free[0])
                  && FlatUpdate(k.pm, o.k.pm, e, PDX(va), PTX(va), Entry(k.pm.free[0], perm + {PTE_P}))
                  && k.pm.free[0] < |o.k.pm.mem| && o.k.pm.mem[k.pm.free[0]] == ZeroFrame())
            && (o.r != 0 ==> FlatSame(k.pm, o.k.pm))
  {
    hide Inv, Guarded, PageAllocAt, IpcOk, IdleOk, CpuOk, ListOk, DataPage;
    var t := EnvId2Env(k, c, envid, true);
    if t.Found? && va < UTOP && perm <= PTE_SYSCALL {
      IdFound(k, c, envid, true);
      PageAllocAtInv(k.pm, t.slot, va, perm);
      if PageAllocAt(k.pm, t.slot, va, perm).1 == 0 {
        FreeIsData(k.pm, k.pm.free[0]);
        PageAllocContents(k.pm, t.slot, va, perm, k.pm.free[0]);
      }
    }
  }

  lemma FreeIsData(s: Pm, n: nat)
    requires Inv(s, {}) && s.free != [] && n == s.free[0]
    ensures DataPage(s, n) && n < |s.mem|
  {
    hide Refs, ZeroFilled, RightsNested, Owned, Exclusive;
    assert n in s.free;
    Unreferenced(s, n);
  }

  /** sys_page_map: on success the destination page is the source's physical page with exactly the permission asked for,
      and that is all; otherwise nothing changes. */
  lemma MapEffect(k: K, c: nat, srcid: int, srcva: nat, dstid: int, dstva: nat, perm: Perm)
    requires Entered(k, c) && Ready(k, c) && Allowed(k, c, MapPage(srcid, srcva, dstid, dstva, perm))
    ensures var o := Dispatch(k, c, MapPage(srcid, srcva, dstid, dstva, perm));
            var src, dst := Named(k, c, srcid, true), Named(k, c, dstid, false);
            && o.Return? && OnlyMemory(k, o.k)
            && (o.r == 0 ==>
                  && src >= 0 && dst >= 0 && Present(Pte(k.pm, src, PDX(srcva), PTX(srcva)))
                  && FlatUpdate(k.pm, o.k.pm, dst, PDX(dstva), PTX(dstva),
                                Entry(Pte(k.pm, src, PDX(srcva), PTX(srcva)).ppn, perm + {PTE_P})))
            && (o.r != 0 ==> o.k == k)
  {
    hide Inv, Guarded, RoomFor, IpcOk, IdleOk, CpuOk, ListOk, PageInsert, FlatUpdate;
    var src, dst := EnvId2Env(k, c, srcid, true), EnvId2Env(k, c, dstid, false);
    if src.Found? && dst.Found? {
      IdFound(k, c, srcid, true);
      IdFound(k, c, dstid, false);
      PageMapAtInv(k.pm, src.slot, srcva, dst.slot, dstva, perm);
    }
  }

  /** sys_page_unmap: exactly the named page goes, whether or not it was mapped. */
  lemma UnmapEffect(k: K, c: nat, envid: int, va: nat)
    requires Entered(k, c) && Ready(k, c)
    ensures var o := Dispatch(k, c, UnmapPage(envid, va)); var e := Named(k, c, envid, true);
            && o.Return? && OnlyMemory(k, o.k)
            && (o.r == -E_BAD_ENV <==> e < 0)
            && (o.r == -E_INVAL <==> e >= 0 && !(va < UTOP && va % PGSIZE == 0))
            && (o.r == 0 <==> e >= 0 && va < UTOP && va % PGSIZE == 0)
            && (o.r == 0 ==> FlatUpdate(k.pm, o.k.pm, e, PDX(va), PTX(va), ZERO))
            && (o.r != 0 ==> o.k == k)
  {
    hide Inv, Guarded, PageRemove, IpcOk, IdleOk, CpuOk, ListOk, FlatUpdate;
    var t := EnvId2Env(k, c, envid, true);
    if t.Found? && UserPage(va) {
      PageUnmapInv(k.pm, t.slot, va);
    }
  }

  // ----- messages -----

  /** Whether a page travels: both sides ask for one. */
  predicate PageSent(k: K, e: nat, srcva: nat)
    requires e < |k.envs|
  {
    srcva != IPC_NO_PAGE && k.envs[e].dstva != IPC_NO_PAGE
  }

  /** The receiver after a successful send: runnable, with the message, and its own sys_ipc_recv returning 0. */
  ghost predicate Delivered(k: K, k': K, c: nat, e: nat, value: int, srcva: nat, perm: Perm)
    requires c < |k.cpu| && 0 <= k.cpu[c] < |k.envs| && e < |k.envs| == |k'.envs|
  {
    var v, was := k'.envs[e], k.envs[e];
    && v.value == value && v.from == k.envs[k.cpu[c]].id && v.perm == (if PageSent(k, e, srcva) then perm else {})
    && v.status == RUNNABLE && !v.recving && v.tf.eax == 0 && v.tf.rest == was.tf.rest
    && v.id == was.id && v.parent == was.parent && v.idle == was.idle && v.runs == was.runs && v.upcall == was.upcall
    && v.dstva == was.dstva
  }

  /** sys_ipc_try_send: on success the receiver has the message, and the sender's page at its own address if one
      travels; a send refused because something is mapped there clears the receiver's permission; any other refusal
      changes nothing. */
  lemma SendEffect(k: K, c: nat, envid: int, value: int, srcva: nat, perm: Perm)
    requires Entered(k, c) && Ready(k, c) && Allowed(k, c, TrySend(envid, value, srcva, perm))
    ensures var o := Dispatch(k, c, TrySend(envid, value, srcva, perm)); var e := Named(k, c, envid, false);
            && !o.Switch? && (o.Panic? || o.r != 0 ==> o.k.pm == k.pm)
            && (o.Return? && o.r == 0 ==>
                  && e >= 0 && k.envs[e].recving && OnlyEnv(k, o.k, e) && Delivered(k, o.k, c, e, value, srcva, perm)
                  && (!PageSent(k, e, srcva) ==> o.k.pm == k.pm)
                  && (PageSent(k, e, srcva) ==>
                        var x, va := Pte(k.pm, k.cpu[c], PDX(srcva), PTX(srcva)), k.envs[e].dstva;
                        Present(x) && FlatUpdate(k.pm, o.k.pm, e, PDX(va), PTX(va), Entry(x.ppn, perm + {PTE_P}))))
            && (o.Return? && o.r == -E_NO_MEM ==>
                  e >= 0 && OnlyEnv(k, o.k, e) && o.k.envs[e].(perm := k.envs[e].perm) == k.envs[e])
            && (o.Return? && o.r != 0 && o.r != -E_NO_MEM ==> o.k == k)
  {
    hide Inv, Guarded, RoomFor, IdleOk, CpuOk, ListOk, IdsOk, PageInsert, FlatUpdate;
    var t := EnvId2Env(k, c, envid, false);
    if t.Found? {
      IdFound(k, c, envid, false);
      CurrentInDirs(k, c);
      if srcva != IPC_NO_PAGE {
        var va := k.envs[t.slot].dstva;
        PageMapAtInv(k.pm, k.cpu[c], srcva, t.slot, va, perm);
        var (pm', r) := PageMapAt(k.pm, k.cpu[c], srcva, t.slot, va, perm);
        if r == 0 {
          UserDirectoryEntries(va);
          var x := Pte(k.pm, k.cpu[c], PDX(srcva), PTX(srcva));
          MappedThere(k.pm, pm', t.slot, PDX(va), PTX(va), Entry(x.ppn, perm + {PTE_P}));
        }
      }
    }
  }

  lemma MappedThere(s: Pm, s': Pm, e: nat, d: nat, t: nat, v: Entry)
    requires FlatUpdate(s, s', e, d, t, v) && d < UPDES
    ensures Pte(s', e, d, t) == v
  {
  }

  /** sys_ipc_recv: the caller blocks, asking for a page at dstva or for none; a bad address changes nothing. */
  lemma RecvEffect(k: K, c: nat, dstva: nat)
    requires Entered(k, c) && Ready(k, c)
    ensures var o := Dispatch(k, c, Recv(dstva)); var e := k.cpu[c];
            if dstva == IPC_NO_PAGE || (dstva < UTOP && dstva % PGSIZE == 0) then
              && o.Switch? && OnlyEnv(k, o.k, e) && o.k.pm == k.pm
              && o.k.envs[e].recving && o.k.envs[e].dstva == dstva && o.k.envs[e].status == NOT_RUNNABLE
              && var was := k.envs[e];
                 o.k.envs[e].(recving := was.recving, dstva := was.dstva, status := was.status) == was
            else o == Return(k, -E_INVAL)
  {
    hide KInv;
  }

  /** Giving up the CPU and calls without effect change nothing; stores change memory alone and return what eax was. */
  lemma OtherEffects(k: K, c: nat, call: Call)
    requires Entered(k, c) && Ready(k, c) && (call.Yield? || call.Quiet? || call.Stores?)
    ensures var o := Dispatch(k, c, call);
            && (call.Yield? ==> o == Switch(k))
            && (call.Quiet? ==> o == Return(k, call.result))
            && (call.Stores? ==>
                  o.Return? && o.r == k.envs[k.cpu[c]].tf.eax && OnlyMemory(k, o.k) && FlatSame(k.pm, o.k.pm))
  {
    hide Inv, Guarded, UpperKept, T.UserStores;
    if call.Stores? {
      StoresKeep(k.pm, k.kdir, k.cpu[c], call.words);
    }
  }
}
