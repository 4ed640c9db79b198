/**
  What sys_page_alloc, sys_page_map and sys_ipc_try_send return (kern/syscall.c), exactly; and the send that panics the
  kernel where the documentation promises an error.
*/
module ReturnCodes {
  import opened Mmu
  import opened Pmap
  import opened Kernel
  import opened Errors
  import opened KernelInv
  import opened UpperHalf
  import FreeList
  import PageMap

  // ----- sys_page_alloc and sys_page_map -----

  /** sys_page_alloc looks at neither the alignment of va nor whether perm has P and U: within PTE_SYSCALL every
      permission is accepted, at every address below UTOP. */
  lemma AllocCodes(k: K, c: nat, envid: int, va: nat, perm: Perm)
    requires Entered(k, c) && Ready(k, c)
    ensures var o := SysPageAlloc(k, c, envid, va, perm); var t := EnvId2Env(k, c, envid, true);
            && o.Return?
            && (o.r == -E_BAD_ENV <==> t.BadEnv?)
            && (o.r == -E_INVAL <==> t.Found? && !(va < UTOP && perm <= PTE_SYSCALL))
            && (o.r == -E_NO_MEM <==>
                  t.Found? && va < UTOP && perm <= PTE_SYSCALL && |k.pm.free| < 1 + TablesNeeded(k.pm, t.slot, va))
            && (o.r == 0 <==>
                  t.Found? && va < UTOP && perm <= PTE_SYSCALL && |k.pm.free| >= 1 + TablesNeeded(k.pm, t.slot, va))
  {
    hide Inv, Guarded, PageAllocAt, IpcOk, IdleOk, CpuOk, ListOk;
    var t := EnvId2Env(k, c, envid, true);
    if t.Found? && va < UTOP {
      IdFound(k, c, envid, true);
      PageAllocAtInv(k.pm, t.slot, va, perm);
    }
  }

  /** Both addresses are user pages, the source is mapped, and write access is asked for only where there is some. */
  predicate Mapping(s: Pm, src: nat, srcva: nat, dstva: nat, perm: Perm) {
    && srcva < UTOP && srcva % PGSIZE == 0 && dstva < UTOP && dstva % PGSIZE == 0
    && var x := Pte(s, src, PDX(srcva), PTX(srcva));
       Present(x) && (PTE_W in perm ==> PTE_W in x.perm)
  }

  lemma MapAtCodes(s: Pm, src: nat, srcva: nat, dst: nat, dstva: nat, perm: Perm)
    requires Inv(s, {}) && src in s.dirs && dst in s.dirs && RoomFor(s, src, srcva)
    ensures var r := PageMapAt(s, src, srcva, dst, dstva, perm).1; var ok := Mapping(s, src, srcva, dstva, perm);
            && (r == -E_INVAL <==> !ok)
            && (r == -E_NO_MEM <==> ok && |s.free| < TablesNeeded(s, dst, dstva))
            && (r == 0 <==> ok && |s.free| >= TablesNeeded(s, dst, dstva))
  {
    hide Refs, Owned, Exclusive, ZeroFilled, RightsNested, Counted, FreeExact;
    if Mapping(s, src, srcva, dstva, perm) {
      var x := Pte(s, src, PDX(srcva), PTX(srcva));
      UserDirectoryEntries(srcva);
      UserDirectoryEntries(dstva);
      UserPageMappable(s, {}, src, PDX(srcva), PTX(srcva));
      PageInsertInv(s, {}, dst, PDX(dstva), PTX(dstva), x.ppn, perm);
    }
  }

  /** sys_page_map puts no condition on perm but that it does not add write access. */
  lemma MapCodes(k: K, c: nat, srcid: int, srcva: nat, dstid: int, dstva: nat, perm: Perm)
    requires Entered(k, c) && Ready(k, c) && Allowed(k, c, MapPage(srcid, srcva, dstid, dstva, perm))
    ensures SysPageMap(k, c, srcid, srcva, dstid, dstva, perm).Return?
    ensures var r := SysPageMap(k, c, srcid, srcva, dstid, dstva, perm).r;
            var src, dst := EnvId2Env(k, c, srcid, true), EnvId2Env(k, c, dstid, false);
            if src.BadEnv? || dst.BadEnv? then r == -E_BAD_ENV
            else
              var ok := Mapping(k.pm, src.slot, srcva, dstva, perm);
              && (r == -E_INVAL <==> !ok)
              && (r == -E_NO_MEM <==> ok && |k.pm.free| < TablesNeeded(k.pm, dst.slot, dstva))
              && (r == 0 <==> ok && |k.pm.free| >= TablesNeeded(k.pm, dst.slot, dstva))
  {
    hide Inv, Guarded, PageMapAt, RoomFor, IpcOk, IdleOk, CpuOk, ListOk, Mapping, TablesNeeded;
    var src, dst := EnvId2Env(k, c, srcid, true), EnvId2Env(k, c, dstid, false);
    if src.Found? && dst.Found? {
      IdFound(k, c, srcid, true);
      IdFound(k, c, dstid, false);
      MapAtCodes(k.pm, src.slot, srcva, dst.slot, dstva, perm);
    }
  }

  // ----- sys_ipc_try_send -----

  /** No page, or a page of the sender's own with a permission it may give away. */
  predicate Offer(k: K, c: nat, srcva: nat, perm: Perm)
    requires Ready(k, c)
  {
    srcva != IPC_NO_PAGE ==>
      && srcva < UTOP && srcva % PGSIZE == 0 && perm <= PTE_SYSCALL
      && var x := Pte(k.pm, k.cpu[c], PDX(srcva), PTX(srcva));
         Present(x) && (PTE_W in perm ==> PTE_W in x.perm)
  }

  /** The send names a live receiver and what it asks to send is acceptable. */
  ghost predicate Sendable(k: K, c: nat, envid: int, srcva: nat, perm: Perm)
    requires Ready(k, c)
  {
    && EnvId2Env(k, c, envid, false).Found? && k.envs[EnvId2Env(k, c, envid, false).slot].recving
    && Offer(k, c, srcva, perm)
  }

  /** The refusals of a send: an unknown receiver, one that is not receiving, and an offer that is not acceptable, in
      that order. */
  lemma SendRefusals(k: K, c: nat, envid: int, value: int, srcva: nat, perm: Perm)
    requires Entered(k, c) && Ready(k, c)
    ensures var o := SysIpcTrySend(k, c, envid, value, srcva, perm); var t := EnvId2Env(k, c, envid, false);
            && (o == Return(k, -E_BAD_ENV) <==> t.BadEnv?)
            && (o == Return(k, -E_IPC_NOT_RECV) <==> t.Found? && !k.envs[t.slot].recving)
            && (o == Return(k, -E_INVAL) <==> t.Found? && k.envs[t.slot].recving && !Offer(k, c, srcva, perm))
  {
    hide KInv, PageMapAt;
  }

  /** Both sides ask for a page. */
  predicate WithPage(k: K, e: nat, srcva: nat)
    requires e < |k.envs|
  {
    srcva != IPC_NO_PAGE && k.envs[e].dstva != IPC_NO_PAGE
  }

  /**
    A send that passed its checks, with a page on both sides, has three outcomes: -E_NO_MEM iff something is mapped at
    the receiver's address already, a kernel panic iff there is no table for that address and no page for one, and
    success otherwise.  Without a page it succeeds.
  */
  lemma SendCodes(k: K, c: nat, envid: int, value: int, srcva: nat, perm: Perm)
    requires Entered(k, c) && Ready(k, c) && Allowed(k, c, TrySend(envid, value, srcva, perm))
    requires Sendable(k, c, envid, srcva, perm)
    ensures var o := SysIpcTrySend(k, c, envid, value, srcva, perm);
            var e := EnvId2Env(k, c, envid, false).slot; var va := k.envs[e].dstva;
            && (o.Panic? <==> WithPage(k, e, srcva) && !Present(Pde(k.pm, e, PDX(va))) && k.pm.free == [])
            && (o.Return? && o.r == -E_NO_MEM <==> WithPage(k, e, srcva) && Present(Pte(k.pm, e, PDX(va), PTX(va))))
            && (o.Panic? || (o.Return? && o.r in {0, -E_NO_MEM}))
  {
    var e := EnvId2Env(k, c, envid, false).slot;
    IdFound(k, c, envid, false);
    CurrentInDirs(k, c);
    ReceiverAddress(k, c, e);
    hide Entered, Inv, PageMapAt, RoomFor, EnvId2Env, Pte;
    if WithPage(k, e, srcva) && !Present(Pte(k.pm, e, PDX(k.envs[e].dstva), PTX(k.envs[e].dstva))) {
      InvOf(k, c);
      TransferPanics(k.pm, k.cpu[c], srcva, e, k.envs[e].dstva, perm);
    }
    TableFirst(k.pm, e, k.envs[e].dstva);
  }

  lemma InvOf(k: K, c: nat)
    requires Entered(k, c)
    ensures Inv(k.pm, {})
  {
    hide Inv;
  }

  lemma ReceiverAddress(k: K, c: nat, e: nat)
    requires Entered(k, c) && e < |k.envs| && k.envs[e].status != FREE && k.envs[e].recving
    ensures k.envs[e].dstva == IPC_NO_PAGE || UserPage(k.envs[e].dstva)
  {
    hide Inv;
  }

  lemma TableFirst(s: Pm, e: nat, va: nat)
    ensures Present(Pte(s, e, PDX(va), PTX(va))) ==> Present(Pde(s, e, PDX(va)))
  {
  }

  /** The mapping of a send fails exactly for lack of a table. */
  lemma TransferPanics(s: Pm, src: nat, srcva: nat, e: nat, dstva: nat, perm: Perm)
    requires Inv(s, {}) && src in s.dirs && e in s.dirs && RoomFor(s, src, srcva)
    requires Mapping(s, src, srcva, dstva, perm)
    requires !Present(Pte(s, e, PDX(dstva), PTX(dstva)))
    ensures var s' := PageMapAt(s, src, srcva, e, dstva, perm).0;
            Present(Pte(s', e, PDX(dstva), PTX(dstva))) <==> Present(Pde(s, e, PDX(dstva))) || s.free != []
  {
    hide Inv, PageMapAt, RoomFor;
    MapAtCodes(s, src, srcva, e, dstva, perm);
    PageMapAtInv(s, src, srcva, e, dstva, perm);
    UserDirectoryEntries(dstva);
  }

  // ----- a send that panics -----

  /** Environment e may read its page 0. */
  ghost predicate HasPage(s: Pm, e: nat) {
    Pte(s, e, 0, 0).perm == {PTE_P, PTE_U}
  }

  /** A consistent memory with the environments es, in which environment 1 maps exactly the first n pages of its first
      table. */
  ghost predicate Filled(s: Pm, es: set<nat>, n: nat) {
    && Inv(s, {}) && Guarded(s, ZeroFrame()) && s.dirs.Keys == es && 1 in s.dirs && n <= NENTRIES
    && (n > 0 ==> HasPage(s, 1)) && (n == 0 ==> !Present(Pde(s, 1, 0)))
    && (forall t: nat :: n <= t ==> Pte(s, 1, 0, t) == ZERO)
  }

  /** The smallest machine after page_init. */
  lemma SmallMachine() returns (s: Pm)
    ensures Inv(s, {}) && Guarded(s, ZeroFrame()) && s.dirs == map[] && |s.free| == 159
  {
    var n := FreeList.EXTMEM + 1;
    var free := FreeList.Initial(FreeList.EXTMEM, n);
    s := Pm(seq(n, _ => 0), seq(n, _ => ZeroFrame()), free, map[], set p | p in free);
    forall p | p in free
      ensures p < n
    {
      FreeList.InitialExact(FreeList.EXTMEM, n, p);
    }
    PageMap.InitialLedger(s, FreeList.EXTMEM, n);
  }

  /** env_setup_vm for a further environment. */
  lemma WithSpace(s: Pm, e: nat) returns (s': Pm)
    requires Inv(s, {}) && Guarded(s, ZeroFrame()) && e !in s.dirs && s.free != []
    ensures Inv(s', {}) && Guarded(s', ZeroFrame()) && s'.dirs.Keys == s.dirs.Keys + {e} && |s'.free| == |s.free| - 1
    ensures (forall e': nat, d: nat, t: nat :: d < UPDES ==> Pte(s', e', d, t) == Pte(s, e', d, t))
    ensures forall d: nat :: d < UPDES ==> Pde(s', e, d) == ZERO
  {
    hide Inv, Guarded;
    SetupVmInv(s, e, ZeroFrame());
    SetupGuarded(s, e, ZeroFrame());
    s' := SetupVm(s, e, ZeroFrame()).0;
    EmptySpace(s, e);
  }

  lemma EmptySpace(s: Pm, e: nat)
    requires Inv(s, {}) && s.free != []
    ensures var s' := SetupVm(s, e, ZeroFrame()).0;
            (forall d: nat :: d < UPDES ==> Pde(s', e, d) == ZERO) && |s'.free| == |s.free| - 1
  {
    assert s.free[0] in s.free;
  }

  /** What a mapping over nothing takes from the free list. */
  lemma InsertFree(s: Pm, limbo: set<nat>, e: nat, d: nat, t: nat, pp: nat, perm: Perm)
    requires Inv(s, limbo) && e in s.dirs && d < UPDES && Pte(s, e, d, t) == ZERO && pp > 0
    requires PageInsert(s, e, d, t, pp, perm).1
    ensures |PageInsert(s, e, d, t, pp, perm).0.free| == |s.free| - if Present(Pde(s, e, d)) then 0 else 1
  {
    hide Refs, Owned, Exclusive, ZeroFilled, RightsNested, Counted, FreeExact;
    var (w, _) := WalkCreate(s, e, d);
    WalkCreateInv(s, limbo, e, d);
    WidenPdeInv(w, limbo, e, d, perm);
    var w1 := WidenPde(w, e, d, perm);
    assert Pte(w1, e, d, t) == ZERO;
    assert !Present(Pte(IncRef(w1, pp), e, d, t));
  }

  lemma AllocAtFree(s: Pm, e: nat, va: nat, perm: Perm)
    requires Inv(s, {}) && e in s.dirs && va < UTOP && Pte(s, e, PDX(va), PTX(va)) == ZERO
    requires |s.free| >= 1 + TablesNeeded(s, e, va)
    ensures |PageAllocAt(s, e, va, perm).0.free| == |s.free| - 1 - TablesNeeded(s, e, va)
  {
    hide Inv, PageInsert;
    PageAllocAtInv(s, e, va, perm);
    AllocInv(s, {});
    UserDirectoryEntries(va);
    HeadPositive(s);
    InsertFree(PageAlloc(s), {} + {s.free[0]}, e, PDX(va), PTX(va), s.free[0], perm);
  }

  lemma HeadPositive(s: Pm)
    requires Inv(s, {}) && s.free != []
    ensures s.free[0] > 0
  {
    assert s.free[0] in s.free;
  }

  /** One page more for environment 1: one free page less, or two for the first. */
  lemma OneMore(s: Pm, es: set<nat>, n: nat) returns (s': Pm)
    requires Filled(s, es, n) && n < NENTRIES && |s.free| >= 2
    ensures Filled(s', es, n + 1) && |s'.free| == |s.free| - if n == 0 then 2 else 1
  {
    hide Inv, Guarded, PageAllocAt, UpperKept;
    var va := n * PGSIZE;
    assert va < UTOP && PDX(va) == 0 && PTX(va) == n;
    assert n > 0 ==> Present(Pde(s, 1, 0));
    PageAllocAtInv(s, 1, va, {PTE_P, PTE_U});
    AllocAtKept(s, 1, va, {PTE_P, PTE_U});
    AllocAtFree(s, 1, va, {PTE_P, PTE_U});
    s' := PageAllocAt(s, 1, va, {PTE_P, PTE_U}).0;
    KeptGuarded(s, s', ZeroFrame());
    assert {PTE_P, PTE_U} + {PTE_P} == {PTE_P, PTE_U};
  }

  /** Environment 1 takes pages until n have been taken. */
  lemma {:induction false} TakePages(s: Pm, es: set<nat>, n: nat) returns (s': Pm)
    requires Filled(s, es, 0) && n <= NENTRIES && |s.free| >= n + 2
    ensures Filled(s', es, n) && |s'.free| == |s.free| - if n == 0 then 0 else n + 1
    decreases n
  {
    hide Filled;
    s' := s;
    if n > 0 {
      s' := TakePages(s, es, n - 1);
      s' := OneMore(s', es, n - 1);
    }
  }

  /** A live environment of the witness. */
  function Witness(slot: nat, status: Status, recving: bool): Env {
    Env(GENERATION + slot, 0, slot == 0, status, 0, Tf(0, 0), 0, recving, 0x40_0000, 0, 0, {})
  }

  /** One CPU, an idle environment, a sender that took all pages but the receiver's directory, and the receiver, blocked
      with an address that has no table yet. */
  function PanicState(pm: Pm): K {
    K(pm, [Witness(0, RUNNABLE, false), Witness(1, RUNNING, false), Witness(2, NOT_RUNNABLE, true), UNBORN], [3], [1],
      ZeroFrame())
  }

  /** A consistent kernel in which sending page 0 of the current environment to environment 2 panics. */
  lemma SendPanics(value: int) returns (k: K)
    ensures Entered(k, 0) && Ready(k, 0) && Sendable(k, 0, GENERATION + 2, 0, {PTE_P, PTE_U})
    ensures SysIpcTrySend(k, 0, GENERATION + 2, value, 0, {PTE_P, PTE_U}).Panic?
  {
    hide Inv, Guarded, SetupVm;
    var s := SmallMachine();
    s := WithSpace(s, 0);
    s := WithSpace(s, 1);
    assert s.dirs.Keys == {0, 1};
    s := TakePages(s, {0, 1}, 155);
    var pm := WithSpace(s, 2);
    assert pm.dirs.Keys == {0, 1, 2};
    k := PanicState(pm);
    PanicConsistent(pm);
    SendFails(pm, value);
  }

  lemma PanicConsistent(pm: Pm)
    requires Inv(pm, {}) && Guarded(pm, ZeroFrame()) && pm.dirs.Keys == {0, 1, 2}
    ensures Entered(PanicState(pm), 0) && Ready(PanicState(pm), 0)
  {
    hide Inv, Guarded;
    var k := PanicState(pm);
    assert forall e: nat :: e in pm.dirs <==> e in pm.dirs.Keys;
    assert k.cpu[0] == 1 && OnCpu(k, 1);
    assert GENERATION % 4 == 0;
  }

  lemma SendFails(pm: Pm, value: int)
    requires pm.free == [] && HasPage(pm, 1) && Ready(PanicState(pm), 0)
    requires forall d: nat :: d < UPDES ==> Pde(pm, 2, d) == ZERO
    ensures Sendable(PanicState(pm), 0, GENERATION + 2, 0, {PTE_P, PTE_U})
    ensures SysIpcTrySend(PanicState(pm), 0, GENERATION + 2, value, 0, {PTE_P, PTE_U}).Panic?
  {
    var k := PanicState(pm);
    assert (GENERATION + 2) % 4 == 2;
    assert EnvId2Env(k, 0, GENERATION + 2, false) == Found(2);
    assert PDX(0) == 0 && PTX(0) == 0 && PDX(0x40_0000) == 1;
    assert SendablePage(k, 0, 0, {PTE_P, PTE_U});
    assert Pde(pm, 2, 1) == ZERO;
  }
}
