/**
  What every system call keeps: the page ledger, the environment table and its free list,
  identifiers, the IPC flag, and the tie between CPUs and environments.
*/
module KernelInv {
  import opened Mmu
  import opened Pmap
  import opened Kernel
  import opened Errors
  import opened Arith
  import opened UpperHalf

  // ----- the invariant -----

  /** Page ledger exact, upper halves as the kernel set them up, and directories owned by exactly the live
      environments. */
  ghost predicate MemOk(k: K) {
    && Inv(k.pm, {}) && KernelTemplate(k.kdir) && Guarded(k.pm, k.kdir)
    && (forall e: nat :: e in k.pm.dirs <==> e < |k.envs| && k.envs[e].status != FREE)
  }

  ghost predicate ListOk(k: K) {
    && Distinct(k.free)
    && (forall e: nat :: e in k.free <==> e < |k.envs| && k.envs[e].status == FREE)
  }

  /** An identifier issued for a slot, or 0 before the first. */
  predicate IdOk(id: int, slot: nat) {
    id == 0 || (GENERATION <= id - slot && id < INT_LIMIT && (id - slot) % GENERATION == 0)
  }

  ghost predicate IdsOk(k: K) {
    && 0 < |k.envs| <= GENERATION && GENERATION % |k.envs| == 0
    && (forall e :: 0 <= e < |k.envs| ==>
          IdOk(k.envs[e].id, e) && (k.envs[e].status != FREE ==> k.envs[e].id > 0))
  }

  /** A live environment that is receiving is blocked, and its destination was validated. */
  ghost predicate IpcOk(k: K) {
    forall e :: 0 <= e < |k.envs| && k.envs[e].status != FREE && k.envs[e].recving ==>
      k.envs[e].status == NOT_RUNNABLE && (k.envs[e].dstva == IPC_NO_PAGE || UserPage(k.envs[e].dstva))
  }

  /** CPU i has its own idle environment in slot i; no other live environment is idle. */
  ghost predicate IdleOk(k: K) {
    && |k.cpu| <= |k.envs|
    && (forall i :: 0 <= i < |k.cpu| ==>
          && k.envs[i].idle && k.envs[i].parent == 0 && !k.envs[i].recving
          && (k.envs[i].status == RUNNABLE || k.envs[i].status == RUNNING))
    && (forall i :: |k.cpu| <= i < |k.envs| && k.envs[i].status != FREE ==> !k.envs[i].idle)
  }

  ghost predicate OnCpu(k: K, e: int) {
    exists c :: 0 <= c < |k.cpu| && k.cpu[c] == e
  }

  /**
    Injective cpu_env; every CPU but h (the one inside the kernel, -1 for none) has a current
    environment that is RUNNING or DYING; such environments are current somewhere; idle
    environments stay on their CPU.
  */
  ghost predicate CpuOk(k: K, h: int) {
    && (forall c :: 0 <= c < |k.cpu| ==> -1 <= k.cpu[c] < |k.envs|)
    && (forall c, d :: 0 <= c < |k.cpu| && 0 <= d < |k.cpu| && k.cpu[c] == k.cpu[d] != -1 ==> c == d)
    && (forall c :: 0 <= c < |k.cpu| && c != h && k.cpu[c] != -1 ==>
          k.envs[k.cpu[c]].status == RUNNING || k.envs[k.cpu[c]].status == DYING)
    && (0 <= h < |k.cpu| && k.cpu[h] != -1 ==>
          k.envs[k.cpu[h]].status in {RUNNING, RUNNABLE, NOT_RUNNABLE})
    && (forall e :: 0 <= e < |k.envs| && (k.envs[e].status == RUNNING || k.envs[e].status == DYING) ==> OnCpu(k, e))
    && (forall c :: 0 <= c < |k.cpu| && 0 <= k.cpu[c] < |k.cpu| ==> k.cpu[c] == c)
  }

  ghost predicate EnvsOk(k: K, h: int) {
    ListOk(k) && IdsOk(k) && IpcOk(k) && IdleOk(k) && CpuOk(k, h)
  }

  ghost predicate KInv(k: K, h: int) {
    MemOk(k) && EnvsOk(k, h)
  }

  // ----- what the callers must respect -----

  /** The page that a mapping call names has room for one more count. */
  ghost predicate RoomFor(s: Pm, e: nat, va: nat) {
    var x := Pte(s, e, PDX(va), PTX(va));
    Present(x) && x.ppn < |s.refs| ==> s.refs[x.ppn] < REF_LIMIT - 1
  }

  /**
    Conditions the kernel does not check: the status that is set is not one of those the kernel gives out itself,
    and a blocked receiver stays NOT_RUNNABLE; a DYING environment is not destroyed again; permissions fit in
    twelve bits; counts do not overflow; and an idle environment only yields.
  */
  ghost predicate Allowed(k: K, c: nat, call: Call)
    requires Ready(k, c)
  {
    && (k.cpu[c] < |k.cpu| ==> call.Yield? || call.Quiet?)
    && match call
       case Destroy(envid) =>
         var t := EnvId2Env(k, c, envid, true);
         t.Found? ==> k.envs[t.slot].status != DYING
       case SetStatus(envid, status) =>
         && status != FREE && status != DYING && status != RUNNING
         && var t := EnvId2Env(k, c, envid, true);
            t.Found? && k.envs[t.slot].recving ==> status == NOT_RUNNABLE
       case MapPage(srcid, srcva, _, _, perm) =>
         && (forall b :: b in perm ==> b < 12)
         && var t := EnvId2Env(k, c, srcid, true);
            t.Found? ==> RoomFor(k.pm, t.slot, srcva)
       case TrySend(_, _, srcva, _) => srcva != IPC_NO_PAGE ==> RoomFor(k.pm, k.cpu[c], srcva)
       case _ => true
  }

  // ----- memory -----

  ghost predicate FlatSame(s: Pm, s': Pm) {
    && s'.dirs == s.dirs && s'.managed == s.managed
    && (forall e: nat, d: nat, t: nat :: d < UPDES ==> Pte(s', e, d, t) == Pte(s, e, d, t))
  }

  /** Pages that a mapping at va takes besides the mapped one: a table, unless there is one. */
  function TablesNeeded(s: Pm, e: nat, va: nat): nat {
    if Present(Pde(s, e, PDX(va))) then 0 else 1
  }

  /** sys_page_alloc's core: a page nothing named before, mapped at exactly one place, or no change; it succeeds
      exactly if there are enough free pages. */
  lemma PageAllocAtInv(s: Pm, e: nat, va: nat, perm: Perm)
    requires Inv(s, {}) && e in s.dirs && va < UTOP
    ensures var (s', r) := PageAllocAt(s, e, va, perm);
            && Inv(s', {}) && (r == 0 || r == -E_NO_MEM)
            && (r == 0 <==> |s.free| >= 1 + TablesNeeded(s, e, va))
            && (r == 0 ==> s.free != [] && forall q :: Target(s, q) != s.free[0])
            && (r == 0 ==> FlatUpdate(s, s', e, PDX(va), PTX(va), Entry(s.free[0], perm + {PTE_P})))
            && (r != 0 ==> FlatSame(s, s'))
  {
    hide Refs, Owned, Exclusive, ZeroFilled, RightsNested;
    if s.free != [] {
      var p := s.free[0];
      assert p in s.free;
      Unreferenced(s, p);
      AllocInv(s, {});
      var s1 := PageAlloc(s);
      Unreferenced(s1, p);
      UserDirectoryEntries(va);
      PageInsertInv(s1, {p}, e, PDX(va), PTX(va), p, perm);
      assert {} + {p} == {p} && {p} - {p} == {};
      if !PageInsert(s1, e, PDX(va), PTX(va), p, perm).1 {
        FreeInv(s1, {p}, p);
      }
    }
  }

  /** It takes at most two free pages. */
  lemma AllocAtRoom(s: Pm, e: nat, va: nat, perm: Perm)
    requires |s.free| >= 2
    ensures var (s', r) := PageAllocAt(s, e, va, perm); r == 0 && |s'.free| >= |s.free| - 2
  {
  }

  /** A page that holds user data: named by nothing but user entries. */
  ghost predicate DataPage(s: Pm, u: nat) {
    u < |s.mem| && forall r :: Target(s, r) == u ==> r.PteRef?
  }

  /** Creating a table and setting an entry write directories, tables and pages taken from the free list. */
  lemma InsertContents(s: Pm, e: nat, d: nat, t: nat, pp: nat, perm: Perm, u: nat)
    requires Shape(s) && Owned(s) && Exclusive(s) && e in s.dirs && d < UPDES && DataPage(s, u)
    requires !Present(Pde(s, e, d)) && s.free != [] ==> u != s.free[0] && forall r :: Target(s, r) != s.free[0]
    requires PageInsert(s, e, d, t, pp, perm).1
    ensures var s' := PageInsert(s, e, d, t, pp, perm).0; |s'.mem| == |s.mem| && s'.mem[u] == s.mem[u]
  {
    assert Target(s, DirRef(e)) == s.dirs[e];
    assert Present(Pde(s, e, d)) ==> Target(s, PdeRef(e, d)) == Pde(s, e, d).ppn;
    hide Owned, Exclusive, Refs, SetMapping, WalkCreate;
    WalkContents(s, e, d, u);
    var w := WalkCreate(s, e, d).0;
    var w1 := WidenPde(w, e, d, perm);
    assert |w1.mem| == |s.mem| && w1.dirs == s.dirs && w1.mem[u] == s.mem[u];
    assert Pde(w1, e, d) == Pde(w, e, d).(perm := Pde(w, e, d).perm + perm + {PTE_P});
    SetContents(w1, e, d, t, pp, perm, u);
  }

  lemma WalkContents(s: Pm, e: nat, d: nat, u: nat)
    requires Shape(s) && e in s.dirs && d < UPDES && u < |s.mem| && s.dirs[e] < |s.mem| && s.dirs[e] != u
    requires Present(Pde(s, e, d)) ==> Pde(s, e, d).ppn != u && Pde(s, e, d).ppn != s.dirs[e]
    requires !Present(Pde(s, e, d)) && s.free != [] ==> u != s.free[0] && s.dirs[e] != s.free[0]
    requires WalkCreate(s, e, d).1
    ensures var w := WalkCreate(s, e, d).0;
            && |w.mem| == |s.mem| && w.dirs == s.dirs && w.mem[u] == s.mem[u] && Pde(w, e, d).ppn != u
            && |w.mem[s.dirs[e]]| == NENTRIES && Present(Pde(w, e, d)) && Pde(w, e, d).ppn != s.dirs[e]
  {
  }

  lemma SetContents(s: Pm, e: nat, d: nat, t: nat, pp: nat, perm: Perm, u: nat)
    requires u < |s.mem| && Pde(s, e, d).ppn != u
    requires Present(Pde(s, e, d)) && e in s.dirs && s.dirs[e] != Pde(s, e, d).ppn
    ensures var s' := SetMapping(s, e, d, t, pp, perm); |s'.mem| == |s.mem| && s'.mem[u] == s.mem[u]
  {
    var s1 := if pp == Pte(s, e, d, t).ppn then s else PageRemove(IncRef(s, pp), e, d, t);
    assert |s1.mem| == |s.mem| && s1.mem[u] == s.mem[u] && s1.dirs == s.dirs;
    assert Pde(s1, e, d) == Pde(s, e, d);
  }

  /** sys_page_alloc's page reads as zero, and no page of user data changes. */
  lemma PageAllocContents(s: Pm, e: nat, va: nat, perm: Perm, u: nat)
    requires Inv(s, {}) && e in s.dirs && va < UTOP && PageAllocAt(s, e, va, perm).1 == 0 && DataPage(s, u)
    requires u == s.free[0] || u !in s.free
    ensures var s' := PageAllocAt(s, e, va, perm).0;
            |s'.mem| == |s.mem| && s'.mem[u] == if u == s.free[0] then ZeroFrame() else s.mem[u]
  {
    hide Refs, ZeroFilled, RightsNested, PageInsert;
    var p := s.free[0];
    assert p in s.free;
    UserDirectoryEntries(va);
    AllocInv(s, {});
    var s1 := PageAlloc(s);
    SameTablesKeep(s, s1);
    if s1.free != [] {
      assert s1.free[0] == s.free[1] && s.free[1] in s.free && s1.free[0] != p;
      Unreferenced(s, s.free[1]);
    }
    InsertContents(s1, e, PDX(va), PTX(va), p, perm, u);
  }

  /** A page that a user entry names may be mapped again while its count has room. */
  lemma UserPageMappable(s: Pm, limbo: set<nat>, e: nat, d: nat, t: nat)
    requires Inv(s, limbo) && d < UPDES && t < NENTRIES && Present(Pte(s, e, d, t))
    requires Pte(s, e, d, t).ppn < |s.refs| ==> s.refs[Pte(s, e, d, t).ppn] < REF_LIMIT - 1
    ensures Mappable(s, limbo, Pte(s, e, d, t).ppn)
  {
    hide Refs, ZeroFilled, RightsNested, FreeExact;
    TargetPte(s, e, d, t);
    Referenced(s, PteRef(e, d, t));
  }

  /** sys_page_map's core: the destination entry names the source page, and nothing else changes. */
  lemma PageMapAtInv(s: Pm, src: nat, srcva: nat, dst: nat, dstva: nat, perm: Perm)
    requires Inv(s, {}) && src in s.dirs && dst in s.dirs
    requires RoomFor(s, src, srcva)
    ensures var (s', r) := PageMapAt(s, src, srcva, dst, dstva, perm);
            && Inv(s', {}) && (r == 0 || r == -E_NO_MEM || r == -E_INVAL)
            && (r == 0 ==> FlatUpdate(s, s', dst, PDX(dstva), PTX(dstva),
                             Entry(Pte(s, src, PDX(srcva), PTX(srcva)).ppn, perm + {PTE_P})))
            && (r != 0 ==> s' == s)
  {
    hide Refs, Owned, Exclusive, ZeroFilled, RightsNested, Counted, FreeExact;
    var x := Pte(s, src, PDX(srcva), PTX(srcva));
    if UserPage(srcva) && UserPage(dstva) && Present(x) && (PTE_W in x.perm || PTE_W !in perm) {
      UserDirectoryEntries(srcva);
      UserDirectoryEntries(dstva);
      UserPageMappable(s, {}, src, PDX(srcva), PTX(srcva));
      PageInsertInv(s, {}, dst, PDX(dstva), PTX(dstva), x.ppn, perm);
      assert {} - {x.ppn} == {};
    }
  }

  lemma PageUnmapInv(s: Pm, e: nat, va: nat)
    requires Inv(s, {}) && va < UTOP
    ensures Inv(PageRemove(s, e, PDX(va), PTX(va)), {})
    ensures FlatUpdate(s, PageRemove(s, e, PDX(va), PTX(va)), e, PDX(va), PTX(va), ZERO)
  {
    hide Refs, Owned, Exclusive, ZeroFilled, RightsNested, Counted, FreeExact;
    UserDirectoryEntries(va);
    RemoveInv(s, {}, e, PDX(va), PTX(va));
  }

  // ----- the environment table -----

  lemma SetEnvCpu(k: K, e: nat, v: Env, h: int)
    requires CpuOk(k, h) && e < |k.envs|
    requires v.status != FREE
    requires v.status == RUNNING || v.status == DYING ==> OnCpu(k, e)
    requires forall c :: 0 <= c < |k.cpu| && c != h && k.cpu[c] == e ==> v.status == RUNNING || v.status == DYING
    requires 0 <= h < |k.cpu| && k.cpu[h] == e ==> v.status in {RUNNING, RUNNABLE, NOT_RUNNABLE}
    ensures CpuOk(SetEnv(k, e, v), h)
  {
    var k' := SetEnv(k, e, v);
    forall i | 0 <= i < |k'.envs| && (k'.envs[i].status == RUNNING || k'.envs[i].status == DYING)
      ensures OnCpu(k', i)
    {
      assert OnCpu(k, i);
      var c :| 0 <= c < |k.cpu| && k.cpu[c] == i;
      assert k'.cpu[c] == i;
    }
  }

  /** Changing one live environment's status, IPC fields or trapframe. */
  lemma SetEnvOk(k: K, e: nat, v: Env, h: int)
    requires EnvsOk(k, h) && e < |k.envs|
    requires v.id == k.envs[e].id && v.idle == k.envs[e].idle && v.parent == k.envs[e].parent
    requires v.status != FREE && k.envs[e].status != FREE
    requires v.recving ==> v.status == NOT_RUNNABLE && (v.dstva == IPC_NO_PAGE || UserPage(v.dstva))
    requires e < |k.cpu| ==> !v.recving && (v.status == RUNNABLE || v.status == RUNNING)
    requires v.status == RUNNING || v.status == DYING ==> OnCpu(k, e)
    requires forall c :: 0 <= c < |k.cpu| && c != h && k.cpu[c] == e ==> v.status == RUNNING || v.status == DYING
    requires 0 <= h < |k.cpu| && k.cpu[h] == e ==> v.status in {RUNNING, RUNNABLE, NOT_RUNNABLE}
    ensures EnvsOk(SetEnv(k, e, v), h)
  {
    hide CpuOk;
    SetEnvCpu(k, e, v, h);
  }

  lemma UnrunOk(k: K, c: nat)
    requires EnvsOk(k, c) && c < |k.cpu|
    ensures EnvsOk(Unrun(k, c), c)
    ensures k.cpu[c] >= 0 ==> Unrun(k, c).envs[k.cpu[c]].status != RUNNING
  {
    if k.cpu[c] >= 0 && k.envs[k.cpu[c]].status == RUNNING {
      SetEnvOk(k, k.cpu[c], k.envs[k.cpu[c]].(status := RUNNABLE), c);
    }
  }

  /** Making runnable environment e current on CPU c. */
  function Install(k: K, c: nat, e: nat): K
    requires c < |k.cpu| && e < |k.envs|
  {
    k.(envs := k.envs[e := k.envs[e].(status := RUNNING, runs := k.envs[e].runs + 1)], cpu := k.cpu[c := e])
  }

  lemma InstallCpu(k: K, c: nat, e: nat)
    requires CpuOk(k, c) && c < |k.cpu| <= |k.envs| && e < |k.envs|
    requires k.cpu[c] >= 0 ==> k.envs[k.cpu[c]].status != RUNNING
    requires k.envs[e].status == RUNNABLE && (e < |k.cpu| ==> e == c)
    ensures CpuOk(Install(k, c, e), -1)
  {
    var k' := Install(k, c, e);
    forall i | 0 <= i < |k'.envs| && (k'.envs[i].status == RUNNING || k'.envs[i].status == DYING)
      ensures OnCpu(k', i)
    {
      if i == e {
        assert k'.cpu[c] == i;
      } else {
        assert OnCpu(k, i);
        var d :| 0 <= d < |k.cpu| && k.cpu[d] == i;
        assert k'.cpu[d] == i;
      }
    }
  }

  lemma InstallTable(k: K, c: nat, e: nat)
    requires ListOk(k) && IdsOk(k) && IpcOk(k) && IdleOk(k) && c < |k.cpu| && e < |k.envs|
    requires k.envs[e].status == RUNNABLE
    ensures var k' := Install(k, c, e); ListOk(k') && IdsOk(k') && IpcOk(k') && IdleOk(k')
  {
  }

  /** Switching to a runnable environment that this CPU may run. */
  lemma EnvRunOk(k: K, c: nat, e: nat)
    requires EnvsOk(k, c) && c < |k.cpu| && e < |k.envs|
    requires k.cpu[c] >= 0 ==> k.envs[k.cpu[c]].status != RUNNING
    requires k.envs[e].status == RUNNABLE && (e < |k.cpu| ==> e == c)
    ensures EnvsOk(EnvRun(k, c, e), -1) && EnvRun(k, c, e) == Install(k, c, e)
  {
    hide ListOk, IdsOk, IpcOk;
    InstallCpu(k, c, e);
    InstallTable(k, c, e);
  }

  /** CPU c may run e: a runnable environment or its own current one, and no idle environment but its own. */
  ghost predicate MayRun(k: K, c: nat, e: nat)
    requires c < |k.cpu| && e < |k.envs|
  {
    && (k.envs[e].status == RUNNABLE || (k.cpu[c] == e && k.envs[e].status == RUNNING))
    && (e < |k.cpu| ==> e == c)
  }

  /** env_run always puts the current environment back and installs the new one. */
  lemma EnvRunForm(k: K, c: nat, e: nat)
    requires c < |k.cpu| && e < |k.envs| && k.cpu[c] < |k.envs|
    ensures EnvRun(k, c, e) == Install(Unrun(k, c), c, e)
  {
  }

  /** So it keeps the kernel consistent, whether or not the current environment still runs. */
  lemma EnvRunKeeps(k: K, c: nat, e: nat)
    requires KInv(k, c) && c < |k.cpu| && e < |k.envs| && k.cpu[c] < |k.envs| && MayRun(k, c, e)
    ensures KInv(EnvRun(k, c, e), -1)
  {
    hide Inv, ListOk, IdsOk, IpcOk, IdleOk, CpuOk, EnvRun;
    EnvRunForm(k, c, e);
    UnrunOk(k, c);
    var k1 := Unrun(k, c);
    UnrunLive(k, c);
    InstallLive(k, c, e);
    InstallOk(k1, c, e);
  }

  lemma InstallOk(k: K, c: nat, e: nat)
    requires EnvsOk(k, c) && c < |k.cpu| && e < |k.envs|
    requires k.cpu[c] >= 0 ==> k.cpu[c] < |k.envs| && k.envs[k.cpu[c]].status != RUNNING
    requires k.envs[e].status == RUNNABLE && (e < |k.cpu| ==> e == c)
    ensures EnvsOk(Install(k, c, e), -1)
  {
    hide ListOk, IdsOk, IpcOk;
    InstallCpu(k, c, e);
    InstallTable(k, c, e);
  }

  lemma ScanFinds(envs: seq<Env>, start: nat, left: nat)
    requires |envs| > 0
    ensures var i := Scan(envs, start, left); i >= 0 ==> Eligible(envs, i)
    decreases left
  {
  }

  /** With no eligible environment, this CPU's idle environment can be run. */
  lemma IdleRunnable(k: K, c: nat)
    requires IdleOk(k) && CpuOk(k, c) && c < |k.cpu|
    requires k.cpu[c] >= 0 ==> k.envs[k.cpu[c]].status != RUNNING
    ensures k.envs[c].status == RUNNABLE
  {
    assert k.envs[c].status == RUNNING ==> OnCpu(k, c);
  }

  lemma EligibleNotIdle(k: K, i: nat)
    requires IdleOk(k) && i < |k.envs| && Eligible(k.envs, i)
    ensures i >= |k.cpu|
  {
  }

  ghost predicate SameLive(k: K, k': K) {
    && |k'.envs| == |k.envs| && |k'.cpu| == |k.cpu|
    && forall e :: 0 <= e < |k.envs| ==> (k'.envs[e].status == FREE <==> k.envs[e].status == FREE)
  }

  lemma UnrunLive(k: K, c: nat)
    requires c < |k.cpu| && k.cpu[c] < |k.envs|
    ensures SameLive(k, Unrun(k, c))
  {
  }

  lemma InstallLive(k: K, c: nat, e: nat)
    requires c < |k.cpu| && e < |k.envs| && k.cpu[c] < |k.envs| && Unrun(k, c).envs[e].status == RUNNABLE
    ensures SameLive(k, Install(Unrun(k, c), c, e))
  {
  }

  /** sched_yield never panics for lack of an idle environment, and leaves every CPU consistent. */
  lemma SchedOk(k: K, c: nat)
    requires EnvsOk(k, c) && c < |k.cpu|
    ensures 0 < |k.envs| && k.cpu[c] < |k.envs|
    ensures !SchedYield(k, c).NoIdle?
    ensures SchedYield(k, c).Ran? ==>
              var k' := SchedYield(k, c).k;
              EnvsOk(k', -1) && k'.pm == k.pm && k'.kdir == k.kdir && k'.cpu[c] >= 0 && SameLive(k, k')
    ensures SchedYield(k, c).Monitor? ==>
              var k' := SchedYield(k, c).k;
              EnvsOk(k', c) && k'.pm == k.pm && k'.kdir == k.kdir && SameLive(k, k')
  {
    assert 0 < |k.envs| && k.cpu[c] < |k.envs| && |k.cpu| <= |k.envs|;
    hide ListOk, IdsOk, IpcOk, IdleOk, CpuOk, EnvRun;
    SchedChoice(k, c);
  }

  lemma SchedChoice(k: K, c: nat)
    requires EnvsOk(k, c) && c < |k.cpu| <= |k.envs| && k.cpu[c] < |k.envs|
    ensures !SchedYield(k, c).NoIdle?
    ensures SchedYield(k, c).Ran? ==> EnvsOk(SchedYield(k, c).k, -1) && SameLive(k, SchedYield(k, c).k)
    ensures SchedYield(k, c).Ran? ==>
              exists i: nat :: i < |k.envs| && SchedYield(k, c).k == Install(Unrun(k, c), c, i)
    ensures SchedYield(k, c).Monitor? ==> EnvsOk(SchedYield(k, c).k, c) && SameLive(k, SchedYield(k, c).k)
  {
    hide ListOk, IdsOk, IpcOk, IdleOk, CpuOk, EnvRun, SameLive;
    var k1 := Unrun(k, c);
    UnrunLive(k, c);
    UnrunOk(k, c);
    ScanFinds(k1.envs, ScanStart(k, c), |k.envs|);
    var i := Scan(k1.envs, ScanStart(k, c), |k.envs|);
    if i >= 0 {
      EligibleNotIdle(k1, i);
      EnvRunOk(k1, c, i);
      InstallLive(k, c, i);
    } else {
      IdleRunnable(k1, c);
      EnvRunOk(k1, c, c);
      InstallLive(k, c, c);
    }
  }

  function Freed(k: K, c: nat, e: nat): K
    requires e < |k.envs| && c < |k.cpu|
  {
    EnvFree(k, e).(cpu := if k.cpu[c] == e then k.cpu[c := -1] else k.cpu)
  }

  lemma FreedCpu(k: K, c: nat, e: nat)
    requires CpuOk(k, c) && c < |k.cpu| <= e < |k.envs|
    requires forall d :: 0 <= d < |k.cpu| && k.cpu[d] == e ==> d == c
    ensures CpuOk(Freed(k, c, e), c)
  {
    hide FreeSpace;
    var k' := Freed(k, c, e);
    forall i | 0 <= i < |k'.envs| && (k'.envs[i].status == RUNNING || k'.envs[i].status == DYING)
      ensures OnCpu(k', i)
    {
      assert OnCpu(k, i);
      var d :| 0 <= d < |k.cpu| && k.cpu[d] == i;
      assert k'.cpu[d] == i;
    }
  }

  lemma FreedTable(k: K, c: nat, e: nat)
    requires ListOk(k) && IdsOk(k) && IpcOk(k) && IdleOk(k) && c < |k.cpu| <= e < |k.envs| && k.envs[e].status != FREE
    ensures var k' := Freed(k, c, e); ListOk(k') && IdsOk(k') && IpcOk(k') && IdleOk(k')
  {
    hide FreeSpace;
    assert e !in k.free;
  }

  /** env_free of an environment no other CPU is running. */
  lemma EnvFreeOk(k: K, c: nat, e: nat)
    requires EnvsOk(k, c) && c < |k.cpu| <= e < |k.envs| && k.envs[e].status != FREE
    requires forall d :: 0 <= d < |k.cpu| && k.cpu[d] == e ==> d == c
    ensures EnvsOk(Freed(k, c, e), c)
  {
    hide CpuOk, ListOk, IdsOk, IpcOk, IdleOk;
    FreedCpu(k, c, e);
    FreedTable(k, c, e);
  }

  lemma ModShift(a: int, slot: nat, n: nat)
    requires slot < n <= GENERATION && GENERATION % n == 0 && a % GENERATION == 0
    ensures (a + slot) % n == slot && (a + slot) - (a + slot) % n == a
  {
    var q, m := a / GENERATION, GENERATION / n;
    assert a == q * GENERATION && GENERATION == m * n;
    assert a == (q * m) * n by {
      assert q * (m * n) == (q * m) * n;
    }
    MulMod(q * m, slot, n);
  }

  lemma NextIdForm(id: int, slot: nat, n: nat)
    requires 0 < n <= GENERATION && GENERATION % n == 0 && slot < n && IdOk(id, slot)
    ensures NextId(id, slot, n) ==
              if id != 0 && id - slot + GENERATION < INT_LIMIT then id + GENERATION else GENERATION + slot
  {
    if id == 0 {
      assert Wrap32(id + GENERATION) == GENERATION;
      ModShift(GENERATION, 0, n);
    } else if id - slot + GENERATION < INT_LIMIT {
      var a := id - slot + GENERATION;
      assert Wrap32(id + GENERATION) == a + slot;
      ModShift(a, slot, n);
    } else {
      var a := 0 - INT_LIMIT;
      assert Wrap32(id + GENERATION) == a + slot;
      ModShift(a, slot, n);
    }
  }

  /** The next identifier is positive, names its slot, and fits 31 bits. */
  lemma NextIdOk(id: int, slot: nat, n: nat)
    requires 0 < n <= GENERATION && GENERATION % n == 0 && slot < n && IdOk(id, slot)
    ensures IdOk(NextId(id, slot, n), slot) && NextId(id, slot, n) > 0
    ensures NextId(id, slot, n) ==
              if id != 0 && id - slot + GENERATION < INT_LIMIT then id + GENERATION else GENERATION + slot
    ensures NextId(id, slot, n) % n == slot
  {
    NextIdForm(id, slot, n);
    if id != 0 && id - slot + GENERATION < INT_LIMIT {
      ModShift(id - slot + GENERATION, slot, n);
    } else {
      ModShift(GENERATION, slot, n);
    }
  }

  // ----- each system call -----

  /** The state in which a trap is dispatched: c is inside the kernel, its environment running. */
  ghost predicate Entered(k: K, c: nat) {
    KInv(k, c) && c < |k.cpu| && k.cpu[c] >= 0 && k.envs[k.cpu[c]].status == RUNNING
  }

  /** What dispatching a trap must leave: the invariant and, if it returns, the same running environment. */
  ghost predicate Left(k: K, c: nat, o: Outcome) {
    match o
    case Return(k', _) => Entered(k', c) && k'.cpu == k.cpu && |k'.envs| == |k.envs|
    case Switch(k') => KInv(k', c) && |k'.cpu| == |k.cpu| && |k'.envs| == |k.envs|
    case Panic(k') => Entered(k', c) && |k'.cpu| == |k.cpu| && |k'.envs| == |k.envs|
  }

  /** Changing only the memory half. */
  lemma MemoryCall(k: K, c: nat, pm: Pm, r: int)
    requires Entered(k, c) && Inv(pm, {}) && UpperKept(k.pm, pm) && pm.dirs == k.pm.dirs
    ensures Left(k, c, Return(k.(pm := pm), r))
  {
    hide Inv, Guarded, UpperKept;
    KeptGuarded(k.pm, pm, k.kdir);
    assert OnCpuSame(k, k.(pm := pm));
  }

  ghost predicate OnCpuSame(k: K, k': K) {
    forall e :: OnCpu(k, e) ==> OnCpu(k', e)
  }

  /** Changing one live environment's fields. */
  lemma MemOkSetEnv(k: K, e: nat, v: Env)
    requires MemOk(k) && e < |k.envs| && k.envs[e].status != FREE && v.status != FREE
    ensures MemOk(SetEnv(k, e, v))
  {
    hide Inv;
  }

  lemma IdFound(k: K, c: nat, envid: int, checkperm: bool)
    requires Entered(k, c) && EnvId2Env(k, c, envid, checkperm).Found?
    ensures var e := EnvId2Env(k, c, envid, checkperm).slot;
            && e < |k.envs| && k.envs[e].status != FREE && e in k.pm.dirs
            && (checkperm && k.cpu[c] >= |k.cpu| ==> e >= |k.cpu|)
  {
    hide Inv, IpcOk, ListOk;
  }

  lemma DestroyOk(k: K, c: nat, e: nat)
    requires Entered(k, c) && |k.cpu| <= e < |k.envs| && k.envs[e].status != FREE && k.envs[e].status != DYING
    ensures Left(k, c, EnvDestroy(k, c, e))
  {
    if k.envs[e].status == RUNNING && k.cpu[c] != e {
      var v := k.envs[e].(status := DYING);
      assert OnCpu(k, e);
      SetEnvOk(k, e, v, c);
      MemOkSetEnv(k, e, v);
      hide MemOk, ListOk, IdsOk, IpcOk;
    } else {
      DestroyFrees(k, c, e);
    }
  }

  lemma DestroyFrees(k: K, c: nat, e: nat)
    requires Entered(k, c) && |k.cpu| <= e < |k.envs| && k.envs[e].status != FREE && k.envs[e].status != DYING
    requires k.envs[e].status != RUNNING || k.cpu[c] == e
    ensures Left(k, c, EnvDestroy(k, c, e))
  {
    hide Inv, FreeSpace, ListOk, IdsOk, IpcOk, IdleOk;
    EnvFreeOk(k, c, e);
    FreedMem(k, c, e);
  }

  lemma FreedMem(k: K, c: nat, e: nat)
    requires MemOk(k) && e < |k.envs| && c < |k.cpu| && k.envs[e].status != FREE
    ensures MemOk(Freed(k, c, e))
  {
    hide Inv, FreeSpace, OthersSame, Guarded, UpperKept;
    FreeSpaceExact(k.pm, {}, e);
    FreeSpaceKept(k.pm, {}, e);
    KeptGuarded(k.pm, FreeSpace(k.pm, e), k.kdir);
  }

  lemma ExoforkOk(k: K, c: nat)
    requires Entered(k, c) && Ready(k, c)
    ensures Left(k, c, SysExofork(k, c))
  {
    hide Inv, IpcOk, IdleOk, CpuOk, IdsOk, ListOk;
    if k.free != [] {
      SetupVmInv(k.pm, k.free[0], k.kdir) by {
        assert k.free[0] in k.free;
        FreeSlot(k);
      }
      FreeSlot(k);
      if SetupVm(k.pm, k.free[0], k.kdir).1 {
        NewEnvOk(k, c);
      } else {
        assert SysExofork(k, c) == Return(k, -E_NO_MEM);
      }
    }
  }

  lemma FreeSlot(k: K)
    requires ListOk(k) && k.free != []
    ensures k.free[0] < |k.envs| && k.envs[k.free[0]].status == FREE
  {
    assert k.free[0] in k.free;
  }

  /** The environment sys_exofork leaves in slot e. */
  function Child(k: K, c: nat, e: nat): Env
    requires c < |k.cpu| && 0 <= k.cpu[c] < |k.envs| && e < |k.envs|
  {
    var cur := k.envs[k.cpu[c]];
    k.envs[e].(id := NextId(k.envs[e].id, e, |k.envs|), parent := cur.id, idle := false, status := NOT_RUNNABLE,
               runs := 0, tf := cur.tf.(eax := 0), upcall := 0, recving := false)
  }

  lemma ExoforkForm(k: K, c: nat)
    requires Ready(k, c) && k.free != [] && SetupVm(k.pm, k.free[0], k.kdir).1
    ensures var e := k.free[0];
            && e in k.free
            && SysExofork(k, c) ==
                 Return(k.(pm := SetupVm(k.pm, e, k.kdir).0, envs := k.envs[e := Child(k, c, e)], free := k.free[1..]),
                        Child(k, c, e).id)
  {
    var e := k.free[0];
    assert e in k.free;
    hide SetupVm, NextId;
    var (k1, r) := EnvAlloc(k, k.envs[k.cpu[c]].id);
    assert r == e;
  }

  lemma ChildCpu(k: K, k': K, c: nat, e: nat)
    requires CpuOk(k, c) && e < |k.envs| && k.envs[e].status == FREE
    requires k'.cpu == k.cpu && |k'.envs| == |k.envs| && k'.envs[e].status == NOT_RUNNABLE
    requires forall i :: 0 <= i < |k.envs| && i != e ==> k'.envs[i] == k.envs[i]
    ensures CpuOk(k', c)
  {
    forall i | 0 <= i < |k'.envs| && (k'.envs[i].status == RUNNING || k'.envs[i].status == DYING)
      ensures OnCpu(k', i)
    {
      assert OnCpu(k, i);
      var d :| 0 <= d < |k.cpu| && k.cpu[d] == i;
      assert k'.cpu[d] == i;
    }
  }

  lemma ChildTable(k: K, k': K, e: nat)
    requires ListOk(k) && IdsOk(k) && IpcOk(k) && IdleOk(k) && e < |k.envs| && k.free != [] && k.free[0] == e
    requires k'.cpu == k.cpu && |k'.envs| == |k.envs| && k'.free == k.free[1..]
    requires k.envs[e].status == FREE && k'.envs[e].status == NOT_RUNNABLE && !k'.envs[e].recving && !k'.envs[e].idle
    requires IdOk(k'.envs[e].id, e) && k'.envs[e].id > 0
    requires forall i :: 0 <= i < |k.envs| && i != e ==> k'.envs[i] == k.envs[i]
    ensures ListOk(k') && IdsOk(k') && IpcOk(k') && IdleOk(k')
  {
    hide ListOk;
    ChildList(k, k', e);
  }

  lemma ChildList(k: K, k': K, e: nat)
    requires ListOk(k) && e < |k.envs| && k.free != [] && k.free[0] == e
    requires |k'.envs| == |k.envs| && k'.free == k.free[1..] && k'.envs[e].status != FREE
    requires forall i :: 0 <= i < |k.envs| && i != e ==> k'.envs[i] == k.envs[i]
    ensures ListOk(k')
  {
    assert k.free == [e] + k'.free;
    forall i, j | 0 <= i < j < |k'.free|
      ensures k'.free[i] != k'.free[j]
    {
      assert k.free[i + 1] != k.free[j + 1];
    }
    forall i: nat
      ensures i in k'.free <==> i < |k'.envs| && k'.envs[i].status == FREE
    {
      assert i in k.free <==> i == e || i in k'.free;
    }
  }

  lemma ChildMem(k: K, k': K, e: nat)
    requires MemOk(k) && e < |k.envs| && k.envs[e].status == FREE && k'.kdir == k.kdir
    requires SetupVm(k.pm, e, k.kdir).1 && k'.pm == SetupVm(k.pm, e, k.kdir).0
    requires |k'.envs| == |k.envs| && k'.envs[e].status != FREE
    requires forall i :: 0 <= i < |k.envs| && i != e ==> k'.envs[i] == k.envs[i]
    ensures MemOk(k')
  {
    hide Inv, SetupVm, Guarded;
    SetupVmInv(k.pm, e, k.kdir);
    SetupGuarded(k.pm, e, k.kdir);
  }

  lemma NewEnvOk(k: K, c: nat)
    requires Entered(k, c) && Ready(k, c) && k.free != [] && SetupVm(k.pm, k.free[0], k.kdir).1
    ensures Left(k, c, SysExofork(k, c))
  {
    FreeSlot(k);
    var e := k.free[0];
    ExoforkForm(k, c);
    NextIdOk(k.envs[e].id, e, |k.envs|);
    var k' := k.(pm := SetupVm(k.pm, e, k.kdir).0, envs := k.envs[e := Child(k, c, e)], free := k.free[1..]);
    hide Inv, SetupVm, NextId, SysExofork;
    ChildMem(k, k', e);
    ChildTable(k, k', e);
    ChildCpu(k, k', c, e);
  }

  lemma SetStatusOk(k: K, c: nat, envid: int, status: Status)
    requires Entered(k, c) && Ready(k, c) && Allowed(k, c, SetStatus(envid, status))
    ensures Left(k, c, SysSetStatus(k, c, envid, status))
  {
    hide MemOk, ListOk, IdsOk, CpuOk, IdleOk, EnvId2Env;
    var t := EnvId2Env(k, c, envid, true);
    if t.Found? {
      IdFound(k, c, envid, true);
      if k.envs[t.slot].status == RUNNABLE || k.envs[t.slot].status == NOT_RUNNABLE {
        StatusFits(k, c, t.slot, status);
        MemOkSetEnv(k, t.slot, k.envs[t.slot].(status := status));
      }
    }
  }

  lemma StatusFits(k: K, c: nat, e: nat, status: Status)
    requires EnvsOk(k, c) && c < |k.cpu| <= e < |k.envs| && k.cpu[c] >= 0 && k.cpu[c] != e
    requires k.envs[e].status == RUNNABLE || k.envs[e].status == NOT_RUNNABLE
    requires status != FREE && status != DYING && status != RUNNING && (k.envs[e].recving ==> status == NOT_RUNNABLE)
    ensures EnvsOk(SetEnv(k, e, k.envs[e].(status := status)), c)
  {
    hide ListOk, IdsOk;
    SetEnvOk(k, e, k.envs[e].(status := status), c);
  }

  lemma SetUpcallOk(k: K, c: nat, envid: int, func: nat)
    requires Entered(k, c) && Ready(k, c) && Allowed(k, c, SetUpcall(envid, func))
    ensures Left(k, c, SysSetUpcall(k, c, envid, func))
  {
    hide Inv;
    var t := EnvId2Env(k, c, envid, true);
    if t.Found? {
      IdFound(k, c, envid, true);
      var v := k.envs[t.slot].(upcall := func);
      SetEnvOk(k, t.slot, v, c);
      MemOkSetEnv(k, t.slot, v);
    }
  }

  lemma MemoryCallsOk(k: K, c: nat, call: Call)
    requires Entered(k, c) && Ready(k, c) && Allowed(k, c, call)
    requires call.AllocPage? || call.MapPage? || call.UnmapPage?
    ensures Left(k, c, Dispatch(k, c, call))
  {
    hide Inv, PageAllocAt, PageMapAt, PageRemove, IdsOk, IpcOk, IdleOk, CpuOk, ListOk, FlatUpdate, UpperKept, Guarded;
    match call
    case AllocPage(envid, va, perm) =>
      var t := EnvId2Env(k, c, envid, true);
      if t.Found? && va < UTOP && perm <= PTE_SYSCALL {
        IdFound(k, c, envid, true);
        PageAllocAtInv(k.pm, t.slot, va, perm);
        AllocAtDirs(k.pm, t.slot, va, perm);
        AllocAtKept(k.pm, t.slot, va, perm);
        var (pm', r) := PageAllocAt(k.pm, t.slot, va, perm);
        MemoryCall(k, c, pm', r);
      }
    case MapPage(srcid, srcva, dstid, dstva, perm) =>
      var src := EnvId2Env(k, c, srcid, true);
      var dst := EnvId2Env(k, c, dstid, false);
      if src.Found? && dst.Found? {
        IdFound(k, c, srcid, true);
        IdFound(k, c, dstid, false);
        PageMapAtInv(k.pm, src.slot, srcva, dst.slot, dstva, perm);
        MapAtDirs(k.pm, src.slot, srcva, dst.slot, dstva, perm);
        MapAtKept(k.pm, src.slot, srcva, dst.slot, dstva, perm);
        var (pm', r) := PageMapAt(k.pm, src.slot, srcva, dst.slot, dstva, perm);
        MemoryCall(k, c, pm', r);
      }
    case UnmapPage(envid, va) =>
      var t := EnvId2Env(k, c, envid, true);
      if t.Found? && UserPage(va) {
        IdFound(k, c, envid, true);
        PageUnmapInv(k.pm, t.slot, va);
        var pm' := PageRemove(k.pm, t.slot, PDX(va), PTX(va));
        RemoveDirs(k.pm, t.slot, va);
        UnmapKept(k.pm, t.slot, va);
        MemoryCall(k, c, pm', 0);
      }
  }

  lemma AllocAtDirs(s: Pm, e: nat, va: nat, perm: Perm)
    requires Inv(s, {}) && e in s.dirs && va < UTOP
    ensures PageAllocAt(s, e, va, perm).0.dirs == s.dirs
  {
    hide Inv, PageAllocAt;
    PageAllocAtInv(s, e, va, perm);
  }

  lemma MapAtDirs(s: Pm, src: nat, srcva: nat, dst: nat, dstva: nat, perm: Perm)
    requires Inv(s, {}) && src in s.dirs && dst in s.dirs && RoomFor(s, src, srcva)
    ensures PageMapAt(s, src, srcva, dst, dstva, perm).0.dirs == s.dirs
  {
    hide Inv, PageMapAt;
    PageMapAtInv(s, src, srcva, dst, dstva, perm);
  }

  lemma RemoveDirs(s: Pm, e: nat, va: nat)
    requires Inv(s, {}) && va < UTOP
    ensures PageRemove(s, e, PDX(va), PTX(va)).dirs == s.dirs
  {
    hide Inv, PageRemove;
    PageUnmapInv(s, e, va);
  }

  lemma DeliverOk(k: K, c: nat, e: nat, value: int, perm: Perm)
    requires Entered(k, c) && Ready(k, c) && e < |k.envs| && k.envs[e].status != FREE && k.envs[e].recving
    ensures Left(k, c, Return(Deliver(k, c, e, value, perm), 0))
  {
    hide Inv;
    var v := Deliver(k, c, e, value, perm).envs[e];
    SetEnvOk(k, e, v, c);
    MemOkSetEnv(k, e, v);
  }

  lemma ClearPermOk(k: K, c: nat, e: nat, r: int)
    requires Entered(k, c) && e < |k.envs| && k.envs[e].status != FREE && k.envs[e].recving
    ensures Left(k, c, Return(SetEnv(k, e, k.envs[e].(perm := {})), r))
  {
    hide Inv;
    var v := k.envs[e].(perm := {});
    SetEnvOk(k, e, v, c);
    MemOkSetEnv(k, e, v);
  }

  lemma TrySendOk(k: K, c: nat, envid: int, value: int, srcva: nat, perm: Perm)
    requires Entered(k, c) && Ready(k, c) && Allowed(k, c, TrySend(envid, value, srcva, perm))
    ensures Left(k, c, SysIpcTrySend(k, c, envid, value, srcva, perm))
  {
    hide Inv, PageMapAt, Deliver, IdsOk, IpcOk, IdleOk, CpuOk, ListOk, EnvId2Env, Pte, MemOk, SendablePage;
    var t := EnvId2Env(k, c, envid, false);
    if t.Found? {
      IdFound(k, c, envid, false);
      var e := t.slot;
      if !k.envs[e].recving || (srcva != IPC_NO_PAGE && !SendablePage(k, c, srcva, perm)) {
      } else if srcva == IPC_NO_PAGE || k.envs[e].dstva == IPC_NO_PAGE {
        DeliverOk(k, c, e, value, {});
      } else if Present(Pte(k.pm, e, PDX(k.envs[e].dstva), PTX(k.envs[e].dstva))) {
        ClearPermOk(k, c, e, -E_NO_MEM);
      } else {
        SendPageOk(k, c, e, value, srcva, perm);
      }
    }
  }

  lemma SendPageOk(k: K, c: nat, e: nat, value: int, srcva: nat, perm: Perm)
    requires Entered(k, c) && Ready(k, c) && e < |k.envs| && k.envs[e].status != FREE && k.envs[e].recving
    requires RoomFor(k.pm, k.cpu[c], srcva)
    ensures var (pm', r) := PageMapAt(k.pm, k.cpu[c], srcva, e, k.envs[e].dstva, perm);
            Left(k, c, Return(Deliver(k.(pm := pm'), c, e, value, perm), 0))
            && Left(k, c, Panic(SetEnv(k.(pm := pm'), e, k.envs[e].(perm := {}))))
  {
    hide Inv, PageMapAt, Deliver, IdsOk, IpcOk, IdleOk, CpuOk, ListOk, FlatUpdate, RoomFor, UpperKept, Guarded;
    CurrentInDirs(k, c);
    PageMapAtInv(k.pm, k.cpu[c], srcva, e, k.envs[e].dstva, perm);
    MapAtDirs(k.pm, k.cpu[c], srcva, e, k.envs[e].dstva, perm);
    MapAtKept(k.pm, k.cpu[c], srcva, e, k.envs[e].dstva, perm);
    var (pm', r) := PageMapAt(k.pm, k.cpu[c], srcva, e, k.envs[e].dstva, perm);
    MemoryCall(k, c, pm', r);
    DeliverOk(k.(pm := pm'), c, e, value, perm);
    ClearPermOk(k.(pm := pm'), c, e, 0);
  }

  lemma CurrentInDirs(k: K, c: nat)
    requires Entered(k, c)
    ensures k.cpu[c] in k.pm.dirs
  {
    hide Inv;
  }

  lemma RecvOk(k: K, c: nat, dstva: nat)
    requires Entered(k, c) && Ready(k, c) && k.cpu[c] >= |k.cpu|
    ensures Left(k, c, SysIpcRecv(k, c, dstva))
  {
    hide Inv;
    if dstva == IPC_NO_PAGE || UserPage(dstva) {
      var v := k.envs[k.cpu[c]].(recving := true, dstva := dstva, status := NOT_RUNNABLE);
      SetEnvOk(k, k.cpu[c], v, c);
      MemOkSetEnv(k, k.cpu[c], v);
    }
  }

  /** Every call a process may make, on every error path too, keeps the kernel invariant. */
  lemma DispatchOk(k: K, c: nat, call: Call)
    requires Entered(k, c) && Ready(k, c) && Allowed(k, c, call)
    ensures Left(k, c, Dispatch(k, c, call))
  {
    hide Inv, EnvDestroy, SysExofork, SysSetStatus, SysSetUpcall, SysPageAlloc, SysPageMap, SysPageUnmap, SysIpcTrySend,
      SysIpcRecv,
      IdsOk, IpcOk, IdleOk, CpuOk, ListOk;
    match call
    case Yield =>
    case Destroy(envid) =>
      var t := EnvId2Env(k, c, envid, true);
      if t.Found? {
        IdFound(k, c, envid, true);
        DestroyOk(k, c, t.slot);
      }
    case Exofork => ExoforkOk(k, c);
    case SetStatus(envid, status) => SetStatusOk(k, c, envid, status);
    case SetUpcall(envid, func) => SetUpcallOk(k, c, envid, func);
    case AllocPage(_, _, _) => MemoryCallsOk(k, c, call);
    case MapPage(_, _, _, _, _) => MemoryCallsOk(k, c, call);
    case UnmapPage(_, _) => MemoryCallsOk(k, c, call);
    case TrySend(envid, msg, va, perm) => TrySendOk(k, c, envid, msg, va, perm);
    case Recv(va) => RecvOk(k, c, va);
    case Crash => DestroyOk(k, c, k.cpu[c]);
    case Stores(words) => StoresOk(k, c, words);
    case Quiet(_) =>
  }

  /** Storing to user memory, with the rights the tables give, changes nothing the kernel relies on. */
  lemma StoresInv(k: K, h: int, e: nat, words: seq<T.Store>)
    requires KInv(k, h)
    ensures KInv(Stored(k, e, words), h) && Stored(k, e, words).pm.dirs == k.pm.dirs
  {
    hide Inv, Guarded, UpperKept, ListOk, IdsOk, IpcOk, IdleOk, CpuOk, T.UserStores;
    StoresKeep(k.pm, k.kdir, e, words);
    PmOnly(k, Stored(k, e, words).pm, h);
  }

  /** The environment half does not look at memory. */
  lemma PmOnly(k: K, pm: Pm, h: int)
    requires EnvsOk(k, h)
    ensures EnvsOk(k.(pm := pm), h)
  {
    assert OnCpuSame(k, k.(pm := pm));
  }

  lemma StoresOk(k: K, c: nat, words: seq<T.Store>)
    requires Entered(k, c) && Ready(k, c)
    ensures Left(k, c, Dispatch(k, c, Stores(words)))
  {
    hide KInv;
    StoresInv(k, c, k.cpu[c], words);
  }

  /** The kernel's own preconditions follow from the invariant. */
  lemma EnteredReady(k: K, c: nat)
    requires Entered(k, c)
    ensures Ready(k, c)
  {
    hide Inv;
  }
}
