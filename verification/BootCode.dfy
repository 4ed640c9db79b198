/**
  Booting on the mutable state: page_init, the kernel's page tables, env_init and the creations of i386_init
  (kern/init.c), programs loaded, up to the state in which the first sched_yield is called.
*/
module BootCode {
  import opened Mmu
  import P = Pmap
  import U = UpperHalf
  import opened Kernel
  import opened KernelInv
  import opened FreeList
  import B = Boot
  import M = PageMap
  import Smp
  import KernelCode

  // ----- kern/env.c: region_alloc, load_icode, env_create -----

  /** region_alloc; false is a panic. */
  method RegionAlloc(k: KernelCode.Kern, e: nat, g: B.Segment) returns (ok: bool)
    requires k.Valid() && P.Inv(k.State().pm, {}) && U.Guarded(k.State().pm, k.kdir) && e in k.mm.dirs
    modifies k.mm, k.mm.refs, k.mm.link, k.mm.mem
    ensures k.Valid()
    ensures match B.RegionAlloc(old(k.State().pm), e, g)
            case None => !ok
            case Some(pm) => ok && k.State().pm == pm && B.Loads(old(k.State().pm), pm, k.kdir)
  {
    hide P.Inv, U.Guarded, PageAllocAt, Chain, U.UpperKept, B.RegionEnd;
    ghost var s0 := k.mm.State();
    if g.file > g.len || B.RegionEnd(g) >= UTOP {
      return false;
    }
    var a, end := g.va - g.va % PGSIZE, B.RegionEnd(g);
    while a < end
      invariant k.Valid() && B.Loads(s0, k.mm.State(), k.kdir) && k.mm.dirs == s0.dirs
      invariant B.RegionFrom(k.mm.State(), e, a, end) == B.RegionAlloc(s0, e, g)
    {
      B.PageLoads(k.mm.State(), e, a, k.kdir);
      var r := k.PageAllocInto(e, a, B.URWP);
      if r != 0 {
        return false;
      }
      a := a + PGSIZE;
    }
    ok := true;
  }

  method LoadSegments(k: KernelCode.Kern, e: nat, gs: seq<B.Segment>) returns (ok: bool)
    requires k.Valid() && P.Inv(k.State().pm, {}) && U.Guarded(k.State().pm, k.kdir) && e in k.mm.dirs
    modifies k.mm, k.mm.refs, k.mm.link, k.mm.mem
    ensures k.Valid()
    ensures match B.LoadSegments(old(k.State().pm), e, gs)
            case None => !ok
            case Some(pm) => ok && k.State().pm == pm && B.Loads(old(k.State().pm), pm, k.kdir)
  {
    hide P.Inv, U.Guarded, Chain, B.RegionAlloc;
    ghost var s0 := k.mm.State();
    var i := 0;
    assert gs[0..] == gs;
    while i < |gs|
      invariant 0 <= i <= |gs| && k.Valid() && B.Loads(s0, k.mm.State(), k.kdir)
      invariant B.LoadSegments(k.mm.State(), e, gs[i..]) == B.LoadSegments(s0, e, gs)
    {
      ok := RegionAlloc(k, e, gs[i]);
      if !ok {
        return;
      }
      assert gs[i..][1..] == gs[i + 1..];
      i := i + 1;
    }
    ok := true;
  }

  /** load_icode: segments, stack and contents. */
  method LoadIcode(k: KernelCode.Kern, e: nat, prog: B.Program) returns (ok: bool)
    requires k.Valid() && P.Inv(k.State().pm, {}) && U.Guarded(k.State().pm, k.kdir) && e in k.mm.dirs
    modifies k.mm, k.mm.refs, k.mm.link, k.mm.mem
    ensures k.Valid()
    ensures match B.LoadIcode(old(k.State().pm), e, prog)
            case None => !ok
            case Some(pm) => ok && k.State().pm == pm
  {
    hide P.Inv, U.Guarded, Chain, B.LoadSegments, T.UserStores;
    if !prog.magic {
      return true;
    }
    ok := LoadSegments(k, e, prog.segments + [B.USTACK]);
    if ok {
      KernelCode.ShapeOf(k.mm.State());
      k.mm.StoreWords(e, prog.words);
    }
  }

  /** env_create; false is its panic. */
  method EnvCreate(k: KernelCode.Kern, idle: bool, prog: B.Program, ghost j: nat) returns (ok: bool)
    requires k.Valid() && B.Starting(k.State(), j) && j < k.envs.Length && idle == (j < |k.cpu|)
    modifies k, k.envs, k.mm, k.mm.refs, k.mm.link, k.mm.mem
    ensures k.Valid() && (forall e :: e in old(k.State()).free ==> e < |old(k.State()).envs|)
    ensures match B.CreateEnv(old(k.State()), idle, prog)
            case None => !ok
            case Some(k') => ok && k.State() == k' && B.Starting(k', j + 1) && k.cpu == old(k.cpu)
  {
    hide P.Inv, P.KernelTemplate, U.Guarded, B.Starting, Chain, EnvAlloc, P.SetupVm, B.LoadIcode;
    ghost var k0 := k.State();
    StartingFacts(k0, j);
    B.AllocForm(k0, j);
    P.SetupVmInv(k0.pm, j, k0.kdir);
    U.SetupGuarded(k0.pm, j, k0.kdir);
    B.CreateStarting(k0, j, prog);
    var r := k.EnvAlloc(0);
    if r < 0 {
      return false;
    }
    ok := LoadIcode(k, r, prog);
    if ok {
      k.PutEnv(r, B.Launched(k.envs[r], idle, prog));
    }
  }

  lemma StartingFacts(k: K, j: nat)
    requires B.Starting(k, j) && j < |k.envs|
    ensures P.Inv(k.pm, {}) && U.Guarded(k.pm, k.kdir) && P.KernelTemplate(k.kdir)
    ensures k.free != [] && k.free[0] == j && j !in k.pm.dirs && forall e :: e in k.free ==> e < |k.envs|
  {
    hide P.Inv, P.KernelTemplate, U.Guarded;
  }

  // ----- kern/init.c -----

  /** kern_pgdir names, above UTOP, only the pages that its tables are put in, and these grant the user no writes. */
  ghost predicate KernelMap(kdir: Frame, tables: seq<Frame>, pool: seq<nat>) {
    && P.KernelTemplate(kdir) && |tables| <= |pool| && (forall i :: 0 <= i < |tables| ==> |tables[i]| == NENTRIES)
    && (forall d: nat :: UPDES <= d < NENTRIES && d != U.SELF && Present(kdir[d]) ==> InTables(kdir[d], tables, pool))
  }

  ghost predicate InTables(x: Entry, tables: seq<Frame>, pool: seq<nat>)
    requires |tables| <= |pool|
  {
    exists i :: 0 <= i < |tables| && x.ppn == pool[i] && ReadOnly(x, tables[i])
  }

  ghost predicate ReadOnly(x: Entry, f: Frame) {
    forall t :: 0 <= t < |f| ==> !({PTE_P, PTE_U, PTE_W} <= x.perm * f[t].perm)
  }

  /** The first i tables are in place, in the first pages of the pool, which the allocator has given up. */
  ghost predicate Placed(s: P.Pm, tables: seq<Frame>, pool: seq<nat>, i: nat)
    requires i <= |tables| <= |pool|
  {
    && P.Inv(s, {}) && s.dirs == map[] && s.free == pool[i..]
    && (forall h :: 0 <= h < i ==> pool[h] !in s.managed && pool[h] < |s.mem| && s.mem[pool[h]] == tables[h])
  }

  lemma PlacedNext(s: P.Pm, tables: seq<Frame>, pool: seq<nat>, i: nat)
    requires i < |tables| <= |pool| && Placed(s, tables, pool, i) && P.Distinct(pool) && |tables[i]| == NENTRIES
    ensures s.free != [] && Placed(U.Withdraw(s, tables[i]), tables, pool, i + 1)
  {
    hide P.Inv;
    assert s.free[0] == pool[i];
    U.WithdrawInv(s, tables[i]);
    assert pool[i..][1..] == pool[i + 1..];
  }

  lemma PlacedTables(s: P.Pm, kdir: Frame, tables: seq<Frame>, pool: seq<nat>)
    requires KernelMap(kdir, tables, pool) && Placed(s, tables, pool, |tables|)
    ensures U.KernelTables(s, kdir)
  {
    hide P.Inv;
    forall d: nat | UPDES <= d < NENTRIES && d != U.SELF && Present(kdir[d])
      ensures kdir[d].ppn !in s.managed && kdir[d].ppn < |s.mem| && U.NotWritable(s, kdir[d])
    {
      assert InTables(kdir[d], tables, pool);
      var i :| 0 <= i < |tables| && kdir[d].ppn == pool[i] && ReadOnly(kdir[d], tables[i]);
      assert s.mem[kdir[d].ppn] == tables[i];
      assert forall t: nat :: P.At(s.mem, kdir[d].ppn, t) == if t < NENTRIES then tables[i][t] else ZERO;
    }
  }

  /** page_init, and the kernel's tables taken from the pages it freed. */
  method MemInit(n: nat, nb: nat, available: int, contents: seq<Frame>, kdir: Frame, tables: seq<Frame>)
    returns (mm: M.PageMap)
    requires EXTMEM <= nb < n == |contents| && (forall f :: 0 <= f < n ==> |contents[f]| == NENTRIES)
    requires KernelMap(kdir, tables, Initial(nb, n))
    ensures fresh(mm) && fresh(mm.refs) && fresh(mm.link) && fresh(mm.mem)
    ensures mm.Valid() && Placed(mm.State(), tables, Initial(nb, n), |tables|) && U.KernelTables(mm.State(), kdir)
  {
    hide P.Inv, Chain, Initial;
    ghost var pool := Initial(nb, n);
    InitialExact(nb, n, 0);
    mm := new M.PageMap(n, nb, available, contents);
    var i := 0;
    while i < |tables|
      invariant 0 <= i <= |tables| && mm.Valid() && Placed(mm.State(), tables, pool, i)
    {
      PlacedNext(mm.State(), tables, pool, i);
      var _ := mm.TakeTable(tables[i]);
      i := i + 1;
    }
    PlacedTables(mm.State(), kdir, tables, pool);
  }

  /**
    i386_init on a machine of n pages whose boot allocations end at page nb, with one environment for each program, one
    idle one per CPU first.  If no creation panics it ends in a state from which the runs of module Smp start,
    whichever CPU b boots; and none panics if the programs lie in user space and there are enough pages.
  */
  method BootKernel(n: nat, nb: nat, available: int, contents: seq<Frame>, kdir: Frame, tables: seq<Frame>,
                    nenv: nat, ncpu: nat, progs: seq<B.Program>) returns (ok: bool, k: KernelCode.Kern)
    requires EXTMEM <= nb < n == |contents| && (forall f :: 0 <= f < n ==> |contents[f]| == NENTRIES)
    requires KernelMap(kdir, tables, Initial(nb, n))
    requires 0 < nenv <= GENERATION && GENERATION % nenv == 0 && ncpu <= |progs| <= nenv
    ensures k.Valid()
    ensures ok ==> |k.cpu| == ncpu && k.envs.Length == nenv
    ensures ok ==> forall b: nat :: b < ncpu ==> Smp.Init(B.StartState(k.State(), b))
    ensures Affordable(|Initial(nb, n)| - |tables|, progs) ==> ok
  {
    hide P.Inv, P.KernelTemplate, U.KernelTables, U.Guarded, B.Starting, Chain, KInv, B.CreateEnv, Initial, B.Fitting;
    var mm := MemInit(n, nb, available, contents, kdir, tables);
    k := new KernelCode.Kern(mm, kdir, nenv, ncpu);
    ghost var k0 := k.State();
    B.BlankStarting(mm.State(), nenv, ncpu, kdir);
    EnoughPages(k0, progs);
    var i := 0;
    assert progs[..0] == [];
    while i < |progs|
      invariant 0 <= i <= |progs| && k.Valid() && B.Starting(k.State(), i) && |k.cpu| == ncpu && k.envs.Length == nenv
      invariant fresh(k) && fresh(k.envs) && fresh(k.mm) && fresh(k.mm.refs) && fresh(k.mm.link) && fresh(k.mm.mem)
      invariant B.Booted(k0, progs[..i]) == B.Some(k.State())
    {
      ok := EnvCreate(k, i < ncpu, progs[i], i);
      BootedNext(k0, progs, i);
      if !ok {
        BootedNone(k0, progs, i + 1);
        return;
      }
      i := i + 1;
    }
    ok := true;
    forall b: nat | b < ncpu
      ensures Smp.Init(B.StartState(k.State(), b))
    {
      B.StartsRun(k.State(), b, |progs|);
    }
  }

  /** Programs that lie in user space, and pages for all of them. */
  ghost predicate Affordable(pages: int, progs: seq<B.Program>) {
    pages >= B.ProgramsNeed(progs) && forall i :: 0 <= i < |progs| ==> B.Fitting(progs[i])
  }

  lemma EnoughPages(k: K, progs: seq<B.Program>)
    requires B.Starting(k, 0) && |progs| <= |k.envs|
    ensures Affordable(|k.pm.free|, progs) ==> B.Booted(k, progs).Some?
  {
    hide B.Starting, B.Fitting, B.CreateEnv;
    if Affordable(|k.pm.free|, progs) {
      B.BootSucceeds(k, progs);
    }
  }

  lemma BootedNext(k0: K, progs: seq<B.Program>, i: nat)
    requires B.Starting(k0, 0) && i < |progs| <= |k0.envs| && B.Booted(k0, progs[..i]).Some?
    ensures var k := B.Booted(k0, progs[..i]).value;
            && |k.envs| > 0 && (forall e :: e in k.free ==> e < |k.envs|)
            && B.Booted(k0, progs[..i + 1]) == B.CreateEnv(k, i < |k.cpu|, progs[i])
  {
    hide B.Starting, B.CreateEnv;
    var p := progs[..i + 1];
    assert p[..i] == progs[..i] && p[i] == progs[i];
    StartingFacts(B.Booted(k0, progs[..i]).value, i);
  }

  lemma {:induction false} BootedNone(k0: K, progs: seq<B.Program>, i: nat)
    requires B.Starting(k0, 0) && i <= |progs| <= |k0.envs| && B.Booted(k0, progs[..i]).None?
    ensures B.Booted(k0, progs).None?
    decreases |progs| - i
  {
    hide B.Starting, B.CreateEnv;
    if i == |progs| {
      assert progs[..i] == progs;
    } else {
      var p := progs[..i + 1];
      assert p[..i] == progs[..i];
      BootedNone(k0, progs, i + 1);
    }
  }
}
