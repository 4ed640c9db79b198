/**
  From the table env_init leaves (kern/env.c) and the creation of one idle environment per CPU and any number of user
  environments (kern/init.c), each with its program loaded, to the states in which the runs of module Smp start.
*/
module Boot {
  import opened Mmu
  import opened Pmap
  import opened Kernel
  import opened Errors
  import opened KernelInv
  import opened UpperHalf
  import opened Smp
  import opened FreeList
  import IpcLog

  // ----- load_icode -----

  /** A loadable segment: where it goes, its length in memory and in the file. */
  datatype Segment = Segment(va: nat, len: nat, file: nat)

  /** A program image: whether its magic number is right, its segments, the words
      that end up in its pages, its entry. */
  datatype Program = Program(magic: bool, segments: seq<Segment>, words: seq<T.Store>, entry: int)

  datatype Option<T> = None | Some(value: T)

  const USTACK: Segment := Segment(UTOP - 3 * PGSIZE, PGSIZE, 0)
  const URWP: Perm := {PTE_P, PTE_U, PTE_W}

  /** Where region_alloc stops: ROUNDUP(va + len) as a word. */
  function RegionEnd(g: Segment): nat {
    var x := ((g.va + g.len) % ADDR_LIMIT + PGSIZE - 1) % ADDR_LIMIT;
    x - x % PGSIZE
  }

  /** region_alloc from page address a on; None is its panic, or the kernel's fault on a page it could not map. */
  function RegionFrom(s: Pm, e: nat, a: nat, end: nat): Option<Pm>
    decreases end - a
  {
    if a >= end then Some(s)
    else
      var (s', r) := PageAllocAt(s, e, a, URWP);
      if r != 0 then None else RegionFrom(s', e, a + PGSIZE, end)
  }

  function RegionAlloc(s: Pm, e: nat, g: Segment): Option<Pm> {
    if g.file > g.len || RegionEnd(g) >= UTOP then None else RegionFrom(s, e, g.va - g.va % PGSIZE, RegionEnd(g))
  }

  function LoadSegments(s: Pm, e: nat, gs: seq<Segment>): Option<Pm>
    decreases |gs|
  {
    if gs == [] then Some(s)
    else
      match RegionAlloc(s, e, gs[0])
      case None => None
      case Some(s') => LoadSegments(s', e, gs[1..])
  }

  /** The program's segments, then the stack, then their contents; an image without the magic number is skipped. */
  function LoadIcode(s: Pm, e: nat, prog: Program): Option<Pm> {
    if !prog.magic then Some(s)
    else
      match LoadSegments(s, e, prog.segments + [USTACK])
      case None => None
      case Some(s') => Some(T.UserStores(s', e, prog.words))
  }

  /** What loading must leave. */
  ghost predicate Loads(s: Pm, s': Pm, kdir: Frame) {
    Inv(s', {}) && Guarded(s', kdir) && s'.dirs == s.dirs
  }

  lemma PageLoads(s: Pm, e: nat, a: nat, kdir: Frame)
    requires Inv(s, {}) && Guarded(s, kdir) && e in s.dirs && a < UTOP
    ensures Loads(s, PageAllocAt(s, e, a, URWP).0, kdir)
  {
    hide Inv, Guarded, PageAllocAt, UpperKept;
    PageAllocAtInv(s, e, a, URWP);
    AllocAtDirs(s, e, a, URWP);
    AllocAtKept(s, e, a, URWP);
    KeptGuarded(s, PageAllocAt(s, e, a, URWP).0, kdir);
  }

  lemma {:induction false} RegionLoads(s: Pm, e: nat, a: nat, end: nat, kdir: Frame)
    requires Inv(s, {}) && Guarded(s, kdir) && e in s.dirs && end < UTOP
    ensures RegionFrom(s, e, a, end).Some? ==> Loads(s, RegionFrom(s, e, a, end).value, kdir)
    decreases end - a
  {
    hide Inv, Guarded, PageAllocAt;
    if a < end {
      PageLoads(s, e, a, kdir);
      var (s', r) := PageAllocAt(s, e, a, URWP);
      if r == 0 {
        RegionLoads(s', e, a + PGSIZE, end, kdir);
      }
    }
  }

  lemma {:induction false} SegmentsLoad(s: Pm, e: nat, gs: seq<Segment>, kdir: Frame)
    requires Inv(s, {}) && Guarded(s, kdir) && e in s.dirs
    ensures LoadSegments(s, e, gs).Some? ==> Loads(s, LoadSegments(s, e, gs).value, kdir)
    decreases |gs|
  {
    hide Inv, Guarded, RegionFrom, RegionEnd;
    if gs != [] && RegionEnd(gs[0]) < UTOP {
      RegionLoads(s, e, gs[0].va - gs[0].va % PGSIZE, RegionEnd(gs[0]), kdir);
      if RegionAlloc(s, e, gs[0]).Some? {
        SegmentsLoad(RegionAlloc(s, e, gs[0]).value, e, gs[1..], kdir);
      }
    }
  }

  /** Loading any image keeps the page ledger and the upper halves, and gives no environment another directory. */
  lemma IcodeLoads(s: Pm, e: nat, prog: Program, kdir: Frame)
    requires Inv(s, {}) && Guarded(s, kdir) && e in s.dirs
    ensures LoadIcode(s, e, prog).Some? ==> Loads(s, LoadIcode(s, e, prog).value, kdir)
  {
    hide Inv, Guarded, LoadSegments, T.UserStores, UpperKept;
    if prog.magic && LoadSegments(s, e, prog.segments + [USTACK]).Some? {
      SegmentsLoad(s, e, prog.segments + [USTACK], kdir);
      StoresKeep(LoadSegments(s, e, prog.segments + [USTACK]).value, kdir, e, prog.words);
    }
  }

  // ----- what is loaded where -----

  /** Page v lies in the segment's rounded range. */
  predicate InSegment(g: Segment, v: nat) {
    PGNUM(g.va) <= v < PGNUM(RegionEnd(g))
  }

  predicate InSegments(gs: seq<Segment>, v: nat) {
    exists i :: 0 <= i < |gs| && InSegment(gs[i], v)
  }

  /** The pages lo .. hi-1 of environment e are writable, and no other mapping changed. */
  ghost predicate MappedRange(s: Pm, s': Pm, e: nat, lo: nat, hi: nat) {
    forall i: nat, d: nat, t: nat :: d < UPDES && t < NENTRIES ==>
      if i == e && lo <= d * NENTRIES + t < hi then Pte(s', i, d, t).perm == URWP
      else Pte(s', i, d, t) == Pte(s, i, d, t)
  }

  lemma {:induction false} RegionMapped(s: Pm, e: nat, a: nat, end: nat, kdir: Frame)
    requires Inv(s, {}) && Guarded(s, kdir) && e in s.dirs && end < UTOP && a % PGSIZE == 0 && end % PGSIZE == 0
    ensures RegionFrom(s, e, a, end).Some? ==>
              MappedRange(s, RegionFrom(s, e, a, end).value, e, PGNUM(a), PGNUM(end))
    decreases end - a
  {
    hide Inv, Guarded, PageAllocAt, FlatUpdate, MappedRange;
    if a < end {
      PageLoads(s, e, a, kdir);
      PageAllocAtInv(s, e, a, URWP);
      var (s', r) := PageAllocAt(s, e, a, URWP);
      if r == 0 {
        RegionMapped(s', e, a + PGSIZE, end, kdir);
        var o := RegionFrom(s', e, a + PGSIZE, end);
        if o.Some? {
          OneMorePage(s, s', o.value, e, a, end);
        }
      }
    } else {
      SameRange(s, e, PGNUM(a), PGNUM(end));
      PageOrder(end, a);
    }
  }

  lemma PageOrder(a: nat, b: nat)
    requires a <= b
    ensures PGNUM(a) <= PGNUM(b)
  {
  }

  lemma SameRange(s: Pm, e: nat, lo: nat, hi: nat)
    ensures lo >= hi ==> MappedRange(s, s, e, lo, hi)
  {
  }

  lemma OneMorePage(s: Pm, s1: Pm, s2: Pm, e: nat, a: nat, end: nat)
    requires a < end < UTOP && a % PGSIZE == 0 && end % PGSIZE == 0 && s.free != []
    requires FlatUpdate(s, s1, e, PDX(a), PTX(a), Entry(s.free[0], URWP + {PTE_P}))
    requires MappedRange(s1, s2, e, PGNUM(a + PGSIZE), PGNUM(end))
    ensures MappedRange(s, s2, e, PGNUM(a), PGNUM(end))
  {
    AddressFields(a);
    UserDirectoryEntries(a);
    assert PGNUM(a + PGSIZE) == PGNUM(a) + 1 && PGNUM(a) < PGNUM(end);
    assert URWP + {PTE_P} == URWP;
    var d0, t0 := PDX(a), PTX(a);
    hide PDX, PTX, PGNUM;
    forall i: nat, d: nat, t: nat | d < UPDES && t < NENTRIES
      ensures if i == e && PGNUM(a) <= d * NENTRIES + t < PGNUM(end) then Pte(s2, i, d, t).perm == URWP
              else Pte(s2, i, d, t) == Pte(s, i, d, t)
    {
      assert d * NENTRIES + t == d0 * NENTRIES + t0 <==> (d == d0 && t == t0);
    }
  }

  /** The pages of the segments are writable, and no other mapping changed. */
  ghost predicate MappedSegments(s: Pm, s': Pm, e: nat, gs: seq<Segment>) {
    forall i: nat, d: nat, t: nat :: d < UPDES && t < NENTRIES ==> PageLoaded(s, s', e, gs, i, d, t)
  }

  ghost predicate PageLoaded(s: Pm, s': Pm, e: nat, gs: seq<Segment>, i: nat, d: nat, t: nat) {
    if i == e && InSegments(gs, d * NENTRIES + t) then Pte(s', i, d, t).perm == URWP
    else Pte(s', i, d, t) == Pte(s, i, d, t)
  }

  lemma RegionAligned(g: Segment)
    ensures RegionEnd(g) % PGSIZE == 0 && (g.va - g.va % PGSIZE) % PGSIZE == 0
    ensures PGNUM(g.va - g.va % PGSIZE) == PGNUM(g.va)
  {
  }

  lemma {:induction false} SegmentsMapped(s: Pm, e: nat, gs: seq<Segment>, kdir: Frame)
    requires Inv(s, {}) && Guarded(s, kdir) && e in s.dirs
    ensures LoadSegments(s, e, gs).Some? ==> MappedSegments(s, LoadSegments(s, e, gs).value, e, gs)
    decreases |gs|
  {
    hide Inv, Guarded, RegionFrom, RegionEnd, MappedRange, MappedSegments;
    if gs == [] {
      NoSegments(s, e);
    } else if RegionAlloc(s, e, gs[0]).Some? {
      var g := gs[0];
      RegionAligned(g);
      RegionLoads(s, e, g.va - g.va % PGSIZE, RegionEnd(g), kdir);
      RegionMapped(s, e, g.va - g.va % PGSIZE, RegionEnd(g), kdir);
      var s1 := RegionAlloc(s, e, g).value;
      SegmentsMapped(s1, e, gs[1..], kdir);
      if LoadSegments(s1, e, gs[1..]).Some? {
        MoreSegments(s, s1, LoadSegments(s1, e, gs[1..]).value, e, gs);
      }
    }
  }

  lemma NoSegments(s: Pm, e: nat)
    ensures MappedSegments(s, s, e, [])
  {
  }

  lemma MoreSegments(s: Pm, s1: Pm, s2: Pm, e: nat, gs: seq<Segment>)
    requires gs != [] && MappedRange(s, s1, e, PGNUM(gs[0].va), PGNUM(RegionEnd(gs[0])))
    requires MappedSegments(s1, s2, e, gs[1..])
    ensures MappedSegments(s, s2, e, gs)
  {
    hide RegionEnd, PGNUM;
    forall i: nat, d: nat, t: nat | d < UPDES && t < NENTRIES
      ensures PageLoaded(s, s2, e, gs, i, d, t)
    {
      assert PageLoaded(s1, s2, e, gs[1..], i, d, t);
      FirstSegment(gs, d * NENTRIES + t);
    }
  }

  lemma FirstSegment(gs: seq<Segment>, v: nat)
    requires gs != []
    ensures InSegments(gs, v) <==> InSegment(gs[0], v) || InSegments(gs[1..], v)
  {
    hide InSegment;
    var r := gs[1..];
    assert forall i :: 0 <= i < |r| ==> r[i] == gs[i + 1];
    if InSegments(gs, v) && !InSegment(gs[0], v) {
      var i :| 0 <= i < |gs| && InSegment(gs[i], v);
      assert r[i - 1] == gs[i];
    }
    if InSegments(r, v) {
      var i :| 0 <= i < |r| && InSegment(r[i], v);
      assert InSegment(gs[i + 1], v);
    }
  }

  /** After load_icode every page of the program's segments and its stack page is mapped writable, and nothing else
      changed but what the image's words stored there. */
  lemma IcodeMapped(s: Pm, e: nat, prog: Program, kdir: Frame)
    requires Inv(s, {}) && Guarded(s, kdir) && e in s.dirs && LoadIcode(s, e, prog).Some?
    ensures var s' := LoadIcode(s, e, prog).value;
            if prog.magic then MappedSegments(s, s', e, prog.segments + [USTACK]) else s' == s
  {
    hide Inv, Guarded, LoadSegments, T.UserStores, UpperKept, InSegments, SameTables;
    if prog.magic {
      var gs := prog.segments + [USTACK];
      SegmentsMapped(s, e, gs, kdir);
      SegmentsLoad(s, e, gs, kdir);
      var s1 := LoadSegments(s, e, gs).value;
      StoresKeep(s1, kdir, e, prog.words);
      SameLoaded(s, s1, T.UserStores(s1, e, prog.words), e, gs);
    }
  }

  lemma SameLoaded(s: Pm, s1: Pm, s2: Pm, e: nat, gs: seq<Segment>)
    requires MappedSegments(s, s1, e, gs) && SameTables(s1, s2)
    ensures MappedSegments(s, s2, e, gs)
  {
    hide InSegments;
    forall i: nat, d: nat, t: nat | d < UPDES && t < NENTRIES
      ensures PageLoaded(s, s2, e, gs, i, d, t)
    {
      assert PageLoaded(s, s1, e, gs, i, d, t);
    }
  }

  // ----- the first environments -----

  /** The kernel after env_init on a machine with n slots and ncpu CPUs. */
  function Blank(pm: Pm, n: nat, ncpu: nat, kdir: Frame): K {
    K(pm, FreshEnvs(n), Range(0, n), seq(ncpu, _ => -1), kdir)
  }

  /** env_create of an idle or user environment; None is a panic. */
  function CreateEnv(k: K, idle: bool, prog: Program): Option<K>
    requires |k.envs| > 0 && forall e :: e in k.free ==> e < |k.envs|
  {
    var (k1, r) := EnvAlloc(k, 0);
    if r < 0 then None
    else
      match LoadIcode(k1.pm, r, prog)
      case None => None
      case Some(pm') => Some(SetEnv(k1, r, Launched(k1.envs[r], idle, prog)).(pm := pm'))
  }

  function Launched(v: Env, idle: bool, prog: Program): Env {
    v.(idle := idle, parent := 0, tf := if prog.magic then v.tf.(rest := prog.entry) else v.tf)
  }

  /** j environments exist, the first ones, one per CPU, idle; nothing runs yet. */
  ghost predicate Starting(k: K, j: nat) {
    && j <= |k.envs| && MemOk(k) && IdsOk(k) && k.free == Range(j, |k.envs|)
    && (forall c :: 0 <= c < |k.cpu| ==> k.cpu[c] == -1)
    && (forall e :: 0 <= e < |k.envs| ==> !k.envs[e].recving && k.envs[e].status == if e < j then RUNNABLE else FREE)
    && (forall e :: 0 <= e < j ==> k.envs[e].idle == (e < |k.cpu|) && k.envs[e].parent == 0)
  }

  lemma BlankStarting(pm: Pm, n: nat, ncpu: nat, kdir: Frame)
    requires Inv(pm, {}) && pm.dirs == map[] && KernelTemplate(kdir) && KernelTables(pm, kdir)
    requires 0 < n <= GENERATION && GENERATION % n == 0
    ensures Starting(Blank(pm, n, ncpu, kdir), 0)
  {
    hide Inv, KernelTemplate, KernelTables;
  }

  /** The environment env_alloc leaves for env_create. */
  function Newborn(k: K, j: nat): Env
    requires j < |k.envs|
  {
    k.envs[j].(id := NextId(k.envs[j].id, j, |k.envs|), parent := 0, idle := false, status := RUNNABLE, runs := 0,
               tf := Tf(0, 0), upcall := 0, recving := false)
  }

  lemma AllocForm(k: K, j: nat)
    requires Starting(k, j) && j < |k.envs|
    ensures k.free != [] && k.free[0] == j && (forall e :: e in k.free ==> e < |k.envs|)
    ensures var (pm', ok) := SetupVm(k.pm, j, k.kdir);
            EnvAlloc(k, 0) ==
              if ok then (k.(pm := pm', free := k.free[1..], envs := k.envs[j := Newborn(k, j)]), j)
              else (k.(pm := pm'), -E_NO_MEM)
  {
    hide MemOk, IdsOk, NextId, SetupVm;
    assert k.free[0] == j && j in k.free;
  }

  /** env_create takes the next slot and keeps everything that holds at start-up. */
  lemma CreateStarting(k: K, j: nat, prog: Program)
    requires Starting(k, j) && j < |k.envs|
    ensures (forall e :: e in k.free ==> e < |k.envs|)
    ensures var o := CreateEnv(k, j < |k.cpu|, prog);
            o.Some? ==>
              Starting(o.value, j + 1) && |o.value.envs| == |k.envs| && o.value.cpu == k.cpu && o.value.kdir == k.kdir
  {
    hide Inv, SetupVm, KernelTemplate, Guarded, NextId, EnvAlloc, LoadIcode;
    AllocForm(k, j);
    SetupVmInv(k.pm, j, k.kdir);
    SetupGuarded(k.pm, j, k.kdir);
    NextIdOk(k.envs[j].id, j, |k.envs|);
    var o := CreateEnv(k, j < |k.cpu|, prog);
    if o.Some? {
      IcodeLoads(SetupVm(k.pm, j, k.kdir).0, j, prog, k.kdir);
      assert o.value.free == Range(j + 1, |k.envs|);
    }
  }

  /** What env_create leaves: the environment in the next slot, ready to start at its program's entry, with the program
      in its address space; nobody else's entry or mappings change. */
  lemma CreateEffect(k: K, j: nat, prog: Program)
    requires Starting(k, j) && j < |k.envs|
    ensures (forall e :: e in k.free ==> e < |k.envs|)
    ensures var o := CreateEnv(k, j < |k.cpu|, prog);
            o.Some? ==>
              && |o.value.envs| == |k.envs| && j < |o.value.envs| && o.value.free == k.free[1..]
              && (forall i :: 0 <= i < |k.envs| && i != j ==> o.value.envs[i] == k.envs[i])
              && var v := o.value.envs[j];
                 && v.status == RUNNABLE && v.idle == (j < |k.cpu|) && v.parent == 0 && v.runs == 0 && v.upcall == 0
                 && !v.recving && v.tf == Tf(0, if prog.magic then prog.entry else 0)
                 && v.id > 0 && v.id % |k.envs| == j
                 && (prog.magic ==> MappedSegments(k.pm, o.value.pm, j, prog.segments + [USTACK]))
  {
    hide Inv, SetupVm, KernelTemplate, Guarded, NextId, EnvAlloc, LoadIcode, MappedSegments;
    AllocForm(k, j);
    SetupVmInv(k.pm, j, k.kdir);
    SetupGuarded(k.pm, j, k.kdir);
    NextIdOk(k.envs[j].id, j, |k.envs|);
    var o := CreateEnv(k, j < |k.cpu|, prog);
    if o.Some? {
      var s1 := SetupVm(k.pm, j, k.kdir).0;
      IcodeMapped(s1, j, prog, k.kdir);
      if prog.magic {
        SetupThenLoad(k.pm, s1, o.value.pm, j, prog.segments + [USTACK]);
      }
    }
  }

  lemma SetupThenLoad(s: Pm, s1: Pm, s2: Pm, e: nat, gs: seq<Segment>)
    requires forall i: nat, d: nat, t: nat :: d < UPDES ==> Pte(s1, i, d, t) == Pte(s, i, d, t)
    requires MappedSegments(s1, s2, e, gs)
    ensures MappedSegments(s, s2, e, gs)
  {
    hide InSegments;
    forall i: nat, d: nat, t: nat | d < UPDES && t < NENTRIES
      ensures PageLoaded(s, s2, e, gs, i, d, t)
    {
      assert PageLoaded(s1, s2, e, gs, i, d, t);
    }
  }

  /** i386_init's creations, one for each program, the first ones idle; None if one of them panics. */
  ghost function Booted(k: K, progs: seq<Program>): (o: Option<K>)
    requires Starting(k, 0) && |progs| <= |k.envs|
    ensures o.Some? ==>
              Starting(o.value, |progs|) && |o.value.envs| == |k.envs| && o.value.cpu == k.cpu && o.value.kdir == k.kdir
    decreases |progs|
  {
    var j := |progs|;
    if j == 0 then Some(k)
    else
      match Booted(k, progs[..j - 1])
      case None => None
      case Some(k1) =>
        CreateStarting(k1, j - 1, progs[j - 1]);
        CreateEnv(k1, j - 1 < |k1.cpu|, progs[j - 1])
  }

  lemma StartingInv(k: K, h: int, j: nat)
    requires Starting(k, j) && |k.cpu| <= j
    ensures KInv(k, h)
  {
    hide MemOk, IdsOk;
    var f := Range(j, |k.envs|);
    forall e: nat
      ensures e in f <==> j <= e < |k.envs|
    {
      if j <= e < |k.envs| {
        assert f[e - j] == e;
      }
    }
  }

  /** The boot CPU b holds the lock and is about to schedule; the others wait in mp_main. */
  function StartState(k: K, b: nat): S {
    S(k, Lock(true, b), seq(|k.cpu|, c => if c == b then Yielding else Trapped(true)))
  }

  lemma StartsRun(k: K, b: nat, j: nat)
    requires Starting(k, j) && b < |k.cpu| <= j
    ensures var s := StartState(k, b); var n := |k.envs|;
            Init(s) && IpcLog.LogInit(IpcLog.L(s, seq(n, _ => []), seq(n, _ => []), seq(n, _ => IpcLog.Out)))
  {
    hide MemOk, KInv, IdsOk;
    StartingInv(k, b, j);
  }

  /**
    Whatever programs a machine boots with, one idle environment per CPU first: if no creation panics, it ends in a
    state that the runs of module Smp, and the logged runs of module IpcLog, may start in.
  */
  lemma BootReachesInit(pm: Pm, n: nat, ncpu: nat, kdir: Frame, b: nat, progs: seq<Program>)
    requires Inv(pm, {}) && pm.dirs == map[] && KernelTemplate(kdir) && KernelTables(pm, kdir)
    requires 0 < n <= GENERATION && GENERATION % n == 0 && b < ncpu <= |progs| <= n
    ensures Starting(Blank(pm, n, ncpu, kdir), 0)
    ensures var o := Booted(Blank(pm, n, ncpu, kdir), progs);
            o.Some? ==>
              var s := StartState(o.value, b);
              && Init(s) && |s.k.cpu| == ncpu && |s.k.envs| == n
              && IpcLog.LogInit(IpcLog.L(s, seq(n, _ => []), seq(n, _ => []), seq(n, _ => IpcLog.Out)))
  {
    hide Inv, KernelTemplate, KernelTables, MemOk, KInv, Starting;
    BlankStarting(pm, n, ncpu, kdir);
    var o := Booted(Blank(pm, n, ncpu, kdir), progs);
    if o.Some? {
      StartsRun(o.value, b, |progs|);
    }
  }

  // ----- enough memory -----

  /** Free pages that suffice for a range of pages: a page and perhaps a table each. */
  function RangeNeed(a: nat, end: nat): nat {
    if a >= end then 0 else 2 * ((end - a + PGSIZE - 1) / PGSIZE)
  }

  function SegmentsNeed(gs: seq<Segment>): nat
    decreases |gs|
  {
    if gs == [] then 0 else RangeNeed(gs[0].va - gs[0].va % PGSIZE, RegionEnd(gs[0])) + SegmentsNeed(gs[1..])
  }

  /** The segments lie in user space and are no longer in the file than in memory. */
  predicate Fitting(prog: Program) {
    forall i :: 0 <= i < |prog.segments| ==> Fits(prog.segments[i])
  }

  predicate Fits(g: Segment) {
    RegionEnd(g) < UTOP && g.file <= g.len
  }

  function ProgramsNeed(progs: seq<Program>): nat
    decreases |progs|
  {
    var j := |progs|;
    if j == 0 then 0 else ProgramsNeed(progs[..j - 1]) + 1 + SegmentsNeed(progs[j - 1].segments + [USTACK])
  }

  lemma {:induction false} RegionRoom(s: Pm, e: nat, a: nat, end: nat)
    requires |s.free| >= RangeNeed(a, end)
    ensures var o := RegionFrom(s, e, a, end); o.Some? && |o.value.free| >= |s.free| - RangeNeed(a, end)
    decreases end - a
  {
    hide PageAllocAt;
    if a < end {
      AllocAtRoom(s, e, a, URWP);
      RangeStep(a, end);
      RegionRoom(PageAllocAt(s, e, a, URWP).0, e, a + PGSIZE, end);
    }
  }

  lemma RangeStep(a: nat, end: nat)
    requires a < end
    ensures RangeNeed(a, end) == 2 + RangeNeed(a + PGSIZE, end)
  {
  }

  lemma {:induction false} SegmentsRoom(s: Pm, e: nat, gs: seq<Segment>)
    requires |s.free| >= SegmentsNeed(gs) && forall i :: 0 <= i < |gs| ==> Fits(gs[i])
    ensures var o := LoadSegments(s, e, gs); o.Some? && |o.value.free| >= |s.free| - SegmentsNeed(gs)
    decreases |gs|
  {
    hide RegionFrom, RegionEnd, RangeNeed;
    if gs != [] {
      RegionRoom(s, e, gs[0].va - gs[0].va % PGSIZE, RegionEnd(gs[0]));
      SegmentsRoom(RegionAlloc(s, e, gs[0]).value, e, gs[1..]);
    }
  }

  lemma {:induction false} StoresFree(s: Pm, e: nat, ws: seq<T.Store>)
    ensures T.UserStores(s, e, ws).free == s.free
    decreases |ws|
  {
    if ws != [] {
      StoresFree(T.UserStore(s, e, ws[0].la, ws[0].v), e, ws[1..]);
    }
  }

  lemma IcodeRoom(s: Pm, e: nat, prog: Program)
    requires Fitting(prog) && |s.free| >= SegmentsNeed(prog.segments + [USTACK])
    ensures var o := LoadIcode(s, e, prog);
            o.Some? && |o.value.free| >= |s.free| - SegmentsNeed(prog.segments + [USTACK])
  {
    hide LoadSegments, SegmentsNeed, RegionEnd, T.UserStores;
    var gs := prog.segments + [USTACK];
    StackFits();
    if prog.magic {
      SegmentsRoom(s, e, gs);
      StoresFree(LoadSegments(s, e, gs).value, e, prog.words);
    }
  }

  lemma StackFits()
    ensures Fits(USTACK)
  {
  }

  lemma CreateRoom(k: K, j: nat, prog: Program)
    requires Starting(k, j) && j < |k.envs| && Fitting(prog)
    requires |k.pm.free| >= 1 + SegmentsNeed(prog.segments + [USTACK])
    ensures (forall e :: e in k.free ==> e < |k.envs|)
    ensures var o := CreateEnv(k, j < |k.cpu|, prog);
            o.Some? && |o.value.pm.free| >= |k.pm.free| - 1 - SegmentsNeed(prog.segments + [USTACK])
  {
    AllocForm(k, j);
    SetupFree(k.pm, j, k.kdir);
    hide Starting, SetupVm, EnvAlloc, LoadIcode, SegmentsNeed, Fitting;
    IcodeRoom(SetupVm(k.pm, j, k.kdir).0, j, prog);
  }

  lemma SetupFree(s: Pm, e: nat, k: Frame)
    requires s.free != []
    ensures SetupVm(s, e, k).1 && |SetupVm(s, e, k).0.free| == |s.free| - 1
  {
  }

  /** With programs that lie in user space and enough pages for them, booting does not panic. */
  lemma {:induction false} BootSucceeds(k: K, progs: seq<Program>)
    requires Starting(k, 0) && |progs| <= |k.envs| && |k.pm.free| >= ProgramsNeed(progs)
    requires forall i :: 0 <= i < |progs| ==> Fitting(progs[i])
    ensures var o := Booted(k, progs); o.Some? && |o.value.pm.free| >= |k.pm.free| - ProgramsNeed(progs)
    decreases |progs|
  {
    hide Starting, CreateEnv, SegmentsNeed, Fitting;
    var j := |progs|;
    if j > 0 {
      BootSucceeds(k, progs[..j - 1]);
      CreateRoom(Booted(k, progs[..j - 1]).value, j - 1, progs[j - 1]);
    }
  }
}
