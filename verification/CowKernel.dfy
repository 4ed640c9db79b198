/**
  The mapping steps of module Cow are the kernel's system calls: the flat map that Cow updates
  one entry at a time is the flat reading of the two-level tables, and each successful
  sys_page_alloc, sys_page_map, sys_page_unmap and env_free changes both in the same way.
*/
module CowKernel {
  import opened Mmu
  import opened Pmap
  import opened Kernel
  import opened KernelInv
  import opened UpperHalf
  import E = Effects
  import Cow

  /** The tables hold exactly the entries of the flat map. */
  ghost predicate Models(s: Cow.C, pm: Pm) {
    forall e: nat, d: nat, t: nat :: d < UPDES && t < NENTRIES ==> EntryModels(s, pm, e, d, t)
  }

  ghost predicate EntryModels(s: Cow.C, pm: Pm, e: nat, d: nat, t: nat) {
    var k := Cow.Key(e, d * NENTRIES + t);
    (k in s.vm <==> Present(Pte(pm, e, d, t))) && (k in s.vm ==> s.vm[k] == Pte(pm, e, d, t))
  }

  /** Virtual page number of a user address, split back into table indices. */
  lemma VpnSplit(va: nat)
    requires va < UTOP
    ensures PGNUM(va) == PDX(va) * NENTRIES + PTX(va) && PDX(va) < UPDES && PTX(va) < NENTRIES
  {
    AddressFields(va);
    UserDirectoryEntries(va);
  }

  lemma UpdateModels(s: Cow.C, pm: Pm, pm': Pm, e: nat, va: nat, x: Entry)
    requires Models(s, pm) && va < UTOP && FlatUpdate(pm, pm', e, PDX(va), PTX(va), x)
    ensures Present(x) ==> Models(Cow.Map(s, Cow.Key(e, PGNUM(va)), x), pm')
    ensures x == ZERO ==> Models(s.(vm := s.vm - {Cow.Key(e, PGNUM(va))}), pm')
  {
    VpnSplit(va);
    var s1 := Cow.Map(s, Cow.Key(e, PGNUM(va)), x);
    var s2 := s.(vm := s.vm - {Cow.Key(e, PGNUM(va))});
    forall e': nat, d: nat, t: nat | d < UPDES && t < NENTRIES
      ensures Present(x) ==> EntryModels(s1, pm', e', d, t)
      ensures x == ZERO ==> EntryModels(s2, pm', e', d, t)
    {
      assert EntryModels(s, pm, e', d, t);
    }
  }

  /** sys_page_map, when it succeeds, gives the destination the source's page with the permission asked for; when it
      fails it changes nothing. */
  lemma MapModels(s: Cow.C, k: K, c: nat, srcid: int, srcva: nat, dstid: int, dstva: nat, perm: Perm)
    requires Models(s, k.pm) && Entered(k, c) && Ready(k, c)
    requires Allowed(k, c, MapPage(srcid, srcva, dstid, dstva, perm))
    ensures var o := Dispatch(k, c, MapPage(srcid, srcva, dstid, dstva, perm));
            var src, dst := E.Named(k, c, srcid, true), E.Named(k, c, dstid, false);
            && o.Return? && (o.r != 0 ==> Models(s, o.k.pm))
            && (o.r == 0 ==>
                  && src >= 0 && dst >= 0 && Cow.Key(src, PGNUM(srcva)) in s.vm
                  && Models(s.(vm := s.vm[Cow.Key(dst, PGNUM(dstva)) :=
                                          Entry(s.vm[Cow.Key(src, PGNUM(srcva))].ppn, perm + {PTE_P})]), o.k.pm))
  {
    hide KInv, FlatUpdate, Allowed, Dispatch;
    E.MapEffect(k, c, srcid, srcva, dstid, dstva, perm);
    MapAddresses(k, c, srcid, srcva, dstid, dstva, perm);
    var o := Dispatch(k, c, MapPage(srcid, srcva, dstid, dstva, perm));
    if o.r == 0 {
      var src, dst := E.Named(k, c, srcid, true), E.Named(k, c, dstid, false);
      VpnSplit(srcva);
      assert EntryModels(s, k.pm, src, PDX(srcva), PTX(srcva));
      UpdateModels(s, k.pm, o.k.pm, dst, dstva, Entry(Pte(k.pm, src, PDX(srcva), PTX(srcva)).ppn, perm + {PTE_P}));
    }
  }

  lemma MapAddresses(k: K, c: nat, srcid: int, srcva: nat, dstid: int, dstva: nat, perm: Perm)
    requires Ready(k, c)
    ensures var o := Dispatch(k, c, MapPage(srcid, srcva, dstid, dstva, perm));
            o.Return? && o.r == 0 ==> srcva < UTOP && dstva < UTOP
  {
    hide PageInsert;
  }

  /** Cow's allocation at the level of the tables: n is fresh, cleared, and mapped; what the processes map keeps its
      contents. */
  ghost predicate AllocatedAs(s: Cow.C, pm: Pm, pm': Pm, e: nat, va: nat, perm: Perm, n: nat) {
    && Cow.Fresh(s, n) && Models(Cow.Map(s, Cow.Key(e, PGNUM(va)), Entry(n, perm + {PTE_P})), pm')
    && |pm'.mem| == |pm.mem| && n < |pm.mem| && pm'.mem[n] == ZeroFrame()
    && (forall k :: k in s.vm ==> s.vm[k].ppn < |pm.mem| && pm'.mem[s.vm[k].ppn] == pm.mem[s.vm[k].ppn])
  }

  /** The page an entry of the flat map names holds user data. */
  lemma MappedIsData(s: Cow.C, pm: Pm, k: Cow.Key)
    requires Models(s, pm) && Inv(pm, {}) && k in s.vm && k.v < UPDES * NENTRIES
    ensures var u := s.vm[k].ppn;
            DataPage(pm, u) && u !in pm.free && Target(pm, PteRef(k.e, k.v / NENTRIES, k.v % NENTRIES)) == u
  {
    hide Refs, ZeroFilled, RightsNested, Counted;
    var d, t := k.v / NENTRIES, k.v % NENTRIES;
    assert EntryModels(s, pm, k.e, d, t);
    TargetPte(pm, k.e, d, t);
    Referenced(pm, PteRef(k.e, d, t));
  }

  /** sys_page_alloc, when it succeeds, maps a page that is fresh and zero in Cow's sense; when it fails it changes no
      mapping. */
  lemma AllocModels(s: Cow.C, k: K, c: nat, envid: int, va: nat, perm: Perm)
    requires Models(s, k.pm) && Entered(k, c) && Ready(k, c)
    requires forall q :: q in s.vm ==> q.v < UPDES * NENTRIES
    ensures var o := Dispatch(k, c, AllocPage(envid, va, perm)); var e := E.Named(k, c, envid, true);
            && o.Return? && (o.r != 0 ==> Models(s, o.k.pm))
            && (o.r == 0 ==> e >= 0 && k.pm.free != [] && AllocatedAs(s, k.pm, o.k.pm, e, va, perm, k.pm.free[0]))
  {
    hide Inv, Guarded, FlatUpdate, Models, PageAllocAt, DataPage, EnvsOk, KernelTemplate;
    E.AllocEffect(k, c, envid, va, perm);
    var o := Dispatch(k, c, AllocPage(envid, va, perm));
    if o.r == 0 {
      var e, n := E.Named(k, c, envid, true), k.pm.free[0];
      var pm' := o.k.pm;
      IdFound(k, c, envid, true);
      E.FreeIsData(k.pm, n);
      PageAllocContents(k.pm, e, va, perm, n);
      forall q | q in s.vm
        ensures var u := s.vm[q].ppn; u != n && u < |k.pm.mem| && pm'.mem[u] == k.pm.mem[u]
      {
        MappedIsData(s, k.pm, q);
        DataInMemory(k.pm, s.vm[q].ppn);
        PageAllocContents(k.pm, e, va, perm, s.vm[q].ppn);
      }
      UpdateModels(s, k.pm, pm', e, va, Entry(n, perm + {PTE_P}));
    } else {
      FlatSameModels(s, k.pm, o.k.pm);
    }
  }

  lemma FlatSameModels(s: Cow.C, pm: Pm, pm': Pm)
    requires Models(s, pm) && FlatSame(pm, pm')
    ensures Models(s, pm')
  {
    forall e: nat, d: nat, t: nat | d < UPDES && t < NENTRIES
      ensures EntryModels(s, pm', e, d, t)
    {
      assert EntryModels(s, pm, e, d, t);
    }
  }

  lemma DataInMemory(pm: Pm, u: nat)
    requires DataPage(pm, u)
    ensures u < |pm.mem|
  {
  }

  /** sys_page_unmap removes the page, or changes nothing. */
  lemma UnmapModels(s: Cow.C, k: K, c: nat, envid: int, va: nat)
    requires Models(s, k.pm) && Entered(k, c) && Ready(k, c)
    ensures var o := Dispatch(k, c, UnmapPage(envid, va)); var e := E.Named(k, c, envid, true);
            && o.Return? && (o.r != 0 ==> Models(s, o.k.pm))
            && (o.r == 0 ==> e >= 0 && Models(s.(vm := s.vm - {Cow.Key(e, PGNUM(va))}), o.k.pm))
  {
    hide KInv, FlatUpdate, Dispatch;
    E.UnmapEffect(k, c, envid, va);
    var o := Dispatch(k, c, UnmapPage(envid, va));
    if o.r == 0 {
      UpdateModels(s, k.pm, o.k.pm, E.Named(k, c, envid, true), va, ZERO);
    }
  }

  /** Whatever frees environment e drops its pages and no other's. */
  lemma ExitModels(s: Cow.C, k: K, k': K, e: nat)
    requires Models(s, k.pm) && e < |k.envs| && E.EnvGone(k, k', e)
    ensures Models(s.(vm := map q | q in s.vm && q.e != e :: s.vm[q]), k'.pm)
  {
    var s' := s.(vm := map q | q in s.vm && q.e != e :: s.vm[q]);
    forall e': nat, d: nat, t: nat | d < UPDES && t < NENTRIES
      ensures EntryModels(s', k'.pm, e', d, t)
    {
      assert EntryModels(s, k.pm, e', d, t);
    }
  }

  // ----- the system call behind each step -----

  /** What a step of a process asks the kernel for. */
  datatype Request =
    | Nothing
    | MapReq(src: Cow.Key, dst: Cow.Key, perm: Perm)
    | AllocReq(at: Cow.Key, perm: Perm, n: nat)
    | UnmapReq(at: Cow.Key)
    | ExitReq(e: nat)

  function CowBits(p: Perm): Perm {
    p + {PTE_COW} - {PTE_W}
  }

  /** The calls of pgfault, duppage and fork (lib/fork.c), and those a process makes itself. */
  function RequestOf(s: Cow.C, a: Cow.Act): Request
    requires Cow.Enabled(s, a)
  {
    var e, t := a.e, s.th[a.e];
    match a
    case FaultAlloc(_, _, n) => AllocReq(Cow.Key(e, Cow.PFT), {PTE_P, PTE_U, PTE_W}, n)
    case FaultMap(_) => MapReq(Cow.Key(e, Cow.PFT), Cow.Key(e, t.fault.v), {PTE_P, PTE_U, PTE_W})
    case FaultUnmap(_) => UnmapReq(Cow.Key(e, Cow.PFT))
    case DupChild(_, n) =>
      var me, it := Cow.Key(e, t.fork.pn), Cow.Key(t.fork.child, t.fork.pn);
      if t.fork.pn == Cow.UXP then AllocReq(it, {PTE_P, PTE_U, PTE_W}, n)
      else if me !in s.vm || !({PTE_P, PTE_U} <= s.vm[me].perm) then Nothing
      else if PTE_W !in s.vm[me].perm && PTE_COW !in s.vm[me].perm then MapReq(me, it, s.vm[me].perm)
      else MapReq(me, it, CowBits(s.vm[me].perm))
    case DupParent(_) =>
      var me := Cow.Key(e, t.fork.pn);
      if me in s.vm then MapReq(me, me, CowBits(s.vm[me].perm)) else Nothing
    case Alloc(_, v, perm, n) => AllocReq(Cow.Key(e, v), perm, n)
    case Unmap(_, v) => UnmapReq(Cow.Key(e, v))
    case Share(_, v, dst, perm) => MapReq(Cow.Key(e, v), dst, perm)
    case Exit(_) => ExitReq(e)
    case _ => Nothing
  }

  /** The flat map after a successful request. */
  function Requested(vm: map<Cow.Key, Entry>, r: Request): map<Cow.Key, Entry>
    requires r.MapReq? ==> r.src in vm
  {
    match r
    case Nothing => vm
    case MapReq(src, dst, perm) => vm[dst := Entry(vm[src].ppn, perm + {PTE_P})]
    case AllocReq(at, perm, n) => vm[at := Entry(n, perm + {PTE_P})]
    case UnmapReq(at) => vm - {at}
    case ExitReq(e) => map k | k in vm && k.e != e :: vm[k]
  }

  /** Every step of a process changes its mappings exactly as its request does, asks to map only what the kernel lets
      it, and clears the pages it allocates. */
  lemma StepIsRequest(s: Cow.C, a: Cow.Act)
    requires Cow.Inv(s) && Cow.Enabled(s, a)
    ensures var r := RequestOf(s, a);
            && (r.MapReq? ==> r.src in s.vm && (PTE_W in r.perm ==> PTE_W in s.vm[r.src].perm))
            && Cow.Do(s, a).vm == Requested(s.vm, r)
            && (r.AllocReq? ==> Cow.Fresh(s, r.n) && Cow.Do(s, a).data == s.data[r.n := Cow.Zeros()])
            && (r.MapReq? || r.UnmapReq? || r.ExitReq? ==> Cow.Do(s, a).data == s.data)
  {
    hide Cow.Private, Cow.PairOk, Cow.Shape, Cow.ThreadOk, Cow.Do, Cow.Enabled, RequestOf;
    Awaken(s, a);
    assert Cow.ThreadOk(s, a.e);
    if a.DupChild? {
      DupRequest(s, a);
    } else if a.DupParent? {
      DupParentRequest(s, a.e);
    } else {
      PlainRequest(s, a);
    }
  }

  lemma Awaken(s: Cow.C, a: Cow.Act)
    requires Cow.Enabled(s, a)
    ensures a.e in s.th
  {
  }

  lemma PlainRequest(s: Cow.C, a: Cow.Act)
    requires Cow.Shape(s) && Cow.Enabled(s, a) && Cow.ThreadOk(s, a.e) && !a.DupChild? && !a.DupParent?
    ensures var r := RequestOf(s, a);
            && (r.MapReq? ==> r.src in s.vm && (PTE_W in r.perm ==> PTE_W in s.vm[r.src].perm))
            && Cow.Do(s, a).vm == Requested(s.vm, r)
            && (r.AllocReq? ==> Cow.Fresh(s, r.n) && Cow.Do(s, a).data == s.data[r.n := Cow.Zeros()])
            && (r.MapReq? || r.UnmapReq? || r.ExitReq? ==> Cow.Do(s, a).data == s.data)
  {
    assert Cow.URW + {PTE_P} == Cow.URW;
  }

  lemma BitsForm(p: Perm)
    ensures CowBits(p) + {PTE_P} == Cow.CowPerm(p) && PTE_W !in CowBits(p)
  {
  }

  lemma DupRequest(s: Cow.C, a: Cow.Act)
    requires Cow.Shape(s) && Cow.Enabled(s, a) && a.DupChild? && Cow.ThreadOk(s, a.e)
    ensures var r := RequestOf(s, a);
            && (r.MapReq? ==> r.src in s.vm && (PTE_W in r.perm ==> PTE_W in s.vm[r.src].perm))
            && Cow.Do(s, a).vm == Requested(s.vm, r)
            && (r.AllocReq? ==> Cow.Fresh(s, r.n) && Cow.Do(s, a).data == s.data[r.n := Cow.Zeros()])
            && (r.MapReq? || r.UnmapReq? || r.ExitReq? ==> Cow.Do(s, a).data == s.data)
  {
    var me := Cow.Key(a.e, s.th[a.e].fork.pn);
    assert Cow.URW + {PTE_P} == Cow.URW;
    if me in s.vm {
      var p := s.vm[me].perm;
      BitsForm(p);
      assert PTE_P in p && p + {PTE_P} == p;
    }
  }

  lemma DupParentRequest(s: Cow.C, e: nat)
    requires Cow.Enabled(s, Cow.DupParent(e)) && Cow.ThreadOk(s, e)
    ensures var a := Cow.DupParent(e); var r := RequestOf(s, a);
            && r.MapReq? && r.src in s.vm && PTE_W !in r.perm
            && Cow.Do(s, a).vm == Requested(s.vm, r) && Cow.Do(s, a).data == s.data
  {
    var me := Cow.Key(e, s.th[e].fork.pn);
    BitsForm(s.vm[me].perm);
  }

  /** So a process step that maps, done by sys_page_map on tables that model the processes, leaves tables that model
      them. */
  lemma MapStep(s: Cow.C, a: Cow.Act, k: K, c: nat, srcid: int, srcva: nat, dstid: int, dstva: nat)
    requires Cow.Inv(s) && Cow.Enabled(s, a) && RequestOf(s, a).MapReq? && Models(s, k.pm)
    requires Entered(k, c) && Ready(k, c)
    requires var r := RequestOf(s, a);
             && Allowed(k, c, MapPage(srcid, srcva, dstid, dstva, r.perm))
             && r.src == Cow.Key(Slot(k, c, srcid, true), PGNUM(srcva))
             && r.dst == Cow.Key(Slot(k, c, dstid, false), PGNUM(dstva))
    ensures var o := Dispatch(k, c, MapPage(srcid, srcva, dstid, dstva, RequestOf(s, a).perm));
            o.Return? && (o.r == 0 ==> Models(Cow.Do(s, a), o.k.pm))
  {
    hide Cow.Inv, Cow.Enabled, Cow.Do, KInv, Allowed, Dispatch, Models;
    StepIsRequest(s, a);
    var r := RequestOf(s, a);
    MapModels(s, k, c, srcid, srcva, dstid, dstva, r.perm);
    var o := Dispatch(k, c, MapPage(srcid, srcva, dstid, dstva, r.perm));
    if o.r == 0 {
      SameVm(s.(vm := s.vm[r.dst := Entry(s.vm[r.src].ppn, r.perm + {PTE_P})]), Cow.Do(s, a), o.k.pm);
    }
  }

  /** One that allocates, done by sys_page_alloc. */
  lemma AllocStep(s: Cow.C, a: Cow.Act, k: K, c: nat, envid: int, va: nat)
    requires Cow.Inv(s) && Cow.Enabled(s, a) && RequestOf(s, a).AllocReq? && Models(s, k.pm)
    requires Entered(k, c) && Ready(k, c) && (forall q :: q in s.vm ==> q.v < UPDES * NENTRIES)
    requires var r := RequestOf(s, a);
             r.at == Cow.Key(Slot(k, c, envid, true), PGNUM(va)) && (k.pm.free != [] ==> r.n == k.pm.free[0])
    ensures var o := Dispatch(k, c, AllocPage(envid, va, RequestOf(s, a).perm));
            o.Return? && (o.r == 0 ==> Models(Cow.Do(s, a), o.k.pm))
  {
    hide Cow.Inv, Cow.Enabled, Cow.Do, KInv, Dispatch, Models;
    StepIsRequest(s, a);
    var r := RequestOf(s, a);
    AllocModels(s, k, c, envid, va, r.perm);
    var o := Dispatch(k, c, AllocPage(envid, va, r.perm));
    if o.r == 0 {
      SameVm(Cow.Map(s, r.at, Entry(r.n, r.perm + {PTE_P})), Cow.Do(s, a), o.k.pm);
    }
  }

  /** One that unmaps, done by sys_page_unmap. */
  lemma UnmapStep(s: Cow.C, a: Cow.Act, k: K, c: nat, envid: int, va: nat)
    requires Cow.Inv(s) && Cow.Enabled(s, a) && RequestOf(s, a).UnmapReq? && Models(s, k.pm)
    requires Entered(k, c) && Ready(k, c) && RequestOf(s, a).at == Cow.Key(Slot(k, c, envid, true), PGNUM(va))
    ensures var o := Dispatch(k, c, UnmapPage(envid, va));
            o.Return? && (o.r == 0 ==> Models(Cow.Do(s, a), o.k.pm))
  {
    hide Cow.Inv, Cow.Enabled, Cow.Do, KInv, Dispatch, Models;
    StepIsRequest(s, a);
    UnmapModels(s, k, c, envid, va);
    var o := Dispatch(k, c, UnmapPage(envid, va));
    if o.r == 0 {
      SameVm(s.(vm := s.vm - {RequestOf(s, a).at}), Cow.Do(s, a), o.k.pm);
    }
  }

  /** The slot an identifier names, 0 if it is refused. */
  function Slot(k: K, c: nat, envid: int, checkperm: bool): nat
    requires Ready(k, c)
  {
    var e := E.Named(k, c, envid, checkperm);
    if e < 0 then 0 else e
  }

  lemma SameVm(s: Cow.C, s': Cow.C, pm: Pm)
    requires Models(s, pm) && s'.vm == s.vm
    ensures Models(s', pm)
  {
    forall e: nat, d: nat, t: nat | d < UPDES && t < NENTRIES
      ensures EntryModels(s', pm, e, d, t)
    {
      assert EntryModels(s, pm, e, d, t);
    }
  }
}
