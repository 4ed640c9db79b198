/**
  The upper half of every address space (kern/env.c, kern/pmap.c): the kernel's mappings, shared by all directories, and
  each directory's entry for itself at UVPT.  No operation changes it, and no user store gets through it.
*/
module UpperHalf {
  import opened Mmu
  import opened Pmap
  import opened Kernel
  import opened Translate

  const SELF: nat := 957

  // ----- the invariant -----

  /** kern_pgdir's tables lie outside the allocator's pages, and map nothing that the user may write. */
  ghost predicate KernelTables(s: Pm, k: Frame) {
    && |k| == NENTRIES
    && (forall d: nat :: UPDES <= d < NENTRIES && d != SELF && Present(k[d]) ==>
          k[d].ppn !in s.managed && k[d].ppn < |s.mem| && NotWritable(s, k[d]))
  }

  ghost predicate NotWritable(s: Pm, x: Entry) {
    forall t: nat :: !({PTE_P, PTE_U, PTE_W} <= x.perm * At(s.mem, x.ppn, t).perm)
  }

  /** Directory e is kern_pgdir above UTOP, but for its own entry. */
  ghost predicate UpperEntries(s: Pm, e: nat, k: Frame)
    requires |k| == NENTRIES && e in s.dirs
  {
    forall d: nat :: UPDES <= d < NENTRIES ==>
      Pde(s, e, d) == if d == SELF then Entry(s.dirs[e], {PTE_P, PTE_U}) else k[d]
  }

  ghost predicate Guarded(s: Pm, k: Frame) {
    KernelTables(s, k) && forall e :: e in s.dirs ==> UpperEntries(s, e, k)
  }

  /** Directories that survive keep their upper half, and pages the allocator does not own keep their contents. */
  ghost predicate UpperKept(s: Pm, s': Pm) {
    && s'.managed == s.managed && |s'.mem| == |s.mem|
    && (forall f :: 0 <= f < |s.mem| && f !in s.managed ==> s'.mem[f] == s.mem[f])
    && (forall e :: e in s'.dirs ==> DirKept(s, s', e))
  }

  ghost predicate DirKept(s: Pm, s': Pm, e: nat)
    requires e in s'.dirs
  {
    && e in s.dirs && s'.dirs[e] == s.dirs[e]
    && (forall d: nat :: UPDES <= d < NENTRIES ==> Pde(s', e, d) == Pde(s, e, d))
  }

  lemma KeptGuarded(s: Pm, s': Pm, k: Frame)
    requires Guarded(s, k) && UpperKept(s, s')
    ensures Guarded(s', k)
  {
    forall d: nat | UPDES <= d < NENTRIES && d != SELF && Present(k[d])
      ensures NotWritable(s', k[d])
    {
      assert NotWritable(s, k[d]);
      SameFrame(s, s', k[d]);
    }
    forall e | e in s'.dirs
      ensures UpperEntries(s', e, k)
    {
      assert DirKept(s, s', e) && UpperEntries(s, e, k);
    }
  }

  lemma SameFrame(s: Pm, s': Pm, x: Entry)
    requires NotWritable(s, x) && x.ppn < |s.mem| == |s'.mem| && s'.mem[x.ppn] == s.mem[x.ppn]
    ensures NotWritable(s', x)
  {
    forall t: nat
      ensures !({PTE_P, PTE_U, PTE_W} <= x.perm * At(s'.mem, x.ppn, t).perm)
    {
      assert At(s'.mem, x.ppn, t) == At(s.mem, x.ppn, t);
    }
  }

  /** Directories and user tables are pages of the allocator. */
  lemma DirManaged(s: Pm, e: nat)
    requires Owned(s) && e in s.dirs
    ensures s.dirs[e] in s.managed
  {
    assert Target(s, DirRef(e)) == s.dirs[e];
  }

  lemma TableManaged(s: Pm, e: nat, d: nat)
    requires Owned(s) && d < UPDES && Present(Pde(s, e, d))
    ensures Pde(s, e, d).ppn in s.managed
  {
    assert Target(s, PdeRef(e, d)) == Pde(s, e, d).ppn;
  }

  lemma GuardedSelfMapped(s: Pm, k: Frame)
    requires Guarded(s, k)
    ensures SelfMapped(s)
  {
    assert PDX(UVPT) == SELF;
    forall e | e in s.dirs
      ensures Pde(s, e, PDX(UVPT)) == Entry(s.dirs[e], {PTE_P, PTE_U})
    {
      assert UpperEntries(s, e, k);
    }
  }

  // ----- stores -----

  /** Above UTOP the hardware lets no store through. */
  lemma NoStoreAbove(s: Pm, k: Frame, e: nat, la: nat)
    requires Guarded(s, k) && UTOP <= la < ADDR_LIMIT
    ensures !({PTE_P, PTE_U, PTE_W} <= HwRights(s, e, la))
  {
    UserDirectoryEntries(la);
    AddressFields(la);
    var d, t := PDX(la), PTX(la);
    hide PDX, PTX;
    if e in s.dirs {
      assert UpperEntries(s, e, k);
      if d != SELF && Present(k[d]) {
        assert NotWritable(s, k[d]);
      }
    }
  }

  /** Below UTOP a store reaches a page that holds user data, never a directory or a table. */
  lemma StoreBelow(s: Pm, e: nat, la: nat, v: Entry)
    requires Inv(s, {}) && la < UTOP && {PTE_P, PTE_U, PTE_W} <= HwRights(s, e, la)
    ensures var s' := UserStore(s, e, la, v); Inv(s', {}) && SameTables(s, s') && UpperKept(s, s')
  {
    hide Refs, ZeroFilled, RightsNested, Counted, FreeExact;
    UserDirectoryEntries(la);
    var d, t := PDX(la), PTX(la);
    hide PDX, PTX, UserStore;
    var p := Pte(s, e, d, t).ppn;
    TargetPte(s, e, d, t);
    var s' := Write(s, p, PGOFF(la) / 4, v);
    StoreForm(s, e, la, v);
    OverwriteData(s, s', p, PteRef(e, d, t));
    SameTablesKeep(s, s');
    StoreLedger(s, s');
  }

  lemma StoreForm(s: Pm, e: nat, la: nat, v: Entry)
    requires la < UTOP && {PTE_P, PTE_U, PTE_W} <= HwRights(s, e, la)
    ensures UserStore(s, e, la, v) == Write(s, Pte(s, e, PDX(la), PTX(la)).ppn, PGOFF(la) / 4, v)
    ensures PTX(la) < NENTRIES && Present(Pte(s, e, PDX(la), PTX(la)))
  {
  }

  /** Overwriting a page that a user entry names leaves every directory and table as it was. */
  lemma OverwriteData(s: Pm, s': Pm, p: nat, r: Ref)
    requires Shape(s) && Owned(s) && Exclusive(s) && r.PteRef? && Target(s, r) == p
    requires s'.dirs == s.dirs && s'.managed == s.managed && |s'.mem| == |s.mem|
    requires forall f :: 0 <= f < |s.mem| && f != p ==> s'.mem[f] == s.mem[f]
    ensures SameTables(s, s') && UpperKept(s, s')
  {
    forall e: nat | e in s.dirs
      ensures s.dirs[e] != p
    {
      assert Target(s, DirRef(e)) == s.dirs[e];
    }
    assert forall e: nat, d: nat :: Pde(s', e, d) == Pde(s, e, d);
    forall e: nat, d: nat, t: nat | d < UPDES
      ensures Pte(s', e, d, t) == Pte(s, e, d, t)
    {
      if Present(Pde(s, e, d)) {
        assert Target(s, PdeRef(e, d)) == Pde(s, e, d).ppn;
      }
    }
  }

  lemma StoreLedger(s: Pm, s': Pm)
    requires Inv(s, {}) && SameTables(s, s') && s'.refs == s.refs && s'.free == s.free && Shape(s')
    ensures Inv(s', {})
  {
    SameTablesKeep(s, s');
  }

  /** Whatever the user stores, the ledger, every mapping and the upper half stay. */
  lemma {:induction false} StoresKeep(s: Pm, k: Frame, e: nat, ws: seq<Store>)
    requires Inv(s, {}) && Guarded(s, k)
    ensures var s' := UserStores(s, e, ws); Inv(s', {}) && SameTables(s, s') && UpperKept(s, s') && Guarded(s', k)
    decreases |ws|
  {
    hide Inv, Guarded, SameTables, UpperKept, UserStore;
    SameTablesRefl(s);
    if ws != [] {
      var s1 := UserStore(s, e, ws[0].la, ws[0].v);
      StoreKeeps(s, k, e, ws[0].la, ws[0].v);
      StoresKeep(s1, k, e, ws[1..]);
      var s2 := UserStores(s, e, ws);
      SameTablesTwice(s, s1, s2);
      KeptTwice(s, s1, s2);
      KeptGuarded(s, s2, k);
    } else {
      SameMemKept(s, s);
    }
  }

  lemma StoreKeeps(s: Pm, k: Frame, e: nat, la: nat, v: Entry)
    requires Inv(s, {}) && Guarded(s, k)
    ensures var s' := UserStore(s, e, la, v); Inv(s', {}) && SameTables(s, s') && UpperKept(s, s') && Guarded(s', k)
  {
    hide Inv, Guarded, UpperKept, HwRights;
    if la < ADDR_LIMIT && {PTE_P, PTE_U, PTE_W} <= HwRights(s, e, la) {
      if la >= UTOP {
        NoStoreAbove(s, k, e, la);
        assert false;
      }
      StoreBelow(s, e, la, v);
      KeptGuarded(s, UserStore(s, e, la, v), k);
    } else {
      SameMemKept(s, s);
    }
  }

  lemma SameTablesRefl(s: Pm)
    ensures SameTables(s, s)
  {
  }

  lemma SameTablesTwice(s: Pm, s1: Pm, s2: Pm)
    requires SameTables(s, s1) && SameTables(s1, s2)
    ensures SameTables(s, s2)
  {
  }

  /** A word of physical memory, as a user address names it: page and index. */
  function WordAt(s: Pm, e: nat, la: nat): (nat, nat) {
    (Pte(s, e, PDX(la), PTX(la)).ppn, PGOFF(la) / 4)
  }

  /** A store that the tables allow is what every later read of that word returns, through whatever mapping; every other
      word that user code can read stays. */
  lemma StoreReadBack(s: Pm, e: nat, la: nat, v: Entry, i: nat, lb: nat)
    requires Inv(s, {}) && la < UTOP && {PTE_P, PTE_U, PTE_W} <= HwRights(s, e, la) && lb < UTOP
    ensures var s' := UserStore(s, e, la, v);
            ReadUser(s', i, lb) ==
              if ReadUser(s, i, lb).Word? && WordAt(s, i, lb) == WordAt(s, e, la) then Word(v) else ReadUser(s, i, lb)
  {
    hide Refs, ZeroFilled, RightsNested, Counted, FreeExact, Exclusive;
    StoreBelow(s, e, la, v);
    UserDirectoryEntries(la);
    UserDirectoryEntries(lb);
    StoreForm(s, e, la, v);
    TargetPte(s, e, PDX(la), PTX(la));
    hide PDX, PTX, UserStore, UpperKept;
    assert PGOFF(la) / 4 < NENTRIES && PGOFF(lb) / 4 < NENTRIES;
  }

  /** Without the rights nothing is stored. */
  lemma StoreFaults(s: Pm, e: nat, la: nat, v: Entry)
    requires !({PTE_P, PTE_U, PTE_W} <= HwRights(s, e, la))
    ensures UserStore(s, e, la, v) == s
  {
  }

  /** Stores take effect in order. */
  lemma {:induction false} StoresInOrder(s: Pm, e: nat, ws: seq<Store>, w: Store)
    ensures UserStores(s, e, ws + [w]) == UserStore(UserStores(s, e, ws), e, w.la, w.v)
    decreases |ws|
  {
    hide UserStore;
    if ws == [] {
      assert [] + [w] == [w] && [w][1..] == [];
      assert UserStores(UserStore(s, e, w.la, w.v), e, []) == UserStore(s, e, w.la, w.v);
    } else {
      assert (ws + [w])[1..] == ws[1..] + [w];
      StoresInOrder(UserStore(s, e, ws[0].la, ws[0].v), e, ws[1..], w);
    }
  }

  // ----- the kernel's own tables -----

  /** boot_map_region, before there are environments, takes the first free page for good and makes it a table. */
  function Withdraw(s: Pm, f: Frame): Pm
    requires s.free != []
  {
    var p := s.free[0];
    s.(free := s.free[1..], mem := Put(s.mem, p, f), refs := Put(s.refs, p, 1), managed := s.managed - {p})
  }

  lemma WithdrawInv(s: Pm, f: Frame)
    requires Inv(s, {}) && s.dirs == map[] && s.free != [] && |f| == NENTRIES
    ensures var s' := Withdraw(s, f); Inv(s', {}) && s.free[0] < |s.mem| && s'.mem[s.free[0]] == f
  {
    hide Refs, Counted, FreeExact;
    var s', p := Withdraw(s, f), s.free[0];
    assert p in s.free;
    WithdrawFree(s, f);
    NothingNamed(s);
    NothingNamed(s');
    WithdrawCounted(s, f);
  }

  lemma NothingNamed(s: Pm)
    requires s.dirs == map[]
    ensures forall r :: Target(s, r) == -1
    ensures forall p :: Refs(s, p) == {}
  {
    forall p: nat
      ensures Refs(s, p) == {}
    {
      RefsMember(s, p);
    }
  }

  lemma WithdrawFree(s: Pm, f: Frame)
    requires Shape(s) && FreeExact(s, {}) && s.free != [] && |f| == NENTRIES
    ensures s.free[0] in s.managed && Shape(Withdraw(s, f)) && FreeExact(Withdraw(s, f), {})
  {
    var s', p := Withdraw(s, f), s.free[0];
    assert p in s.free && s.free == [p] + s'.free;
    assert forall q :: q in s'.free <==> q in s.free && q != p;
  }

  lemma WithdrawCounted(s: Pm, f: Frame)
    requires Shape(s) && Counted(s) && s.free != [] && Shape(Withdraw(s, f))
    requires forall p :: Refs(s, p) == {} && Refs(Withdraw(s, f), p) == {}
    ensures Counted(Withdraw(s, f))
  {
    hide Refs;
  }

  // ----- what the allocator's operations leave -----

  lemma KeptTwice(s: Pm, s1: Pm, s2: Pm)
    requires UpperKept(s, s1) && UpperKept(s1, s2)
    ensures UpperKept(s, s2)
  {
  }

  lemma SameMemKept(s: Pm, s': Pm)
    requires s'.mem == s.mem && s'.dirs == s.dirs && s'.managed == s.managed
    ensures UpperKept(s, s')
  {
  }

  lemma AllocKept(s: Pm, limbo: set<nat>)
    requires Inv(s, limbo) && s.free != []
    ensures UpperKept(s, PageAlloc(s))
  {
    hide Refs, Exclusive, ZeroFilled, RightsNested;
    assert s.free[0] in s.free;
    Unreferenced(s, s.free[0]);
    forall e | e in s.dirs
      ensures s.dirs[e] != s.free[0]
    {
      assert Target(s, DirRef(e)) == s.dirs[e];
    }
  }

  lemma WritePdeKept(s: Pm, e: nat, d: nat, v: Entry)
    requires Shape(s) && Owned(s) && Exclusive(s) && e in s.dirs && d < UPDES
    ensures UpperKept(s, WritePde(s, e, d, v))
  {
    hide Owned, Exclusive, Target;
    DirManaged(s, e);
    WritePdeEffect(s, e, d, v);
  }

  lemma WritePteKept(s: Pm, e: nat, d: nat, t: nat, v: Entry)
    requires Shape(s) && Owned(s) && Exclusive(s) && d < UPDES && t < NENTRIES && Present(Pde(s, e, d))
    ensures UpperKept(s, WritePte(s, e, d, t, v))
  {
    hide Owned, Exclusive, Target;
    TableManaged(s, e, d);
    WritePteEffect(s, e, d, t, v);
  }

  /** Counters and the free list may differ. */
  ghost predicate SameMem(s: Pm, s': Pm) {
    s'.mem == s.mem && s'.dirs == s.dirs && s'.managed == s.managed && |s'.refs| == |s.refs|
  }

  lemma SameMemTables(s: Pm, s': Pm)
    requires SameMem(s, s') && Shape(s) && Owned(s) && Exclusive(s)
    ensures Shape(s') && Owned(s') && Exclusive(s') && SameTables(s, s')
  {
    assert SameTables(s, s');
    SameTablesKeep(s, s');
  }

  lemma RemoveKept(s: Pm, e: nat, d: nat, t: nat)
    requires Shape(s) && Owned(s) && Exclusive(s) && d < UPDES && t < NENTRIES
    ensures UpperKept(s, PageRemove(s, e, d, t))
    ensures Shape(PageRemove(s, e, d, t))
  {
    hide Owned, Exclusive, Target;
    if Present(Pte(s, e, d, t)) {
      var s1 := DecRef(s, Pte(s, e, d, t).ppn);
      SameMemTables(s, s1);
      TableManaged(s1, e, d);
      WritePteEffect(s1, e, d, t, ZERO);
    }
  }

  lemma SetMappingKept(s: Pm, limbo: set<nat>, e: nat, d: nat, t: nat, pp: nat, perm: Perm)
    requires Inv(s, limbo) && d < UPDES && t < NENTRIES && Present(Pde(s, e, d))
    ensures UpperKept(s, SetMapping(s, e, d, t, pp, perm))
  {
    hide Refs, Target, ZeroFilled, RightsNested, Counted, FreeExact;
    var v := Entry(pp, perm + {PTE_P});
    var s1 := IncRef(s, pp);
    SameMemTables(s, s1);
    if pp == Pte(s, e, d, t).ppn {
      WritePteKept(s, e, d, t, v);
    } else if Present(Pte(s, e, d, t)) {
      RewriteKept(s, s1, e, d, t, v);
    } else {
      WritePteKept(s1, e, d, t, v);
    }
  }

  /** Clearing an entry and then writing it touches one table word. */
  lemma RewriteKept(s: Pm, s1: Pm, e: nat, d: nat, t: nat, v: Entry)
    requires Shape(s) && Owned(s) && Exclusive(s) && SameMem(s, s1) && d < UPDES
    requires t < NENTRIES && Present(Pde(s, e, d))
    requires Present(Pte(s1, e, d, t))
    ensures UpperKept(s, WritePte(PageRemove(s1, e, d, t), e, d, t, v))
  {
    hide Owned, Exclusive, Target;
    SameMemTables(s, s1);
    var s2 := DecRef(s1, Pte(s1, e, d, t).ppn);
    SameMemTables(s1, s2);
    TableManaged(s2, e, d);
    WritePteEffect(s2, e, d, t, ZERO);
    WritePteEffect(s2, e, d, t, v);
    var s3 := WritePte(s2, e, d, t, ZERO);
    TwoWrites(s2, Pde(s2, e, d).ppn, t, v);
    assert WritePte(s3, e, d, t, v) == WritePte(s2, e, d, t, v);
  }

  lemma TwoWrites(s: Pm, f: nat, t: nat, v: Entry)
    requires Shape(s) && t < NENTRIES
    ensures Write(Write(s, f, t, ZERO), f, t, v) == Write(s, f, t, v)
  {
    if f < |s.mem| {
      var w := Put(s.mem[f], t, ZERO);
      assert Put(w, t, v) == Put(s.mem[f], t, v);
      assert s.mem[f := w][f := Put(w, t, v)] == s.mem[f := Put(w, t, v)];
    }
  }

  lemma InsertKept(s: Pm, limbo: set<nat>, e: nat, d: nat, t: nat, pp: nat, perm: Perm)
    requires Inv(s, limbo) && e in s.dirs && d < UPDES && t < NENTRIES
    ensures UpperKept(s, PageInsert(s, e, d, t, pp, perm).0)
  {
    hide Refs, Target, ZeroFilled, RightsNested, Counted, FreeExact, UpperKept, Owned, Exclusive, SetMapping, AddTable;
    var (w, ok) := WalkCreate(s, e, d);
    WalkCreateInv(s, limbo, e, d);
    WalkKept(s, limbo, e, d);
    if ok {
      WritePdeKept(w, e, d, Pde(w, e, d).(perm := Pde(w, e, d).perm + perm + {PTE_P}));
      WidenPdeInv(w, limbo, e, d, perm);
      var w1 := WidenPde(w, e, d, perm);
      assert Present(Pde(w1, e, d));
      SetMappingKept(w1, limbo, e, d, t, pp, perm);
      KeptTwice(s, w, w1);
      KeptTwice(s, w1, SetMapping(w1, e, d, t, pp, perm));
    }
  }

  lemma WalkKept(s: Pm, limbo: set<nat>, e: nat, d: nat)
    requires Inv(s, limbo) && e in s.dirs && d < UPDES
    ensures UpperKept(s, WalkCreate(s, e, d).0)
  {
    hide Refs, Target, ZeroFilled, RightsNested, Counted, FreeExact, Owned, Exclusive;
    if !Present(Pde(s, e, d)) && s.free != [] {
      AllocKept(s, limbo);
      AllocInv(s, limbo);
      var s1 := PageAlloc(s);
      var s2 := IncRef(s1, s.free[0]);
      SameMemTables(s1, s2);
      WritePdeKept(s2, e, d, Entry(s.free[0], {PTE_P, PTE_W}));
    }
  }

  // ----- env_setup_vm and env_free -----

  lemma SetupGuarded(s: Pm, e: nat, k: Frame)
    requires Inv(s, {}) && Guarded(s, k) && e !in s.dirs
    ensures Guarded(SetupVm(s, e, k).0, k)
  {
    hide Refs, ZeroFilled, RightsNested, Exclusive;
    if s.free != [] {
      var p := s.free[0];
      assert p in s.free;
      Unreferenced(s, p);
      var s' := SetupVm(s, e, k).0;
      assert forall f :: 0 <= f < |s.mem| && f != p ==> s'.mem[f] == s.mem[f];
      assert p in s.managed;
      forall d: nat | UPDES <= d < NENTRIES && d != SELF && Present(k[d])
        ensures NotWritable(s', k[d])
      {
        SameFrame(s, s', k[d]);
      }
      assert PDX(UVPT) == SELF;
      forall i | i in s'.dirs
        ensures UpperEntries(s', i, k)
      {
        if i != e {
          assert Target(s, DirRef(i)) != p;
          assert UpperEntries(s, i, k);
          forall d: nat | UPDES <= d < NENTRIES
            ensures Pde(s', i, d) == Pde(s, i, d)
          {
            DirManaged(s, i);
          }
        } else {
          assert s'.mem[p] == Put(k, SELF, Entry(p, {PTE_P, PTE_U}));
        }
      }
    }
  }

  lemma {:induction false} FreePtesKept(s: Pm, limbo: set<nat>, e: nat, d: nat, n: nat)
    requires Inv(s, limbo) && d < UPDES && n <= NENTRIES
    ensures UpperKept(s, FreePtes(s, e, d, n))
  {
    hide Inv, Owned, Exclusive, Counted, FreeExact, ZeroFilled, RightsNested, UpperKept, PageRemove;
    if n == 0 {
      SameMemKept(s, s);
    } else {
      FreePtesKept(s, limbo, e, d, n - 1);
      FreePtesInv(s, limbo, e, d, n - 1);
      var s1 := FreePtes(s, e, d, n - 1);
      RemoveKeptInv(s1, limbo, e, d, n - 1);
      KeptTwice(s, s1, PageRemove(s1, e, d, n - 1));
    }
  }

  lemma RemoveKeptInv(s: Pm, limbo: set<nat>, e: nat, d: nat, t: nat)
    requires Inv(s, limbo) && d < UPDES && t < NENTRIES
    ensures UpperKept(s, PageRemove(s, e, d, t))
  {
    RemoveKept(s, e, d, t);
  }

  lemma FreeTableKept(s: Pm, limbo: set<nat>, e: nat, d: nat)
    requires Inv(s, limbo) && e in s.dirs && d < UPDES
    ensures UpperKept(s, FreeTable(s, e, d))
  {
    hide Owned, Exclusive, Counted, FreeExact, ZeroFilled, RightsNested, UpperKept;
    if Present(Pde(s, e, d)) {
      FreePtesKept(s, limbo, e, d, NENTRIES);
      FreePtesInv(s, limbo, e, d, NENTRIES);
      var s1 := FreePtes(s, e, d, NENTRIES);
      WritePdeKept(s1, e, d, ZERO);
      var s2 := WritePde(s1, e, d, ZERO);
      SameMemKept(s2, DropTable(s1, e, d));
      KeptTwice(s, s1, s2);
      KeptTwice(s, s2, DropTable(s1, e, d));
    } else {
      SameMemKept(s, s);
    }
  }

  lemma {:induction false} FreeTablesKept(s: Pm, limbo: set<nat>, e: nat, n: nat)
    requires Inv(s, limbo) && e in s.dirs && n <= UPDES
    ensures UpperKept(s, FreeTables(s, e, n))
  {
    hide Inv, UpperKept, FreeTable;
    if n == 0 {
      SameMemKept(s, s);
    } else {
      FreeTablesKept(s, limbo, e, n - 1);
      FreeTablesInv(s, limbo, e, n - 1);
      var s1 := FreeTables(s, e, n - 1);
      FreeTableKept(s1, limbo, e, n - 1);
      KeptTwice(s, s1, FreeTable(s1, e, n - 1));
    }
  }

  lemma FreeSpaceKept(s: Pm, limbo: set<nat>, e: nat)
    requires Inv(s, limbo) && e in s.dirs
    ensures UpperKept(s, FreeSpace(s, e))
  {
    hide Inv, FreeTables;
    FreeTablesKept(s, limbo, e, UPDES);
  }

  // ----- the page calls -----

  lemma AllocAtKept(s: Pm, e: nat, va: nat, perm: Perm)
    requires Inv(s, {}) && e in s.dirs && va < UTOP
    ensures UpperKept(s, PageAllocAt(s, e, va, perm).0)
  {
    hide Inv, PageInsert, UpperKept, PageAlloc;
    if s.free == [] {
      SameMemKept(s, s);
    } else {
      var p := s.free[0];
      AllocKept(s, {});
      AllocInv(s, {});
      UserDirectoryEntries(va);
      var s1 := PageAlloc(s);
      InsertKept(s1, {} + {p}, e, PDX(va), PTX(va), p, perm);
      var (s2, ok) := PageInsert(s1, e, PDX(va), PTX(va), p, perm);
      KeptTwice(s, s1, s2);
      SameMemKept(s2, PageFree(s2, p));
      KeptTwice(s, s2, PageFree(s2, p));
    }
  }

  lemma MapAtKept(s: Pm, src: nat, srcva: nat, dst: nat, dstva: nat, perm: Perm)
    requires Inv(s, {}) && dst in s.dirs
    ensures UpperKept(s, PageMapAt(s, src, srcva, dst, dstva, perm).0)
  {
    hide Inv, PageInsert, UpperKept;
    SameMemKept(s, s);
    if UserPage(srcva) && UserPage(dstva) {
      UserDirectoryEntries(dstva);
      InsertKept(s, {}, dst, PDX(dstva), PTX(dstva), Pte(s, src, PDX(srcva), PTX(srcva)).ppn, perm);
    }
  }

  lemma UnmapKept(s: Pm, e: nat, va: nat)
    requires Inv(s, {}) && va < UTOP
    ensures UpperKept(s, PageRemove(s, e, PDX(va), PTX(va)))
  {
    hide Inv, PageRemove;
    UserDirectoryEntries(va);
    RemoveKeptInv(s, {}, e, PDX(va), PTX(va));
  }
}
