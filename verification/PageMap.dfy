/**
  The code of kern/pmap.c and the memory half of kern/env.c, updating the page array, the linked free
  list and the tables in place; each method against the ledger model.
*/
module PageMap {
  import opened Mmu
  import P = Pmap
  import opened Errors
  import T = Translate
  import U = UpperHalf
  import opened FreeList

  class PageMap {
    const npages: nat
    /** pp_ref, pp_link and the contents of every physical page. */
    const refs: array<nat>
    const link: array<int>
    const mem: array<Frame>
    /** page_free_list and nAvailPages. */
    var head: int
    var avail: int
    /** env_pgdir of every live environment, as a page number. */
    var dirs: map<nat, nat>
    ghost var free: seq<nat>
    ghost var managed: set<nat>

    ghost predicate Valid()
      reads this, refs, link, mem
    {
      && refs.Length == link.Length == mem.Length == npages
      && (refs as object) != (link as object)
      && Chain(head, link[..], free)
    }

    ghost function State(): P.Pm
      reads this, refs, mem
    {
      P.Pm(refs[..], mem[..], free, dirs, managed)
    }

    /** page_init on a machine of n pages: the ledger starts exact, with nothing mapped. */
    constructor (n: nat, nb: nat, available: int, contents: seq<Frame>)
      requires EXTMEM <= nb < n == |contents| && forall f :: 0 <= f < n ==> |contents[f]| == NENTRIES
      ensures Valid() && P.Inv(State(), {}) && fresh(refs) && fresh(link) && fresh(mem)
      ensures free == Initial(nb, n) && dirs == map[] && npages == n
    {
      npages := n;
      refs := new nat[n](_ => 0);
      link := new int[n](_ => NIL);
      mem := new Frame[n](i requires 0 <= i < n => contents[i]);
      avail := available;
      dirs := map[];
      managed := set p | p in Initial(nb, n);
      free := Initial(nb, n);
      new;
      head := PageInit(refs, link, nb);
      InitialLedger(State(), nb, n);
    }

    /** page_alloc(ALLOC_ZERO). */
    method Alloc() returns (p: int)
      requires Valid()
      modifies this`head, this`avail, this`free, refs, link, mem
      ensures Valid() && avail - |free| == old(avail - |free|)
      ensures p == First(old(free)) && (p != NIL ==> 0 <= p < npages)
      ensures State() == if p == NIL then old(State()) else P.PageAlloc(old(State()))
    {
      if head == NIL {
        return NIL;
      }
      p := head;
      ChainTail(head, link[..], free);
      ChainApart(link[..], free[1..], p, NIL) by {
        assert free == [free[0]] + free[1..];
      }
      head := link[p];
      link[p] := NIL;
      assert link[..] == old(link[..])[p := NIL];
      avail := avail - 1;
      free := free[1..];
      mem[p] := P.ZeroFrame();
      refs[p] := 0;
      assert mem[..] == old(mem[..])[p := P.ZeroFrame()] && refs[..] == old(refs[..])[p := 0];
    }

    /** A page given to the kernel for good, with one reference, as a table with contents f. */
    method TakeTable(f: Frame) returns (p: int)
      requires Valid() && P.Inv(State(), {}) && dirs == map[] && |f| == NENTRIES
      modifies this`head, this`avail, this`free, this`managed, refs, link, mem
      ensures Valid() && P.Inv(State(), {}) && dirs == map[] && avail - |free| == old(avail - |free|)
      ensures p == First(old(free))
      ensures State() == if p == NIL then old(State()) else U.Withdraw(old(State()), f)
    {
      hide P.Inv, Chain;
      ghost var s0 := State();
      p := Alloc();
      if p == NIL {
        return;
      }
      U.WithdrawInv(s0, f);
      refs[p] := refs[p] + 1;
      mem[p] := f;
      managed := managed - {p};
      assert refs[..] == s0.refs[p := 1];
      assert mem[..] == s0.mem[p := f];
    }

    /** page_free. */
    method Free(p: int)
      requires Valid() && (0 <= p < npages ==> p !in free)
      modifies this`head, this`avail, this`free, link
      ensures Valid() && avail - |free| == old(avail - |free|)
      ensures State() == if 0 <= p then P.PageFree(old(State()), p) else old(State())
    {
      if p < 0 || p >= npages {
        return;
      }
      link[p] := head;
      assert link[..] == old(link[..])[p := head];
      head := p;
      avail := avail + 1;
      free := [p] + free;
      ChainPush(old(link[..]), old(head), old(free), p);
    }

    /** page_decref. */
    method Decref(p: nat)
      requires Valid() && p < npages && p !in free
      modifies this`head, this`avail, this`free, link, refs
      ensures Valid() && avail - |free| == old(avail - |free|)
      ensures State() == P.DecRef(old(State()), p)
    {
      refs[p] := (refs[p] + P.REF_LIMIT - 1) % P.REF_LIMIT;
      assert refs[..] == old(refs[..])[p := refs[p]];
      if refs[p] == 0 {
        Free(p);
      }
    }

    method WriteWord(f: nat, i: nat, v: Entry)
      requires Valid() && f < npages && i < |mem[f]|
      modifies mem
      ensures Valid() && State() == P.Write(old(State()), f, i, v)
    {
      mem[f] := mem[f][i := v];
      assert mem[..] == old(mem[..])[f := mem[f]];
    }

    method WriteFrame(f: nat, v: Frame)
      requires Valid() && f < npages
      modifies mem
      ensures Valid() && mem[f] == v && State() == PutFrame(old(State()), f, v)
    {
      mem[f] := v;
      assert mem[..] == old(mem[..])[f := v];
    }

    /** A 4-byte store by the user, through the two levels of its tables. */
    method StoreWord(e: nat, la: nat, v: Entry)
      requires Valid() && P.Shape(State())
      modifies mem
      ensures Valid() && State() == T.UserStore(old(State()), e, la, v) && P.Shape(State())
    {
      hide Chain;
      if la >= ADDR_LIMIT || e !in dirs || dirs[e] >= npages {
        return;
      }
      var pde := mem[dirs[e]][PDX(la)];
      if !Present(pde) || pde.ppn >= npages {
        return;
      }
      var pte := mem[pde.ppn][PTX(la)];
      if !({PTE_P, PTE_U, PTE_W} <= pde.perm * pte.perm) || pte.ppn >= npages {
        return;
      }
      WriteWord(pte.ppn, PGOFF(la) / 4, v);
    }

    method StoreWords(e: nat, ws: seq<T.Store>)
      requires Valid() && P.Shape(State())
      modifies mem
      ensures Valid() && State() == T.UserStores(old(State()), e, ws)
    {
      hide Chain, P.Shape, T.UserStore;
      var i := 0;
      while i < |ws|
        invariant 0 <= i <= |ws| && Valid() && P.Shape(State())
        invariant T.UserStores(State(), e, ws[i..]) == T.UserStores(old(State()), e, ws)
      {
        StoreWord(e, ws[i].la, ws[i].v);
        assert ws[i..][1..] == ws[i + 1..];
        i := i + 1;
      }
    }

    method IncRef(p: nat)
      requires Valid() && p < npages
      modifies refs
      ensures Valid() && State() == P.IncRef(old(State()), p)
    {
      refs[p] := (refs[p] + 1) % P.REF_LIMIT;
      assert refs[..] == old(refs[..])[p := refs[p]];
    }

    /** pgdir_walk without create: the page of the table, or NIL. */
    method Walk(e: nat, va: nat) returns (table: int)
      requires Valid() && Walkable(State(), e, PDX(va))
      ensures table == if Present(P.Pde(State(), e, PDX(va))) then P.Pde(State(), e, PDX(va)).ppn else NIL
    {
      var pde := mem[dirs[e]][PDX(va)];
      table := if Present(pde) then pde.ppn else NIL;
    }

    /** pgdir_walk with create. */
    method WalkCreate(e: nat, va: nat, ghost limbo: set<nat>) returns (table: int)
      requires Valid() && P.Inv(State(), limbo) && e in dirs && va < UTOP
      modifies this`head, this`avail, this`free, refs, link, mem
      ensures Valid() && P.Inv(State(), limbo) && avail - |free| == old(avail - |free|)
      ensures (State(), table != NIL) == P.WalkCreate(old(State()), e, PDX(va))
      ensures table != NIL ==> Present(P.Pde(State(), e, PDX(va))) && table == P.Pde(State(), e, PDX(va)).ppn < npages
    {
      hide P.Refs, P.Counted, P.FreeExact, P.ZeroFilled, P.RightsNested;
      UserDirectoryEntries(va);
      ghost var d := PDX(va);
      P.WalkCreateInv(State(), limbo, e, d);
      InvWalkable(State(), limbo, e, d);
      table := Walk(e, va);
      if table == NIL {
        table := Alloc();
        if table == NIL {
          return;
        }
        IncRef(table);
        WriteWord(dirs[e], PDX(va), Entry(table, {PTE_P, PTE_W}));
      }
      InvWalkable(State(), limbo, e, d);
    }

    /** page_lookup: the mapped page and the table that maps it, or NIL. */
    method Lookup(e: nat, va: nat) returns (p: int, table: int)
      requires Valid() && Walkable(State(), e, PDX(va))
      ensures p == P.PageLookup(State(), e, PDX(va), PTX(va))
      ensures var x := P.Pte(State(), e, PDX(va), PTX(va)); p == if Present(x) then x.ppn else NIL
      ensures p != NIL ==> table == P.Pde(State(), e, PDX(va)).ppn
    {
      table := Walk(e, va);
      if table == NIL {
        return NIL, NIL;
      }
      var pte := mem[table][PTX(va)];
      p := if Present(pte) then pte.ppn else NIL;
    }

    /** page_remove. */
    method Remove(e: nat, va: nat)
      requires Valid() && Walkable(State(), e, PDX(va))
      requires Removable(State(), e, PDX(va), PTX(va))
      modifies this`head, this`avail, this`free, refs, link, mem
      ensures Valid() && avail - |free| == old(avail - |free|)
      ensures State() == P.PageRemove(old(State()), e, PDX(va), PTX(va))
    {
      var p, table := Lookup(e, va);
      if p == NIL {
        return;
      }
      Decref(p);
      WriteWord(table, PTX(va), ZERO);
    }

    /** page_insert. */
    method Insert(e: nat, va: nat, pp: int, perm: Perm, ghost limbo: set<nat>) returns (r: int)
      requires Valid() && P.Inv(State(), limbo) && e in dirs && va < UTOP
      requires pp != NIL ==> pp >= 0 && P.Mappable(State(), limbo, pp)
      modifies this`head, this`avail, this`free, refs, link, mem
      ensures Valid() && avail - |free| == old(avail - |free|)
      ensures r in {0, -E_NO_MEM, -E_UNSPECIFIED} && (r == -E_UNSPECIFIED ==> pp == NIL)
      ensures pp == NIL ==> r != 0 && (State(), r != -E_NO_MEM) == P.WalkCreate(old(State()), e, PDX(va))
      ensures pp != NIL ==> (State(), r == 0) == P.PageInsert(old(State()), e, PDX(va), PTX(va), pp, perm)
      ensures P.Inv(State(), if r == 0 then limbo - {pp as int} else limbo)
    {
      hide P.Refs, P.Counted, P.FreeExact, P.ZeroFilled, P.RightsNested, P.Owned, P.Exclusive, P.SetMapping;
      UserDirectoryEntries(va);
      var table := WalkCreate(e, va, limbo);
      if table == NIL {
        return -E_NO_MEM;
      }
      if pp == NIL {
        return -E_UNSPECIFIED;
      }
      ghost var w := State();
      P.WalkCreateInv(old(State()), limbo, e, PDX(va));
      Map(e, va, table, pp, perm, limbo);
      P.PageInsertInv(old(State()), limbo, e, PDX(va), PTX(va), pp, perm);
      r := 0;
    }

    /** The rest of page_insert, once there is a table. */
    method Map(e: nat, va: nat, table: nat, pp: nat, perm: Perm, ghost limbo: set<nat>)
      requires Valid() && P.Inv(State(), limbo) && e in dirs && va < UTOP && P.Mappable(State(), limbo, pp)
      requires Present(P.Pde(State(), e, PDX(va))) && table == P.Pde(State(), e, PDX(va)).ppn
      modifies this`head, this`avail, this`free, refs, link, mem
      ensures Valid() && avail - |free| == old(avail - |free|)
      ensures State() == P.SetMapping(P.WidenPde(old(State()), e, PDX(va), perm), e, PDX(va), PTX(va), pp, perm)
    {
      hide P.Inv, P.PageRemove, P.IncRef, Removable;
      UserDirectoryEntries(va);
      ghost var d, t := PDX(va), PTX(va);
      InvWalkable(State(), limbo, e, d);
      P.WidenPdeInv(State(), limbo, e, d, perm);
      var pde := mem[dirs[e]][PDX(va)];
      WriteWord(dirs[e], PDX(va), pde.(perm := pde.perm + perm + {PTE_P}));
      ghost var s1 := State();
      InvWalkable(s1, limbo, e, d);
      MapSteps(s1, limbo, e, d, t, pp);
      var pte := mem[table][PTX(va)];
      if pp != pte.ppn {
        IncRef(pp);
        if Present(pte) {
          Remove(e, va);
        } else {
          RemoveAbsent(s1, e, d, t, pp);
        }
      }
      WriteWord(table, PTX(va), Entry(pp, perm + {PTE_P}));
    }

    /** env_setup_vm. */
    method SetupVm(e: nat, kdir: Frame) returns (r: int)
      requires Valid() && P.Inv(State(), {}) && e !in dirs && P.KernelTemplate(kdir)
      modifies this`head, this`avail, this`free, this`dirs, refs, link, mem
      ensures Valid() && P.Inv(State(), {}) && r in {0, -E_NO_MEM} && avail - |free| == old(avail - |free|)
      ensures (State(), r == 0) == P.SetupVm(old(State()), e, kdir)
    {
      hide P.Inv, P.KernelTemplate, P.IncRef, P.PageAlloc, Chain;
      P.SetupVmInv(State(), e, kdir);
      var p := Alloc();
      if p == NIL {
        return -E_NO_MEM;
      }
      ghost var s1 := State();
      dirs := dirs[e := p];
      WriteFrame(p, kdir);
      IncRef(p);
      WriteFrame(p, P.Put(mem[p], PDX(UVPT), Entry(p, {PTE_P, PTE_U})));
      SetupForm(s1, e, p, kdir);
      r := 0;
    }

    /** The memory half of env_free. */
    method FreeEnv(e: nat, ghost limbo: set<nat>)
      requires Valid() && P.Inv(State(), limbo) && e in dirs
      modifies this`head, this`avail, this`free, this`dirs, refs, link, mem
      ensures Valid() && P.Inv(State(), limbo) && avail - |free| == old(avail - |free|)
      ensures State() == P.FreeSpace(old(State()), e)
    {
      hide P.Inv, P.FreeTables, P.FreeTable, P.DropDir, Chain;
      ghost var s0 := State();
      var pdeno := 0;
      FreeTablesStep(s0, e, 0);
      while pdeno < PDX(UTOP)
        invariant 0 <= pdeno <= UPDES && Valid() && avail - |free| == old(avail - |free|)
        invariant State() == P.FreeTables(s0, e, pdeno) && P.Inv(State(), limbo) && dirs == old(dirs)
      {
        FreeTablesStep(s0, e, pdeno);
        FreeTable(e, pdeno, limbo);
        pdeno := pdeno + 1;
      }
      FreeSpaceKeeps(s0, limbo, e);
      DropDir(e, limbo);
    }

    /** The page directory goes last. */
    method DropDir(e: nat, ghost limbo: set<nat>)
      requires Valid() && P.Inv(State(), limbo) && e in dirs
      modifies this`head, this`avail, this`free, this`dirs, refs, link
      ensures Valid() && avail - |free| == old(avail - |free|)
      ensures State() == P.DropDir(old(State()), e)
    {
      hide P.Inv;
      var p := dirs[e];
      DirUsed(State(), limbo, e);
      dirs := dirs - {e};
      Decref(p);
    }

    /** One turn of env_free's outer loop. */
    method FreeTable(e: nat, pdeno: nat, ghost limbo: set<nat>)
      requires Valid() && P.Inv(State(), limbo) && e in dirs && pdeno < UPDES
      modifies this`head, this`avail, this`free, refs, link, mem
      ensures Valid() && avail - |free| == old(avail - |free|) && P.Inv(State(), limbo)
      ensures State() == P.FreeTable(old(State()), e, pdeno)
    {
      hide P.Inv, P.FreePtes, P.PageRemove;
      ghost var s0 := State();
      P.FreeTableInv(s0, limbo, e, pdeno);
      InvWalkable(s0, limbo, e, pdeno);
      var pde := mem[dirs[e]][pdeno];
      if !Present(pde) {
        return;
      }
      ClearTable(e, pdeno, pde.ppn, limbo);
      P.FreePtesInv(s0, limbo, e, pdeno, NENTRIES);
      TableUsed(State(), limbo, e, pdeno);
      WriteWord(dirs[e], pdeno, ZERO);
      Decref(pde.ppn);
    }

    /** The inner loop: unmap every page of one table. */
    method ClearTable(e: nat, pdeno: nat, table: nat, ghost limbo: set<nat>)
      requires Valid() && P.Inv(State(), limbo) && e in dirs && pdeno < UPDES
      requires Present(P.Pde(State(), e, pdeno)) && table == P.Pde(State(), e, pdeno).ppn < npages
      modifies this`head, this`avail, this`free, refs, link, mem
      ensures Valid() && avail - |free| == old(avail - |free|)
      ensures State() == P.FreePtes(old(State()), e, pdeno, NENTRIES)
    {
      hide P.Inv, P.FreePtes, P.PageRemove;
      ghost var s0 := State();
      var pteno := 0;
      FreePtesStep(s0, e, pdeno, 0);
      while pteno < NENTRIES
        invariant 0 <= pteno <= NENTRIES && Valid() && avail - |free| == old(avail - |free|)
        invariant State() == P.FreePtes(s0, e, pdeno, pteno)
      {
        P.FreePtesInv(s0, limbo, e, pdeno, pteno);
        FreePtesStep(s0, e, pdeno, pteno);
        InvWalkable(State(), limbo, e, pdeno);
        FieldsOfAddress(pdeno, pteno, 0);
        if Present(mem[table][pteno]) {
          Remove(e, PGADDR(pdeno, pteno, 0));
        } else {
          RemoveAbsent(State(), e, pdeno, pteno, 0);
        }
        pteno := pteno + 1;
      }
    }
  }

  lemma ChainApart(link: seq<int>, f: seq<nat>, p: nat, v: int)
    requires Chain(First(f), link, f) && p < |link| && p !in f
    ensures Chain(First(f), link[p := v], f)
  {
  }

  lemma ChainPush(link: seq<int>, head: int, f: seq<nat>, p: nat)
    requires Chain(head, link, f) && p < |link| && p !in f
    ensures Chain(p, link[p := head], [p] + f)
  {
    var g := [p] + f;
    assert forall i :: 0 < i < |g| ==> g[i] == f[i - 1];
    assert P.Distinct(g);
    forall i | 0 <= i < |g|
      ensures g[i] < |link| && link[p := head][g[i]] == After(g, i)
    {
      if i > 0 {
        assert f[i - 1] in f && link[f[i - 1]] == After(f, i - 1);
      }
    }
  }

  /** The words that a walk to table (e, d) reads are in memory. */
  ghost predicate Walkable(s: P.Pm, e: nat, d: nat) {
    && P.Shape(s) && e in s.dirs && s.dirs[e] < |s.mem| && d < NENTRIES
    && (Present(P.Pde(s, e, d)) ==> P.Pde(s, e, d).ppn < |s.mem|)
  }

  /** Entry t of table (e, d) can be removed. */
  ghost predicate Removable(s: P.Pm, e: nat, d: nat, t: nat) {
    var x := P.Pte(s, e, d, t);
    Present(x) ==> x.ppn < |s.mem| && x.ppn !in s.free
  }

  /** Tables that the ledger knows are in memory. */
  lemma InvWalkable(s: P.Pm, limbo: set<nat>, e: nat, d: nat)
    requires P.Inv(s, limbo) && e in s.dirs && d < UPDES
    ensures Walkable(s, e, d) && forall t: nat :: t < NENTRIES ==> Removable(s, e, d, t)
  {
    hide P.Refs, P.Exclusive, P.ZeroFilled, P.RightsNested;
    assert P.Target(s, P.DirRef(e)) == s.dirs[e];
    assert Present(P.Pde(s, e, d)) ==> P.Target(s, P.PdeRef(e, d)) == P.Pde(s, e, d).ppn;
    forall t: nat | t < NENTRIES
      ensures Removable(s, e, d, t)
    {
      if Present(P.Pte(s, e, d, t)) {
        P.TargetPte(s, e, d, t);
        P.Referenced(s, P.PteRef(e, d, t));
      }
    }
  }

  /** Counting the new page leaves the old one removable, and neither step moves the table. */
  lemma MapSteps(s: P.Pm, limbo: set<nat>, e: nat, d: nat, t: nat, pp: nat)
    requires P.Inv(s, limbo) && d < UPDES && t < NENTRIES && Present(P.Pde(s, e, d)) && pp in s.managed
    ensures Walkable(P.IncRef(s, pp), e, d) && Removable(P.IncRef(s, pp), e, d, t)
    ensures var s3 := P.PageRemove(P.IncRef(s, pp), e, d, t);
            P.Shape(s3) && |s3.mem| == |s.mem| && P.Pde(s3, e, d) == P.Pde(s, e, d)
  {
    hide P.Refs, P.ZeroFilled, P.RightsNested, P.Counted, P.FreeExact, P.Owned, P.Exclusive;
    P.DirNotTable(s, e, d);
    InvWalkable(s, limbo, e, d);
    assert Removable(s, e, d, t);
    assert P.Target(s, P.DirRef(e)) == s.dirs[e];
  }

  lemma RemoveAbsent(s: P.Pm, e: nat, d: nat, t: nat, pp: nat)
    requires !Present(P.Pte(s, e, d, t))
    ensures P.PageRemove(s, e, d, t) == s && P.PageRemove(P.IncRef(s, pp), e, d, t) == P.IncRef(s, pp)
  {
  }

  lemma FreePtesStep(s: P.Pm, e: nat, d: nat, n: nat)
    ensures P.FreePtes(s, e, d, 0) == s && P.FreePtes(s, e, d, n + 1) == P.PageRemove(P.FreePtes(s, e, d, n), e, d, n)
  {
  }

  lemma FreeTablesStep(s: P.Pm, e: nat, n: nat)
    ensures P.FreeTables(s, e, 0) == s && P.FreeTables(s, e, n + 1) == P.FreeTable(P.FreeTables(s, e, n), e, n)
  {
  }

  function PutFrame(s: P.Pm, f: nat, v: Frame): P.Pm {
    s.(mem := P.Put(s.mem, f, v))
  }

  lemma SetupForm(s: P.Pm, e: nat, p: nat, k: Frame)
    requires p < |s.mem|
    ensures var v := P.Put(k, PDX(UVPT), Entry(p, {PTE_P, PTE_U})); var s1 := P.IncRef(s, p);
            PutFrame(P.IncRef(PutFrame(s.(dirs := s.dirs[e := p]), p, k), p), p, v) ==
              s1.(mem := P.Put(s1.mem, p, v), dirs := s1.dirs[e := p])
  {
  }

  lemma FreeSpaceKeeps(s: P.Pm, limbo: set<nat>, e: nat)
    requires P.Inv(s, limbo) && e in s.dirs
    ensures P.Inv(P.FreeSpace(s, e), limbo)
  {
    hide P.Inv, P.FreeSpace;
    P.FreeSpaceExact(s, limbo, e);
  }

  lemma DirUsed(s: P.Pm, limbo: set<nat>, e: nat)
    requires P.Inv(s, limbo) && e in s.dirs
    ensures s.dirs[e] < |s.mem| && s.dirs[e] !in s.free
  {
    hide P.Refs, P.Exclusive, P.ZeroFilled, P.RightsNested;
    P.Referenced(s, P.DirRef(e));
  }

  lemma TableUsed(s: P.Pm, limbo: set<nat>, e: nat, d: nat)
    requires P.Inv(s, limbo) && d < UPDES && Present(P.Pde(s, e, d))
    ensures P.Pde(s, e, d).ppn < |s.mem| && P.Pde(s, e, d).ppn !in s.free
    ensures e in s.dirs && s.dirs[e] < |s.mem| && d < |s.mem[s.dirs[e]]|
  {
    hide P.Refs, P.Exclusive, P.ZeroFilled, P.RightsNested;
    P.Referenced(s, P.PdeRef(e, d));
    P.Referenced(s, P.DirRef(e));
  }

  /** Nothing is mapped, and every managed page is free. */
  lemma InitialLedger(s: P.Pm, nb: nat, n: nat)
    requires EXTMEM <= nb < n == |s.refs| == |s.mem| && (forall f :: 0 <= f < n ==> |s.mem[f]| == NENTRIES)
    requires s.dirs == map[] && s.free == Initial(nb, n) && s.managed == set p | p in Initial(nb, n)
    requires forall p :: p in Initial(nb, n) ==> p < n && s.refs[p] == 0
    ensures P.Inv(s, {})
  {
    forall p | p in s.managed
      ensures 0 < p < n && P.Refs(s, p) == {}
    {
      InitialExact(nb, n, p);
    }
    InitialExact(nb, n, 0);
  }
}
