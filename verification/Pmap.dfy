/**
  Physical pages and two-level page tables (kern/pmap.c) as a value.

  Every counted pointer to a physical page is a `Ref`: an environment's page directory,
  a present directory entry below UTOP, or a present table entry below UTOP.  `Target`
  reads the page a reference names out of the tables in memory.
*/
module Pmap {
  import opened Mmu

  /**
    refs    pp_ref of every physical page (16 bits)
    mem     contents of every physical page, as table words
    free    the pages on page_free_list, first to last
    dirs    the page directory of every live environment
    managed the pages page_init put under the allocator
  */
  datatype Pm = Pm(refs: seq<nat>, mem: seq<Frame>, free: seq<nat>, dirs: map<nat, nat>, managed: set<nat>)

  datatype Ref = DirRef(e: nat) | PdeRef(e: nat, d: nat) | PteRef(e: nat, d: nat, t: nat)

  const REF_LIMIT: nat := 0x1_0000

  // ----- reading the tables -----

  function At(mem: seq<Frame>, f: nat, i: nat): Entry {
    if f < |mem| && i < |mem[f]| then mem[f][i] else ZERO
  }

  function Pde(s: Pm, e: nat, d: nat): Entry {
    if e in s.dirs then At(s.mem, s.dirs[e], d) else ZERO
  }

  function Pte(s: Pm, e: nat, d: nat, t: nat): Entry {
    var x := Pde(s, e, d);
    if Present(x) then At(s.mem, x.ppn, t) else ZERO
  }

  /** The page named by a reference, or -1. */
  function Target(s: Pm, r: Ref): int {
    match r
    case DirRef(e) => if e in s.dirs then s.dirs[e] else -1
    case PdeRef(e, d) => if d < UPDES && Present(Pde(s, e, d)) then Pde(s, e, d).ppn else -1
    case PteRef(e, d, t) =>
      if d < UPDES && t < NENTRIES && Present(Pte(s, e, d, t)) then Pte(s, e, d, t).ppn else -1
  }

  function Refs(s: Pm, p: nat): set<Ref> {
    (set e | e in s.dirs && Target(s, DirRef(e)) == p :: DirRef(e))
    + (set e, d: nat | e in s.dirs && d < UPDES && Target(s, PdeRef(e, d)) == p :: PdeRef(e, d))
    + (set e, d: nat, t: nat | e in s.dirs && d < UPDES && t < NENTRIES && Target(s, PteRef(e, d, t)) == p
         :: PteRef(e, d, t))
  }

  lemma RefsMember(s: Pm, p: nat)
    ensures forall r :: r in Refs(s, p) <==> Target(s, r) == p
  {
  }

  // ----- the invariant -----

  ghost predicate Shape(s: Pm) {
    && |s.refs| == |s.mem|
    && (forall f :: 0 <= f < |s.mem| ==> |s.mem[f]| == NENTRIES)
    && (forall p :: p in s.managed ==> 0 < p < |s.mem|)
  }

  ghost predicate Owned(s: Pm) {
    forall r :: Target(s, r) != -1 ==> Target(s, r) in s.managed
  }

  /** Directories and tables are named once; only user pages are shared. */
  ghost predicate Exclusive(s: Pm) {
    forall r, q :: Target(s, r) != -1 && Target(s, r) == Target(s, q) && r != q ==> r.PteRef? && q.PteRef?
  }

  /** Entries that are not present are zero. */
  ghost predicate ZeroFilled(s: Pm) {
    && (forall e: nat, d: nat :: d < UPDES && !Present(Pde(s, e, d)) ==> Pde(s, e, d) == ZERO)
    && (forall e: nat, d: nat, t: nat :: d < UPDES && !Present(Pte(s, e, d, t)) ==> Pte(s, e, d, t) == ZERO)
  }

  /** The P, W and U bits of a table entry are contained in its directory entry. */
  ghost predicate RightsNested(s: Pm) {
    forall e: nat, d: nat, t: nat :: d < UPDES && Present(Pte(s, e, d, t)) ==>
      Pte(s, e, d, t).perm * {PTE_P, PTE_W, PTE_U} <= Pde(s, e, d).perm
  }

  ghost predicate Counted(s: Pm)
    requires Shape(s)
  {
    forall p :: p in s.managed ==> s.refs[p] == |Refs(s, p)| < REF_LIMIT
  }

  ghost predicate Distinct(xs: seq<nat>) {
    forall i, j :: 0 <= i < j < |xs| ==> xs[i] != xs[j]
  }

  /** A managed page is on the free list exactly when its count is 0, except the pages in
      `limbo`: allocated but not yet mapped by the running system call. */
  ghost predicate FreeExact(s: Pm, limbo: set<nat>)
    requires Shape(s)
  {
    && Distinct(s.free)
    && (forall p :: p in s.free <==> p in s.managed && s.refs[p] == 0 && p !in limbo)
    && (forall p :: p in limbo ==> p in s.managed && s.refs[p] == 0)
  }

  ghost predicate Inv(s: Pm, limbo: set<nat>) {
    Shape(s) && Owned(s) && Exclusive(s) && ZeroFilled(s) && RightsNested(s) && Counted(s) && FreeExact(s, limbo)
  }

  // ----- counting -----

  lemma SameRefs(s: Pm, s': Pm, p: nat)
    requires forall r :: Target(s, r) == p <==> Target(s', r) == p
    ensures Refs(s', p) == Refs(s, p)
  {
    RefsMember(s, p);
    RefsMember(s', p);
  }

  lemma OneMoreRef(s: Pm, s': Pm, p: nat, x: Ref)
    requires forall r :: r != x ==> (Target(s, r) == p <==> Target(s', r) == p)
    requires Target(s, x) != p && Target(s', x) == p
    ensures |Refs(s', p)| == |Refs(s, p)| + 1
  {
    RefsMember(s, p);
    RefsMember(s', p);
    hide Refs, Target;
    assert Refs(s', p) == Refs(s, p) + {x};
  }

  // ----- elementary updates -----

  function Put<T>(xs: seq<T>, i: nat, v: T): seq<T> {
    if i < |xs| then xs[i := v] else xs
  }

  function Count(s: Pm, p: nat): nat {
    if p < |s.refs| then s.refs[p] else 0
  }

  function Write(s: Pm, f: nat, i: nat, v: Entry): Pm {
    if f < |s.mem| then s.(mem := s.mem[f := Put(s.mem[f], i, v)]) else s
  }

  function WritePte(s: Pm, e: nat, d: nat, t: nat, v: Entry): Pm {
    Write(s, Pde(s, e, d).ppn, t, v)
  }

  function WritePde(s: Pm, e: nat, d: nat, v: Entry): Pm {
    if e in s.dirs then Write(s, s.dirs[e], d, v) else s
  }

  /** pp_ref++ on a 16-bit count. */
  function IncRef(s: Pm, p: nat): Pm {
    s.(refs := Put(s.refs, p, (Count(s, p) + 1) % REF_LIMIT))
  }

  function PageFree(s: Pm, p: nat): Pm {
    if p < |s.mem| then s.(free := [p] + s.free) else s
  }

  /** page_decref: the 16-bit count wraps below 0. */
  function DecRef(s: Pm, p: nat): Pm {
    var s' := s.(refs := Put(s.refs, p, (Count(s, p) + REF_LIMIT - 1) % REF_LIMIT));
    if Count(s', p) == 0 then PageFree(s', p) else s'
  }

  function ZeroFrame(): (f: Frame)
    ensures |f| == NENTRIES && forall i :: 0 <= i < NENTRIES ==> f[i] == ZERO
  {
    seq(NENTRIES, _ => ZERO)
  }

  /** page_alloc(ALLOC_ZERO), when the list is not empty: unlink the first page and clear it. */
  function PageAlloc(s: Pm): Pm
    requires s.free != []
  {
    s.(free := s.free[1..], mem := Put(s.mem, s.free[0], ZeroFrame()), refs := Put(s.refs, s.free[0], 0))
  }

  // ----- page_remove, pgdir_walk, page_insert, page_lookup -----

  function PageRemove(s: Pm, e: nat, d: nat, t: nat): Pm {
    if Present(Pte(s, e, d, t)) then
      WritePte(DecRef(s, Pte(s, e, d, t).ppn), e, d, t, ZERO)
    else s
  }

  /** pgdir_walk with create: the state after it and whether it produced a table. */
  function WalkCreate(s: Pm, e: nat, d: nat): (Pm, bool) {
    if Present(Pde(s, e, d)) then (s, true)
    else if s.free == [] then (s, false)
    else (AddTable(PageAlloc(s), e, d, s.free[0]), true)
  }

  function AddTable(s: Pm, e: nat, d: nat, p: nat): Pm {
    WritePde(IncRef(s, p), e, d, Entry(p, {PTE_P, PTE_W}))
  }

  function WidenPde(s: Pm, e: nat, d: nat, perm: Perm): Pm {
    WritePde(s, e, d, Pde(s, e, d).(perm := Pde(s, e, d).perm + perm + {PTE_P}))
  }

  /** The tail of page_insert, once the table exists and the directory entry is widened. */
  function SetMapping(s: Pm, e: nat, d: nat, t: nat, pp: nat, perm: Perm): Pm {
    var s1 := if pp == Pte(s, e, d, t).ppn then s else PageRemove(IncRef(s, pp), e, d, t);
    WritePte(s1, e, d, t, Entry(pp, perm + {PTE_P}))
  }

  function PageInsert(s: Pm, e: nat, d: nat, t: nat, pp: nat, perm: Perm): (Pm, bool) {
    var (w, ok) := WalkCreate(s, e, d);
    if ok then (SetMapping(WidenPde(w, e, d, perm), e, d, t, pp, perm), true) else (w, false)
  }

  /** page_lookup: the mapped page, or -1. */
  function PageLookup(s: Pm, e: nat, d: nat, t: nat): int {
    if Present(Pte(s, e, d, t)) then Pte(s, e, d, t).ppn else -1
  }

  // ----- writing one table word -----

  /** Writing table entry t of table (e, d) changes that entry and nothing else. */
  lemma WritePteEffect(s: Pm, e: nat, d: nat, t: nat, v: Entry)
    requires Shape(s) && Owned(s) && Exclusive(s)
    requires d < UPDES && t < NENTRIES && Present(Pde(s, e, d))
    ensures Shape(WritePte(s, e, d, t, v))
    ensures forall e': nat, d': nat :: Pde(WritePte(s, e, d, t, v), e', d') == Pde(s, e', d')
    ensures forall e': nat, d': nat, t': nat :: d' < UPDES ==>
              Pte(WritePte(s, e, d, t, v), e', d', t') == if (e', d', t') == (e, d, t) then v else Pte(s, e', d', t')
  {
    assert Target(s, PdeRef(e, d)) == Pde(s, e, d).ppn;
    var s' := WritePte(s, e, d, t, v);
    forall e': nat, d': nat
      ensures Pde(s', e', d') == Pde(s, e', d')
    {
      if e' in s.dirs {
        assert Target(s, DirRef(e')) == s.dirs[e'];
      }
    }
    forall e': nat, d': nat, t': nat | d' < UPDES
      ensures Pte(s', e', d', t') == if (e', d', t') == (e, d, t) then v else Pte(s, e', d', t')
    {
      if Present(Pde(s, e', d')) {
        assert Target(s, PdeRef(e', d')) == Pde(s, e', d').ppn;
      }
    }
  }

  /** Rewriting a directory entry without changing what table it names. */
  lemma WritePdeEffect(s: Pm, e: nat, d: nat, v: Entry)
    requires Shape(s) && Owned(s) && Exclusive(s)
    requires e in s.dirs && d < UPDES
    ensures Shape(WritePde(s, e, d, v))
    ensures forall e': nat, d': nat ::
              Pde(WritePde(s, e, d, v), e', d') == if (e', d') == (e, d) then v else Pde(s, e', d')
    ensures forall e': nat, d': nat, t': nat :: d' < UPDES && (e', d') != (e, d) ==>
              Pte(WritePde(s, e, d, v), e', d', t') == Pte(s, e', d', t')
    ensures forall t': nat :: Present(v) && Target(s, DirRef(e)) != v.ppn ==>
              Pte(WritePde(s, e, d, v), e, d, t') == At(s.mem, v.ppn, t')
  {
    var s' := WritePde(s, e, d, v);
    assert Target(s, DirRef(e)) == s.dirs[e];
    forall e': nat, d': nat
      ensures Pde(s', e', d') == if (e', d') == (e, d) then v else Pde(s, e', d')
    {
      if e' in s.dirs {
        assert Target(s, DirRef(e')) == s.dirs[e'];
      }
    }
    forall e': nat, d': nat, t': nat | d' < UPDES && (e', d') != (e, d)
      ensures Pte(s', e', d', t') == Pte(s, e', d', t')
    {
      if Present(Pde(s, e', d')) {
        assert Target(s, PdeRef(e', d')) == Pde(s, e', d').ppn;
      }
    }
  }

  // ----- each building block keeps the invariant -----

  /** Same directories, and the same entries below UTOP. */
  ghost predicate SameTables(s: Pm, s': Pm) {
    && s'.dirs == s.dirs && s'.managed == s.managed
    && (forall e: nat, d: nat :: d < UPDES ==> Pde(s', e, d) == Pde(s, e, d))
    && (forall e: nat, d: nat, t: nat :: d < UPDES ==> Pte(s', e, d, t) == Pte(s, e, d, t))
  }

  lemma SameTablesKeep(s: Pm, s': Pm)
    requires SameTables(s, s')
    ensures forall r :: Target(s', r) == Target(s, r)
    ensures forall p :: Refs(s', p) == Refs(s, p)
    ensures Owned(s) ==> Owned(s')
    ensures Exclusive(s) ==> Exclusive(s')
    ensures ZeroFilled(s) ==> ZeroFilled(s')
    ensures RightsNested(s) ==> RightsNested(s')
  {
    assert forall r :: Target(s', r) == Target(s, r);
    forall p: nat
      ensures Refs(s', p) == Refs(s, p)
    {
      SameRefs(s, s', p);
    }
  }

  /** A page whose count is 0 is named by nothing. */
  lemma Unreferenced(s: Pm, p: nat)
    requires Shape(s) && Counted(s) && p in s.managed && s.refs[p] == 0
    ensures forall r :: Target(s, r) != p
  {
    RefsMember(s, p);
  }

  /** Overwriting a page that nothing names leaves every table as it was. */
  lemma OverwriteUnreferenced(s: Pm, s': Pm, p: nat)
    requires Shape(s) && forall r :: Target(s, r) != p
    requires s'.dirs == s.dirs && s'.managed == s.managed && |s'.mem| == |s.mem|
    requires forall f :: 0 <= f < |s.mem| && f != p ==> s'.mem[f] == s.mem[f]
    ensures SameTables(s, s')
  {
    forall e: nat, d: nat | d < UPDES
      ensures Pde(s', e, d) == Pde(s, e, d)
    {
      assert Target(s, DirRef(e)) != p;
    }
    forall e: nat, d: nat, t: nat | d < UPDES
      ensures Pte(s', e, d, t) == Pte(s, e, d, t)
    {
      assert Target(s, PdeRef(e, d)) != p;
    }
  }

  lemma AllocInv(s: Pm, limbo: set<nat>)
    requires Inv(s, limbo) && s.free != []
    ensures s.free[0] in s.managed && s.free[0] !in limbo
    ensures Inv(PageAlloc(s), limbo + {s.free[0]})
    ensures SameTables(s, PageAlloc(s))
    ensures PageAlloc(s).mem[s.free[0]] == ZeroFrame()
  {
    var p := s.free[0];
    assert p in s.free;
    Unreferenced(s, p);
    var s' := PageAlloc(s);
    OverwriteUnreferenced(s, s', p);
    SameTablesKeep(s, s');
    assert s.free == [p] + s.free[1..];
    assert s'.refs == s.refs;
  }

  lemma PageFreeSame(s: Pm, p: nat)
    ensures SameTables(s, PageFree(s, p))
  {
  }

  lemma FreeInv(s: Pm, limbo: set<nat>, p: nat)
    requires Inv(s, limbo) && p in limbo
    ensures Inv(PageFree(s, p), limbo - {p}) && SameTables(s, PageFree(s, p))
  {
    hide Refs, Target, SameTables, Owned, Exclusive, ZeroFilled, RightsNested;
    PageFreeSame(s, p);
    SameTablesKeep(s, PageFree(s, p));
  }

  /** Target of every reference is unchanged, except that x now names p. */
  ghost predicate Redirected(s: Pm, s': Pm, x: Ref, p: int) {
    forall r :: Target(s', r) == if r == x then p else Target(s, r)
  }

  /** Counts after x is redirected from old page q (or none) to page p (or none). */
  lemma RedirectCounts(s: Pm, s': Pm, x: Ref, p: int, n: nat)
    requires Redirected(s, s', x, p)
    ensures |Refs(s', n)| == |Refs(s, n)| + (if n == p then 1 else 0) - (if n == Target(s, x) then 1 else 0)
  {
    if p == Target(s, x) || (n != p && n != Target(s, x)) {
      SameRefs(s, s', n);
    } else if n == p {
      OneMoreRef(s, s', n, x);
    } else {
      OneMoreRef(s', s, n, x);
    }
  }

  lemma RedirectKeeps(s: Pm, s': Pm, x: Ref, p: int)
    requires Owned(s) && Exclusive(s) && s'.managed == s.managed && Redirected(s, s', x, p)
    requires p != -1 ==> p in s.managed
    requires forall r :: p != -1 && r != x && Target(s, r) == p ==> r.PteRef? && x.PteRef?
    ensures Owned(s') && Exclusive(s')
  {
  }

  /** Counts stay exact when the counters move by one with the redirected reference. */
  lemma RedirectCounted(s: Pm, s': Pm, x: Ref, p: int)
    requires Shape(s) && Shape(s') && Counted(s) && s'.managed == s.managed && Redirected(s, s', x, p)
    requires forall n :: n in s.managed ==>
      s'.refs[n] == s.refs[n] + (if n == p then 1 else 0) - (if n == Target(s, x) then 1 else 0) < REF_LIMIT
    ensures Counted(s')
  {
    forall n | n in s.managed
      ensures s'.refs[n] == |Refs(s', n)| < REF_LIMIT
    {
      RedirectCounts(s, s', x, p, n);
    }
  }

  /** Only directory entry (e, d) differs, and no table entry does. */
  ghost predicate PdeChanged(s: Pm, s': Pm, e: nat, d: nat, v: Entry) {
    && s'.dirs == s.dirs && s'.managed == s.managed
    && (forall e': nat, d': nat :: d' < UPDES ==> Pde(s', e', d') == if (e', d') == (e, d) then v else Pde(s, e', d'))
    && (forall e': nat, d': nat, t: nat :: d' < UPDES ==> Pte(s', e', d', t) == Pte(s, e', d', t))
  }

  /** Only table entry (e, d, t) differs. */
  ghost predicate PteChanged(s: Pm, s': Pm, e: nat, d: nat, t: nat, v: Entry) {
    && s'.dirs == s.dirs && s'.managed == s.managed
    && (forall e': nat, d': nat :: d' < UPDES ==> Pde(s', e', d') == Pde(s, e', d'))
    && (forall e': nat, d': nat, t': nat :: d' < UPDES ==>
          Pte(s', e', d', t') == if (e', d', t') == (e, d, t) then v else Pte(s, e', d', t'))
  }

  lemma PdeChangedRedirects(s: Pm, s': Pm, e: nat, d: nat, v: Entry)
    requires PdeChanged(s, s', e, d, v) && d < UPDES
    ensures Redirected(s, s', PdeRef(e, d), if Present(v) then v.ppn else -1)
  {
    forall r
      ensures Target(s', r) == if r == PdeRef(e, d) then (if Present(v) then v.ppn else -1) else Target(s, r)
    {
      match r
      case DirRef(_) =>
      case PdeRef(e', d') =>
        assert d' < UPDES ==> Pde(s', e', d') == if (e', d') == (e, d) then v else Pde(s, e', d');
      case PteRef(e', d', t') =>
        assert d' < UPDES ==> Pte(s', e', d', t') == Pte(s, e', d', t');
    }
  }

  lemma PteChangedRedirects(s: Pm, s': Pm, e: nat, d: nat, t: nat, v: Entry)
    requires PteChanged(s, s', e, d, t, v) && d < UPDES && t < NENTRIES
    ensures Redirected(s, s', PteRef(e, d, t), if Present(v) then v.ppn else -1)
  {
    forall r
      ensures Target(s', r) == if r == PteRef(e, d, t) then (if Present(v) then v.ppn else -1) else Target(s, r)
    {
      match r
      case DirRef(_) =>
      case PdeRef(e', d') =>
        assert d' < UPDES ==> Pde(s', e', d') == Pde(s, e', d');
      case PteRef(e', d', t') =>
        assert d' < UPDES ==> Pte(s', e', d', t') == if (e', d', t') == (e, d, t) then v else Pte(s, e', d', t');
    }
  }

  lemma IncRefCount(s: Pm, p: nat)
    requires Shape(s) && p < |s.mem| && s.refs[p] < REF_LIMIT - 1
    ensures IncRef(s, p) == s.(refs := s.refs[p := s.refs[p] + 1])
    ensures SameTables(s, IncRef(s, p))
  {
  }

  /** What pgdir_walk's new directory entry changes. */
  lemma AddTableEffect(s: Pm, e: nat, d: nat, p: nat)
    requires Shape(s) && Owned(s) && Exclusive(s)
    requires p in s.managed && s.refs[p] == 0 && s.mem[p] == ZeroFrame() && forall r :: Target(s, r) != p
    requires e in s.dirs && d < UPDES && !Present(Pde(s, e, d))
    ensures Shape(AddTable(s, e, d, p))
    ensures AddTable(s, e, d, p).refs == s.refs[p := 1] && AddTable(s, e, d, p).free == s.free
    ensures PdeChanged(s, AddTable(s, e, d, p), e, d, Entry(p, {PTE_P, PTE_W}))
  {
    IncRefCount(s, p);
    var s1 := IncRef(s, p);
    var v := Entry(p, {PTE_P, PTE_W});
    assert Owned(s1) && Exclusive(s1) && Target(s1, DirRef(e)) != p by {
      SameTablesKeep(s, s1);
      assert Target(s, DirRef(e)) != p;
    }
    WritePdeEffect(s1, e, d, v);
    hide Owned, Exclusive;
  }

  /** pgdir_walk gives directory entry d of e a fresh, cleared table p. */
  lemma AddTableInv(s: Pm, limbo: set<nat>, e: nat, d: nat, p: nat)
    requires Inv(s, limbo) && p in limbo && s.mem[p] == ZeroFrame()
    requires e in s.dirs && d < UPDES && !Present(Pde(s, e, d))
    ensures Inv(AddTable(s, e, d, p), limbo - {p})
  {
    hide Refs;
    var s' := AddTable(s, e, d, p);
    Unreferenced(s, p);
    AddTableEffect(s, e, d, p);    PdeChangedRedirects(s, s', e, d, Entry(p, {PTE_P, PTE_W}));
    RedirectKeeps(s, s', PdeRef(e, d), p);
    RedirectCounted(s, s', PdeRef(e, d), p);
  }

  lemma DirNotTable(s: Pm, e: nat, d: nat)
    requires Shape(s) && Owned(s) && Exclusive(s) && d < UPDES && Present(Pde(s, e, d))
    ensures e in s.dirs && Target(s, DirRef(e)) != Pde(s, e, d).ppn
  {
    assert Target(s, PdeRef(e, d)) == Pde(s, e, d).ppn;
    assert Target(s, DirRef(e)) == s.dirs[e];
  }

  /** Rewriting a directory entry without changing what table it names. */
  lemma WritePdeChanges(s: Pm, e: nat, d: nat, v: Entry)
    requires Shape(s) && Owned(s) && Exclusive(s) && d < UPDES && Present(Pde(s, e, d))
    requires Present(v) && v.ppn == Pde(s, e, d).ppn
    ensures Shape(WritePde(s, e, d, v)) && PdeChanged(s, WritePde(s, e, d, v), e, d, v)
  {
    hide Owned, Exclusive, Target, Present;
    DirNotTable(s, e, d);
    WritePdeEffect(s, e, d, v);
  }

  lemma WidenPdeEffect(s: Pm, e: nat, d: nat, perm: Perm)
    requires Shape(s) && Owned(s) && Exclusive(s) && d < UPDES && Present(Pde(s, e, d))
    ensures var s' := WidenPde(s, e, d, perm);
            && Shape(s') && s'.refs == s.refs && s'.free == s.free
            && PdeChanged(s, s', e, d, Pde(s, e, d).(perm := Pde(s, e, d).perm + perm + {PTE_P}))
  {
    hide Owned, Exclusive, PdeChanged;
    var x := Pde(s, e, d);
    WritePdeChanges(s, e, d, x.(perm := x.perm + perm + {PTE_P}));
  }

  lemma WidenKeepsRights(s: Pm, s': Pm, e: nat, d: nat, perm: Perm)
    requires PdeChanged(s, s', e, d, Pde(s, e, d).(perm := Pde(s, e, d).perm + perm + {PTE_P}))
    requires ZeroFilled(s) && RightsNested(s) && d < UPDES
    ensures ZeroFilled(s') && RightsNested(s')
  {
  }

  /** page_insert widens the directory entry; no reference moves. */
  lemma WidenPdeInv(s: Pm, limbo: set<nat>, e: nat, d: nat, perm: Perm)
    requires Inv(s, limbo) && d < UPDES && Present(Pde(s, e, d))
    ensures var s' := WidenPde(s, e, d, perm);
            && Inv(s', limbo)
            && PdeChanged(s, s', e, d, Pde(s, e, d).(perm := Pde(s, e, d).perm + perm + {PTE_P}))
            && s'.refs == s.refs && s'.free == s.free
  {
    hide Refs;
    var x := Pde(s, e, d);
    var v := x.(perm := x.perm + perm + {PTE_P});
    var s' := WidenPde(s, e, d, perm);
    WidenPdeEffect(s, e, d, perm);
    PdeChangedRedirects(s, s', e, d, v);
    WidenKeepsRights(s, s', e, d, perm);
    assert Target(s, PdeRef(e, d)) == x.ppn;
    hide ZeroFilled, RightsNested, PdeChanged;
    RedirectKeeps(s, s', PdeRef(e, d), x.ppn);
    RedirectCounted(s, s', PdeRef(e, d), x.ppn);
  }

  /** The count after page_decref, and the page's move to the free list at 0. */
  lemma DecRefEffect(s: Pm, p: nat)
    requires Shape(s) && p in s.managed && 0 < s.refs[p] < REF_LIMIT
    ensures var s' := DecRef(s, p);
            && s'.refs == s.refs[p := s.refs[p] - 1]
            && s'.mem == s.mem && s'.dirs == s.dirs && s'.managed == s.managed
            && s'.free == if s.refs[p] == 1 then [p] + s.free else s.free
  {
  }

  /** A referenced page has a positive count. */
  lemma Referenced(s: Pm, r: Ref)
    requires Shape(s) && Owned(s) && Counted(s) && Target(s, r) != -1
    ensures Target(s, r) in s.managed && 0 < s.refs[Target(s, r)] < REF_LIMIT
  {
    RefsMember(s, Target(s, r));
  }

  lemma DecRefFreeExact(s: Pm, s': Pm, limbo: set<nat>, p: nat)
    requires Shape(s) && FreeExact(s, limbo) && p in s.managed && 0 < s.refs[p]
    requires Shape(s') && s'.managed == s.managed && s'.refs == s.refs[p := s.refs[p] - 1]
    requires s'.free == if s.refs[p] == 1 then [p] + s.free else s.free
    ensures FreeExact(s', limbo)
  {
    assert p !in s.free && p !in limbo;
  }

  lemma WritePteChanges(s: Pm, s1: Pm, e: nat, d: nat, t: nat, v: Entry)
    requires Shape(s) && Owned(s) && Exclusive(s) && Shape(s1) && SameTables(s, s1)
    requires d < UPDES && t < NENTRIES && Present(Pde(s, e, d))
    ensures Shape(WritePte(s1, e, d, t, v))
    ensures PteChanged(s, WritePte(s1, e, d, t, v), e, d, t, v)
  {
    hide Owned, Exclusive, Target;
    SameTablesKeep(s, s1);
    WritePteEffect(s1, e, d, t, v);
  }

  lemma RemoveEffect(s: Pm, e: nat, d: nat, t: nat)
    requires Shape(s) && Owned(s) && Exclusive(s) && Counted(s)
    requires d < UPDES && t < NENTRIES && Present(Pte(s, e, d, t))
    ensures var s' := PageRemove(s, e, d, t); var q := Pte(s, e, d, t).ppn;
            && Target(s, PteRef(e, d, t)) == q && q in s.managed && 0 < s.refs[q] < REF_LIMIT
            && Shape(s') && PteChanged(s, s', e, d, t, ZERO)
            && s'.refs == s.refs[q := s.refs[q] - 1]
            && s'.free == if s.refs[q] == 1 then [q] + s.free else s.free
  {
    hide Owned, Exclusive, Counted, PteChanged;
    var q := Pte(s, e, d, t).ppn;
    Referenced(s, PteRef(e, d, t));
    DecRefEffect(s, q);
    WritePteChanges(s, DecRef(s, q), e, d, t, ZERO);
  }

  /** page_remove keeps the ledger and clears exactly the named entry. */
  lemma RemoveInv(s: Pm, limbo: set<nat>, e: nat, d: nat, t: nat)
    requires Inv(s, limbo) && d < UPDES && t < NENTRIES
    ensures Inv(PageRemove(s, e, d, t), limbo)
    ensures PteChanged(s, PageRemove(s, e, d, t), e, d, t, ZERO)
  {
    hide Refs;
    if Present(Pte(s, e, d, t)) {
      var s' := PageRemove(s, e, d, t);
      RemoveEffect(s, e, d, t);
      PteChangedRedirects(s, s', e, d, t, ZERO);
      RedirectKeeps(s, s', PteRef(e, d, t), -1);
      RedirectCounted(s, s', PteRef(e, d, t), -1);
      DecRefFreeExact(s, s', limbo, Pte(s, e, d, t).ppn);
    }
  }

  /** Page pp may be given another user mapping: it is freshly allocated, or already a user page. */
  ghost predicate Mappable(s: Pm, limbo: set<nat>, pp: nat)
    requires Shape(s)
  {
    && pp in s.managed && s.refs[pp] < REF_LIMIT - 1
    && (pp in limbo || s.refs[pp] > 0)
    && (forall r :: Target(s, r) == pp ==> r.PteRef?)
  }

  lemma AddMappingInv(s: Pm, limbo: set<nat>, e: nat, d: nat, t: nat, pp: nat, perm: Perm)
    requires Inv(s, limbo) && d < UPDES && t < NENTRIES && Present(Pde(s, e, d)) && perm + {PTE_P} <= Pde(s, e, d).perm
    requires !Present(Pte(s, e, d, t)) && Mappable(s, limbo, pp)
    ensures var s' := WritePte(IncRef(s, pp), e, d, t, Entry(pp, perm + {PTE_P}));
            Inv(s', limbo - {pp}) && PteChanged(s, s', e, d, t, Entry(pp, perm + {PTE_P}))
  {
    hide Refs;
    var v := Entry(pp, perm + {PTE_P});
    IncRefCount(s, pp);
    var s1 := IncRef(s, pp);
    var s' := WritePte(s1, e, d, t, v);
    assert PteChanged(s, s', e, d, t, v) && Shape(s') by {
      SameTablesKeep(s, s1);
      WritePteEffect(s1, e, d, t, v);
    }
    PteChangedRedirects(s, s', e, d, t, v);
    RedirectKeeps(s, s', PteRef(e, d, t), pp);
    RedirectCounted(s, s', PteRef(e, d, t), pp);
  }

  /** The same-page fast path of page_insert: no count moves, and none should. */
  lemma SamePageInv(s: Pm, limbo: set<nat>, e: nat, d: nat, t: nat, perm: Perm)
    requires Inv(s, limbo) && d < UPDES && t < NENTRIES && Present(Pde(s, e, d)) && perm + {PTE_P} <= Pde(s, e, d).perm
    requires Present(Pte(s, e, d, t))
    ensures var v := Entry(Pte(s, e, d, t).ppn, perm + {PTE_P}); var s' := WritePte(s, e, d, t, v);
            Inv(s', limbo) && PteChanged(s, s', e, d, t, v)
  {
    hide Refs;
    var pp := Pte(s, e, d, t).ppn;
    var v := Entry(pp, perm + {PTE_P});
    var s' := WritePte(s, e, d, t, v);
    assert Target(s, PteRef(e, d, t)) == pp;
    WritePteEffect(s, e, d, t, v);
    assert PteChanged(s, s', e, d, t, v);
    PteChangedRedirects(s, s', e, d, t, v);
    RedirectKeeps(s, s', PteRef(e, d, t), pp);
    RedirectCounted(s, s', PteRef(e, d, t), pp);
  }

  /** page_insert counts the new page before it removes the old one; the order does not matter. */
  lemma IncRemoveCommute(s: Pm, limbo: set<nat>, e: nat, d: nat, t: nat, pp: nat)
    requires Inv(s, limbo) && d < UPDES && t < NENTRIES && Present(Pte(s, e, d, t))
    requires pp in s.managed && s.refs[pp] < REF_LIMIT - 1 && pp != Pte(s, e, d, t).ppn
    ensures PageRemove(IncRef(s, pp), e, d, t) == IncRef(PageRemove(s, e, d, t), pp)
  {
    hide Refs, Target, Exclusive, ZeroFilled, RightsNested, Counted, FreeExact;
    var q := Pte(s, e, d, t).ppn;
    TargetPte(s, e, d, t);
    Referenced(s, PteRef(e, d, t));
    assert Pte(IncRef(s, pp), e, d, t) == Pte(s, e, d, t);
    assert s.refs[pp := s.refs[pp] + 1][q := s.refs[q] - 1] == s.refs[q := s.refs[q] - 1][pp := s.refs[pp] + 1];
  }

  lemma TargetPte(s: Pm, e: nat, d: nat, t: nat)
    requires d < UPDES && t < NENTRIES && Present(Pte(s, e, d, t))
    ensures Target(s, PteRef(e, d, t)) == Pte(s, e, d, t).ppn
  {
  }

  lemma SetMappingInv(s: Pm, limbo: set<nat>, e: nat, d: nat, t: nat, pp: nat, perm: Perm)
    requires Inv(s, limbo) && d < UPDES && t < NENTRIES && Present(Pde(s, e, d)) && perm + {PTE_P} <= Pde(s, e, d).perm
    requires Mappable(s, limbo, pp)
    ensures Inv(SetMapping(s, e, d, t, pp, perm), limbo - {pp})
    ensures PteChanged(s, SetMapping(s, e, d, t, pp, perm), e, d, t, Entry(pp, perm + {PTE_P}))
  {
    hide Refs;
    if pp == Pte(s, e, d, t).ppn {
      assert Present(Pte(s, e, d, t));
      assert pp !in limbo by {
        TargetPte(s, e, d, t);
        Referenced(s, PteRef(e, d, t));
      }
      SamePageInv(s, limbo, e, d, t, perm);
      assert limbo - {pp} == limbo;
    } else if Present(Pte(s, e, d, t)) {
      ReplaceMappingInv(s, limbo, e, d, t, pp, perm);
    } else {
      assert PageRemove(IncRef(s, pp), e, d, t) == IncRef(s, pp);
      AddMappingInv(s, limbo, e, d, t, pp, perm);
    }
  }

  lemma ReplaceMappingInv(s: Pm, limbo: set<nat>, e: nat, d: nat, t: nat, pp: nat, perm: Perm)
    requires Inv(s, limbo) && d < UPDES && t < NENTRIES && Present(Pde(s, e, d)) && perm + {PTE_P} <= Pde(s, e, d).perm
    requires Mappable(s, limbo, pp) && Present(Pte(s, e, d, t)) && pp != Pte(s, e, d, t).ppn
    ensures Inv(SetMapping(s, e, d, t, pp, perm), limbo - {pp})
    ensures PteChanged(s, SetMapping(s, e, d, t, pp, perm), e, d, t, Entry(pp, perm + {PTE_P}))
  {
    hide Refs, Owned, Exclusive, ZeroFilled, RightsNested, Counted, FreeExact;
    var s1 := PageRemove(s, e, d, t);
    IncRemoveCommute(s, limbo, e, d, t, pp);
    RemoveInv(s, limbo, e, d, t);
    RemoveEffect(s, e, d, t);
    PteChangedRedirects(s, s1, e, d, t, ZERO);
    AddMappingInv(s1, limbo, e, d, t, pp, perm);
  }

  lemma WalkCreateInv(s: Pm, limbo: set<nat>, e: nat, d: nat)
    requires Inv(s, limbo) && e in s.dirs && d < UPDES
    ensures WalkCreate(s, e, d).1 <==> Present(Pde(s, e, d)) || s.free != []
    ensures !WalkCreate(s, e, d).1 ==> WalkCreate(s, e, d).0 == s
    ensures var w := WalkCreate(s, e, d).0;
            && Inv(w, limbo) && w.dirs == s.dirs && w.managed == s.managed
            && (WalkCreate(s, e, d).1 ==> Present(Pde(w, e, d)))
            && (forall e': nat, d': nat, t: nat :: d' < UPDES ==> Pte(w, e', d', t) == Pte(s, e', d', t))
            && (forall pp :: Mappable(s, limbo, pp) ==> Mappable(w, limbo, pp))
  {
    if !Present(Pde(s, e, d)) && s.free != [] {
      NewTableInv(s, limbo, e, d);
    }
  }

  lemma NewTableInv(s: Pm, limbo: set<nat>, e: nat, d: nat)
    requires Inv(s, limbo) && e in s.dirs && d < UPDES && !Present(Pde(s, e, d)) && s.free != []
    ensures var w := AddTable(PageAlloc(s), e, d, s.free[0]);
            && Inv(w, limbo) && w.dirs == s.dirs && w.managed == s.managed
            && PdeChanged(s, w, e, d, Entry(s.free[0], {PTE_P, PTE_W}))
            && (forall pp :: Mappable(s, limbo, pp) ==> Mappable(w, limbo, pp))
  {
    hide Refs, Owned, Exclusive, ZeroFilled, RightsNested, Counted;
    var p := s.free[0];
    var s1 := PageAlloc(s);
    AllocInv(s, limbo);
    assert limbo + {p} - {p} == limbo;
    Unreferenced(s1, p);
    AddTableEffect(s1, e, d, p);
    AddTableInv(s1, limbo + {p}, e, d, p);
    var w := AddTable(s1, e, d, p);
    assert p in s.free;
    PdeChangedRedirects(s, w, e, d, Entry(p, {PTE_P, PTE_W}));
  }

  /**
    page_insert: fails exactly when a table is needed and no page is free, and then changes
    nothing; otherwise the flat map changes at the named page only, and the ledger stays exact.
  */
  lemma PageInsertInv(s: Pm, limbo: set<nat>, e: nat, d: nat, t: nat, pp: nat, perm: Perm)
    requires Inv(s, limbo) && e in s.dirs && d < UPDES && t < NENTRIES && Mappable(s, limbo, pp)
    ensures var (s', ok) := PageInsert(s, e, d, t, pp, perm);
            && (ok <==> Present(Pde(s, e, d)) || s.free != [])
            && (!ok ==> s' == s)
            && (ok ==> Inv(s', limbo - {pp}))
            && (ok ==> FlatUpdate(s, s', e, d, t, Entry(pp, perm + {PTE_P})))
  {
    hide Refs, Owned, Exclusive, ZeroFilled, RightsNested, Counted, FreeExact;
    WalkCreateInv(s, limbo, e, d);
    var (w, ok) := WalkCreate(s, e, d);
    if ok {
      WidenPdeInv(w, limbo, e, d, perm);
      var w1 := WidenPde(w, e, d, perm);
      PdeChangedRedirects(w, w1, e, d, Pde(w, e, d).(perm := Pde(w, e, d).perm + perm + {PTE_P}));
      SetMappingInv(w1, limbo, e, d, t, pp, perm);
    }
  }

  /** Seen as a flat map from (environment, virtual page) to entries, only one page changes. */
  ghost predicate FlatUpdate(s: Pm, s': Pm, e: nat, d: nat, t: nat, v: Entry) {
    && s'.dirs == s.dirs && s'.managed == s.managed
    && (forall e': nat, d': nat, t': nat :: d' < UPDES ==>
          Pte(s', e', d', t') == if (e', d', t') == (e, d, t) then v else Pte(s, e', d', t'))
  }

  // ----- env_setup_vm -----

  /** kern_pgdir as a template: nothing mapped below UTOP. */
  ghost predicate KernelTemplate(k: Frame) {
    |k| == NENTRIES && forall d :: 0 <= d < UPDES ==> k[d] == ZERO
  }

  /** env_setup_vm: a directory copied from the template, with itself at UVPT. */
  function SetupVm(s: Pm, e: nat, k: Frame): (Pm, bool) {
    if s.free == [] then (s, false)
    else
      var p := s.free[0];
      var s1 := IncRef(PageAlloc(s), p);
      (s1.(mem := Put(s1.mem, p, Put(k, PDX(UVPT), Entry(p, {PTE_P, PTE_U}))), dirs := s1.dirs[e := p]), true)
  }

  lemma SetupVmEffect(s: Pm, s1: Pm, s': Pm, e: nat, p: nat, f: Frame)
    requires Shape(s) && e !in s.dirs && p in s.managed && (forall r :: Target(s, r) != p)
    requires s1 == s.(mem := s.mem[p := f], refs := s1.refs) && s' == s1.(dirs := s.dirs[e := p])
    requires |f| == NENTRIES && forall d :: 0 <= d < UPDES ==> f[d] == ZERO
    ensures forall e': nat, d: nat :: d < UPDES ==> Pde(s', e', d) == Pde(s, e', d)
    ensures forall e': nat, d: nat, t: nat :: d < UPDES ==> Pte(s', e', d, t) == Pte(s, e', d, t)
    ensures Redirected(s, s', DirRef(e), p)
  {
    OverwriteUnreferenced(s, s1, p);
    assert forall e': nat, d: nat :: d < UPDES ==> Pde(s1, e', d) == Pde(s, e', d);
    forall e': nat, d: nat | d < UPDES
      ensures Pde(s', e', d) == Pde(s, e', d)
    {
      assert Pde(s1, e', d) == Pde(s, e', d);
    }
    forall e': nat, d: nat, t: nat | d < UPDES
      ensures Pte(s', e', d, t) == Pte(s, e', d, t)
    {
      assert Pde(s1, e', d) == Pde(s, e', d);
      assert Pte(s1, e', d, t) == Pte(s, e', d, t);
    }
    forall r
      ensures Target(s', r) == if r == DirRef(e) then p else Target(s, r)
    {
      match r
      case DirRef(_) =>
      case PdeRef(e', d) => assert d < UPDES ==> Pde(s', e', d) == Pde(s, e', d);
      case PteRef(e', d, t) => assert d < UPDES ==> Pte(s', e', d, t) == Pte(s, e', d, t);
    }
  }

  /** env_setup_vm adds one counted directory, maps nothing, and fails only when no page is free. */
  lemma SetupVmInv(s: Pm, e: nat, k: Frame)
    requires Inv(s, {}) && e !in s.dirs && KernelTemplate(k)
    ensures var (s', ok) := SetupVm(s, e, k);
            && (ok <==> s.free != []) && (!ok ==> s' == s) && Inv(s', {}) && s'.managed == s.managed
            && (ok ==> s'.dirs == s.dirs[e := s.free[0]])
            && (forall e': nat, d: nat, t: nat :: d < UPDES ==> Pte(s', e', d, t) == Pte(s, e', d, t))
  {
    hide Refs, Owned, Exclusive;
    if s.free != [] {
      var p := s.free[0];
      AllocInv(s, {});
      var s0 := PageAlloc(s);
      Unreferenced(s0, p);
      var s' := SetupVm(s, e, k).0;
      var f := Put(k, PDX(UVPT), Entry(p, {PTE_P, PTE_U}));
      assert PDX(UVPT) == 957;
      SetupVmEffect(s0, s'.(dirs := s.dirs), s', e, p, f);
      RedirectKeeps(s0, s', DirRef(e), p);
      assert s'.refs == s0.refs[p := 1] && Target(s0, DirRef(e)) == -1 && Shape(s');
      RedirectCounted(s0, s', DirRef(e), p);
    }
  }

  // ----- env_free -----

  /** Clear the first n entries of table (e, d). */
  function FreePtes(s: Pm, e: nat, d: nat, n: nat): Pm {
    if n == 0 then s else PageRemove(FreePtes(s, e, d, n - 1), e, d, n - 1)
  }

  function DropTable(s: Pm, e: nat, d: nat): Pm {
    DecRef(WritePde(s, e, d, ZERO), Pde(s, e, d).ppn)
  }

  function FreeTable(s: Pm, e: nat, d: nat): Pm {
    if Present(Pde(s, e, d)) then DropTable(FreePtes(s, e, d, NENTRIES), e, d) else s
  }

  function FreeTables(s: Pm, e: nat, n: nat): Pm {
    if n == 0 then s else FreeTable(FreeTables(s, e, n - 1), e, n - 1)
  }

  function DropDir(s: Pm, e: nat): Pm {
    if e in s.dirs then DecRef(s.(dirs := s.dirs - {e}), s.dirs[e]) else s
  }

  /** The memory half of env_free. */
  function FreeSpace(s: Pm, e: nat): Pm {
    DropDir(FreeTables(s, e, UPDES), e)
  }

  /** Nothing of any other environment is touched. */
  ghost predicate OthersSame(s: Pm, s': Pm, e: nat) {
    && s'.managed == s.managed && s'.dirs - {e} == s.dirs - {e}
    && (forall e': nat, d: nat :: d < UPDES && e' != e ==> Pde(s', e', d) == Pde(s, e', d))
    && (forall e': nat, d: nat, t: nat :: d < UPDES && e' != e ==> Pte(s', e', d, t) == Pte(s, e', d, t))
  }

  lemma {:induction false} FreePtesInv(s: Pm, limbo: set<nat>, e: nat, d: nat, n: nat)
    requires Inv(s, limbo) && d < UPDES && n <= NENTRIES
    ensures var s' := FreePtes(s, e, d, n);
            && Inv(s', limbo) && s'.dirs == s.dirs && OthersSame(s, s', e)
            && (forall d': nat :: d' < UPDES ==> Pde(s', e, d') == Pde(s, e, d'))
            && (forall d': nat, t: nat :: d' < UPDES ==>
                  Pte(s', e, d', t) == if d' == d && t < n then ZERO else Pte(s, e, d', t))
  {
    if n > 0 {
      FreePtesInv(s, limbo, e, d, n - 1);
      hide Inv;
      RemoveInv(FreePtes(s, e, d, n - 1), limbo, e, d, n - 1);
    }
  }

  lemma DropTableEffect(s: Pm, e: nat, d: nat)
    requires Shape(s) && Owned(s) && Exclusive(s) && Counted(s) && d < UPDES && Present(Pde(s, e, d))
    requires forall t: nat :: Pte(s, e, d, t) == ZERO
    ensures var s' := DropTable(s, e, d); var q := Pde(s, e, d).ppn;
            && Target(s, PdeRef(e, d)) == q && q in s.managed && 0 < s.refs[q] < REF_LIMIT
            && Shape(s') && PdeChanged(s, s', e, d, ZERO)
            && s'.refs == s.refs[q := s.refs[q] - 1]
            && s'.free == if s.refs[q] == 1 then [q] + s.free else s.free
  {
    hide Owned, Exclusive, Counted, Refs;
    var q := Pde(s, e, d).ppn;
    Referenced(s, PdeRef(e, d));
    DirNotTable(s, e, d);
    WritePdeEffect(s, e, d, ZERO);
    var s1 := WritePde(s, e, d, ZERO);
    DecRefEffect(s1, q);
    assert SameTables(s1, DecRef(s1, q));
  }

  lemma DropTableInv(s: Pm, limbo: set<nat>, e: nat, d: nat)
    requires Inv(s, limbo) && d < UPDES && Present(Pde(s, e, d))
    requires forall t: nat :: Pte(s, e, d, t) == ZERO
    ensures Inv(DropTable(s, e, d), limbo) && PdeChanged(s, DropTable(s, e, d), e, d, ZERO)
  {
    hide Refs;
    var s' := DropTable(s, e, d);
    DropTableEffect(s, e, d);
    PdeChangedRedirects(s, s', e, d, ZERO);
    RedirectKeeps(s, s', PdeRef(e, d), -1);
    RedirectCounted(s, s', PdeRef(e, d), -1);
    DecRefFreeExact(s, s', limbo, Pde(s, e, d).ppn);
  }

  lemma FreeTableInv(s: Pm, limbo: set<nat>, e: nat, d: nat)
    requires Inv(s, limbo) && d < UPDES
    ensures var s' := FreeTable(s, e, d);
            && Inv(s', limbo) && s'.dirs == s.dirs && OthersSame(s, s', e)
            && (forall d': nat :: d' < UPDES ==> Pde(s', e, d') == if d' == d then ZERO else Pde(s, e, d'))
  {
    if Present(Pde(s, e, d)) {
      FreePtesInv(s, limbo, e, d, NENTRIES);
      var s1 := FreePtes(s, e, d, NENTRIES);
      TableLength(s1, limbo, e, d);
      hide Inv;
      DropTableInv(s1, limbo, e, d);
    }
  }

  lemma TableLength(s: Pm, limbo: set<nat>, e: nat, d: nat)
    requires Inv(s, limbo) && d < UPDES
    ensures forall t: nat :: t >= NENTRIES ==> Pte(s, e, d, t) == ZERO
  {
  }

  lemma {:induction false} FreeTablesInv(s: Pm, limbo: set<nat>, e: nat, n: nat)
    requires Inv(s, limbo) && n <= UPDES
    ensures var s' := FreeTables(s, e, n);
            && Inv(s', limbo) && s'.dirs == s.dirs && OthersSame(s, s', e)
            && (forall d: nat :: d < UPDES ==> Pde(s', e, d) == if d < n then ZERO else Pde(s, e, d))
  {
    if n > 0 {
      FreeTablesInv(s, limbo, e, n - 1);
      hide Inv;
      FreeTableInv(FreeTables(s, e, n - 1), limbo, e, n - 1);
    }
  }

  lemma DropDirEffect(s: Pm, e: nat)
    requires Shape(s) && Owned(s) && Counted(s) && e in s.dirs
    requires forall d: nat :: d < UPDES ==> Pde(s, e, d) == ZERO
    ensures var s' := DropDir(s, e); var q := s.dirs[e];
            && Target(s, DirRef(e)) == q && q in s.managed && 0 < s.refs[q] < REF_LIMIT
            && Shape(s') && OthersSame(s, s', e) && s'.dirs == s.dirs - {e}
            && Redirected(s, s', DirRef(e), -1)
            && s'.refs == s.refs[q := s.refs[q] - 1]
            && s'.free == if s.refs[q] == 1 then [q] + s.free else s.free
  {
    hide Refs, Counted;
    Referenced(s, DirRef(e));
    var s1 := s.(dirs := s.dirs - {e});
    DecRefEffect(s1, s.dirs[e]);
    var s' := DropDir(s, e);
    forall r
      ensures Target(s', r) == if r == DirRef(e) then -1 else Target(s, r)
    {
      match r
      case DirRef(_) =>
      case PdeRef(e', d) => assert d < UPDES && e' == e ==> Pde(s, e', d) == ZERO;
      case PteRef(e', d, t) => assert d < UPDES && e' == e ==> Pde(s, e', d) == ZERO;
    }
  }

  lemma DropDirInv(s: Pm, limbo: set<nat>, e: nat)
    requires Inv(s, limbo) && e in s.dirs
    requires forall d: nat :: d < UPDES ==> Pde(s, e, d) == ZERO
    ensures Inv(DropDir(s, e), limbo) && OthersSame(s, DropDir(s, e), e) && DropDir(s, e).dirs == s.dirs - {e}
  {
    hide Refs;
    var s' := DropDir(s, e);
    DropDirEffect(s, e);
    RedirectKeeps(s, s', DirRef(e), -1);
    RedirectCounted(s, s', DirRef(e), -1);
    DecRefFreeExact(s, s', limbo, s.dirs[e]);
  }

  /**
    env_free leaks nothing and over-frees nothing: the ledger stays exact, every other address
    space is untouched, and a page is free afterwards iff everything that named it belonged to e.
  */
  lemma FreeSpaceExact(s: Pm, limbo: set<nat>, e: nat)
    requires Inv(s, limbo) && e in s.dirs
    ensures var s' := FreeSpace(s, e);
            && Inv(s', limbo) && s'.dirs == s.dirs - {e} && OthersSame(s, s', e)
            && (forall r: Ref :: Target(s', r) == if r.e == e then -1 else Target(s, r))
            && (forall p :: p in s'.free <==>
                  p in s.managed && p !in limbo && (forall r: Ref :: Target(s, r) == p ==> r.e == e))
            && (forall p :: p in s.managed ==> s'.refs[p] == |set r | r in Refs(s, p) && r.e != e|)
  {
    hide Refs, Owned, Exclusive, ZeroFilled, RightsNested;
    FreeTablesInv(s, limbo, e, UPDES);
    var s1 := FreeTables(s, e, UPDES);
    DropDirInv(s1, limbo, e);
    var s' := FreeSpace(s, e);
    assert OthersSame(s, s', e);
    OthersTargets(s, s', e);
    forall p | p in s.managed
      ensures Refs(s', p) == set r | r in Refs(s, p) && r.e != e
      ensures p in s'.free <==> p !in limbo && (forall r: Ref :: Target(s, r) == p ==> r.e == e)
    {
      RefsMember(s, p);
      RefsMember(s', p);
      if s'.refs[p] == 0 {
        assert Refs(s', p) == {};
      }
    }
  }

  lemma OthersTargets(s: Pm, s': Pm, e: nat)
    requires OthersSame(s, s', e) && e !in s'.dirs
    ensures forall r: Ref :: Target(s', r) == if r.e == e then -1 else Target(s, r)
  {
    forall r: Ref
      ensures Target(s', r) == if r.e == e then -1 else Target(s, r)
    {
      match r
      case DirRef(e') => assert e' != e ==> (e' in s'.dirs <==> e' in s'.dirs - {e});
        assert e' != e ==> (e' in s.dirs <==> e' in s.dirs - {e});
      case PdeRef(e', d) => assert d < UPDES && e' != e ==> Pde(s', e', d) == Pde(s, e', d);
      case PteRef(e', d, t) => assert d < UPDES && e' != e ==> Pte(s', e', d, t) == Pte(s, e', d, t);
    }
  }
}
