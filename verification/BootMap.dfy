/**
  boot_map_region (kern/pmap.c): static mappings of the kernel's own directory, which carry no counts.
*/
module BootMap {
  import opened Mmu

  const VPAGES: nat := NENTRIES * NENTRIES

  /** ROUNDUP(n, PGSIZE) / PGSIZE on 32-bit words: sizes in the last page of the word range round up to 0. */
  function Pages(n: nat): (k: nat)
    ensures k < VPAGES
  {
    (n + PGSIZE - 1) % ADDR_LIMIT / PGSIZE
  }

  /** How many pages after the page of va, with wrap-around, page m lies. */
  function Index(va: nat, m: nat): (i: nat)
    ensures i < VPAGES
  {
    (m - PGNUM(va)) % VPAGES
  }

  /** The entry of page i of a region that starts at physical address pa. */
  function RegionEntry(pa: nat, i: nat, perm: Perm): Entry {
    Entry((PGNUM(pa) + i) % VPAGES, perm + {PTE_P})
  }

  /** compare_MAX on a 32-bit word: one of v, ..., v + 3 is the largest word. */
  predicate NearMax(v: nat) {
    v <= ADDR_LIMIT - 1 < v + 4
  }

  class KernelDirectory {
    var dir: Frame
    /** The page tables, by page number, and the pages left for more. */
    var tables: map<nat, Frame>
    var free: seq<nat>

    /** Present directory entries name distinct tables; pages still free are not tables. */
    ghost predicate Valid()
      reads this
    {
      && |dir| == NENTRIES
      && (forall d :: 0 <= d < NENTRIES && Present(dir[d]) ==> dir[d].ppn in tables)
      && (forall p :: p in tables ==> |tables[p]| == NENTRIES)
      && (forall c, d :: 0 <= c < d < NENTRIES && Present(dir[c]) && Present(dir[d]) ==> dir[c].ppn != dir[d].ppn)
      && (forall p :: p in free ==> p !in tables)
      && (forall i, j :: 0 <= i < j < |free| ==> free[i] != free[j])
    }

    /** The flat map: the entry of virtual page n. */
    ghost function Flat(n: nat): Entry
      reads this
      requires Valid()
    {
      if n < NENTRIES * NENTRIES && Present(dir[n / NENTRIES])
      then tables[dir[n / NENTRIES].ppn][n % NENTRIES] else ZERO
    }

    /** pgdir_walk with create; NIL if no page is left. */
    method Walk(n: nat) returns (table: int)
      requires Valid() && n < NENTRIES * NENTRIES
      modifies this
      ensures Valid() && (table >= 0 ==> Present(dir[n / NENTRIES]) && dir[n / NENTRIES].ppn == table)
      ensures table < 0 <==> !Present(old(dir)[n / NENTRIES]) && old(free) == []
      ensures table < 0 ==> free == []
      ensures forall m: nat :: Flat(m) == old(Flat(m))
      ensures forall d :: 0 <= d < NENTRIES && Present(old(dir)[d]) ==> dir[d] == old(dir)[d]
      ensures forall d :: 0 <= d < NENTRIES && d != n / NENTRIES ==> dir[d] == old(dir)[d]
    {
      var d := n / NENTRIES;
      if Present(dir[d]) {
        return dir[d].ppn;
      }
      if free == [] {
        return -1;
      }
      var p := free[0];
      assert p in free;
      free := free[1..];
      assert forall q :: q in free ==> q in old(free) && q != p;
      tables := tables[p := seq(NENTRIES, _ => ZERO)];
      dir := dir[d := Entry(p, {PTE_P, PTE_W})];
      table := p;
      forall m: nat
        ensures Flat(m) == old(Flat(m))
      {
        if m < NENTRIES * NENTRIES && m / NENTRIES != d && Present(dir[m / NENTRIES]) {
          assert dir[m / NENTRIES].ppn != p;
        }
      }
    }

    /** One turn of the loop: the entry, and the user bit of its directory entry. */
    method MapPage(n: nat, v: Entry) returns (ok: bool)
      requires Valid() && n < NENTRIES * NENTRIES
      modifies this
      ensures Valid()
      ensures forall m: nat :: m != n ==> Flat(m) == old(Flat(m))
      ensures ok ==> Flat(n) == v && (PTE_U in v.perm ==> PTE_U in dir[n / NENTRIES].perm)
      ensures !ok ==> Flat(n) == old(Flat(n)) && free == []
      ensures forall d :: 0 <= d < NENTRIES ==> old(dir)[d].perm <= dir[d].perm || !Present(old(dir)[d])
    {
      var table := Walk(n);
      if table < 0 {
        return false;
      }
      var d := n / NENTRIES;
      tables := tables[table := tables[table][n % NENTRIES := v]];
      if PTE_U in v.perm && PTE_U !in dir[d].perm {
        dir := dir[d := dir[d].(perm := dir[d].perm + {PTE_U})];
      }
      forall m: nat
        ensures Flat(m) == if m == n then v else old(Flat(m))
      {
        if m < NENTRIES * NENTRIES && m / NENTRIES == d {
          assert m == d * NENTRIES + m % NENTRIES && n == d * NENTRIES + n % NENTRIES;
        }
      }
      ok := true;
    }

    /**
      boot_map_region on any words va, size and pa: exactly the pages of the range change, each to its own physical
      page, wrapping around the top of the address space as va + i and pa + i do.  It stops (the source's assertion)
      when no page is left for a table, and does nothing at all for a va or pa within three bytes of the top.
    */
    method BootMapRegion(va: nat, size: nat, pa: nat, perm: Perm) returns (done: nat)
      requires Valid() && va < ADDR_LIMIT && size < ADDR_LIMIT && pa < ADDR_LIMIT
      modifies this
      ensures Valid() && done <= Pages(size)
      ensures NearMax(va) || NearMax(pa) ==> done == 0
      ensures done == Pages(size) || free == [] || NearMax(va) || NearMax(pa)
      ensures forall m: nat :: m < VPAGES ==>
                Flat(m) == if Index(va, m) < done then RegionEntry(pa, Index(va, m), perm) else old(Flat(m))
    {
      hide Index;
      var n := Pages(size);
      done := 0;
      while done < n && !NearMax(va) && !NearMax(pa)
        invariant Valid() && done <= n
        invariant NearMax(va) || NearMax(pa) ==> done == 0
        invariant forall m: nat :: m < VPAGES ==>
                    Flat(m) == if Index(va, m) < done then RegionEntry(pa, Index(va, m), perm) else old(Flat(m))
      {
        PageOf(va, done);
        PageOf(pa, done);
        var v, p := PGNUM((va + done * PGSIZE) % ADDR_LIMIT), PGNUM((pa + done * PGSIZE) % ADDR_LIMIT);
        var ok := MapPage(v, Entry(p, perm + {PTE_P}));
        if !ok {
          return;
        }
        forall m: nat | m < VPAGES
          ensures m == v <==> Index(va, m) == done
        {
          IndexOf(va, done, m);
        }
        done := done + 1;
      }
    }
  }

  lemma PageOf(va: nat, i: nat)
    ensures PGNUM((va + i * PGSIZE) % ADDR_LIMIT) == (PGNUM(va) + i) % VPAGES < VPAGES
  {
    var x := va + i * PGSIZE;
    assert x / PGSIZE == va / PGSIZE + i;
    assert x % ADDR_LIMIT / PGSIZE == x / PGSIZE % VPAGES;
  }

  lemma IndexOf(va: nat, i: nat, m: nat)
    requires m < VPAGES && i < VPAGES
    ensures Index(va, m) == i <==> m == (PGNUM(va) + i) % VPAGES
  {
  }
}
