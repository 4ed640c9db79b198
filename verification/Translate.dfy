/**
  The hardware's two-level translation, the kernel's check of user ranges (kern/pmap.c), and reading
  the page tables through themselves at UVPT (kern/env.c, lib/entry.S).
*/
module Translate {
  import opened Mmu
  import opened Pmap

  // ----- the hardware walk -----

  /** Rights are the AND over both levels. */
  function HwRights(s: Pm, e: nat, la: nat): Perm {
    Pde(s, e, PDX(la)).perm * Pte(s, e, PDX(la), PTX(la)).perm
  }

  /** Below UTOP the directory never narrows what the table grants, so an access needing `want` is
      allowed by the hardware exactly if the table entry allows it. */
  lemma HwRightsAreTableRights(s: Pm, limbo: set<nat>, e: nat, la: nat, want: Perm)
    requires Inv(s, limbo) && la < UTOP && want <= {PTE_P, PTE_W, PTE_U}
    ensures want + {PTE_P} <= HwRights(s, e, la) <==> want + {PTE_P} <= Pte(s, e, PDX(la), PTX(la)).perm
  {
    hide Refs, Counted, FreeExact, Owned, Exclusive, ZeroFilled;
    UserDirectoryEntries(la);
    var x := Pte(s, e, PDX(la), PTX(la));
    if want + {PTE_P} <= x.perm {
      assert Present(x);
      assert x.perm * {PTE_P, PTE_W, PTE_U} <= Pde(s, e, PDX(la)).perm;
    }
  }

  // ----- user_mem_check -----

  predicate Grants(s: Pm, e: nat, la: nat, perm: Perm) {
    la < ULIM && perm + {PTE_P} <= Pte(s, e, PDX(la), PTX(la)).perm
  }

  /** The property user_mem_check is documented for. */
  ghost predicate Accessible(s: Pm, e: nat, va: nat, len: nat, perm: Perm) {
    forall a: nat :: va <= a < va + len ==> Grants(s, e, a, perm)
  }

  function Probe(va: nat, i: nat): nat {
    va + PGSIZE * i
  }

  /** How many addresses the loop looks at: one, if the end of the range wraps around. */
  function Probes(va: nat, len: nat): nat {
    if len == 0 || va + len >= ADDR_LIMIT then 1 else (len + PGSIZE - 1) / PGSIZE
  }

  ghost predicate AllGranted(s: Pm, e: nat, va: nat, n: nat, perm: Perm) {
    forall i: nat :: i < n ==> Grants(s, e, Probe(va, i), perm)
  }

  /** pgdir_walk without create: whether there is a table, and the entry. */
  function Walk(s: Pm, e: nat, la: nat): (bool, Entry) {
    (Present(Pde(s, e, PDX(la))), Pte(s, e, PDX(la), PTX(la)))
  }

  /**
    The loop of user_mem_check on 32-bit words.  It answers for its probes, and on failure reports va
    itself or the page of the first probe that fails.
  */
  method UserMemCheck(s: Pm, e: nat, va: nat, len: nat, perm: Perm) returns (ok: bool, addr: nat)
    requires va < ADDR_LIMIT && len < ADDR_LIMIT
    ensures ok <==> AllGranted(s, e, va, Probes(va, len), perm)
    ensures !ok ==>
              (exists i: nat :: i < Probes(va, len) && AllGranted(s, e, va, i, perm)
                 && !Grants(s, e, Probe(va, i), perm)
                 && addr == if i == 0 then va else Probe(va, i) - Probe(va, i) % PGSIZE)
  {
    hide Grants;
    ok, addr := true, 0;
    var vaCnt, left := va, len;
    ghost var i: nat := 0;
    var more := true;
    while more
      invariant i <= Probes(va, len) && AllGranted(s, e, va, i, perm) && ok
      invariant more <==> i < Probes(va, len)
      invariant more ==> vaCnt == Probe(va, i) && left == len - PGSIZE * i >= 0
      decreases Probes(va, len) - i
    {
      var (table, x) := Walk(s, e, vaCnt);
      GrantsByWalk(s, e, vaCnt, perm);
      if vaCnt >= ULIM || !table || !(perm + {PTE_P} <= x.perm) {
        ok := false;
        addr := if left == len then va else vaCnt - vaCnt % PGSIZE;
        return;
      }
      assert Grants(s, e, Probe(va, i), perm);
      if left < PGSIZE {
        vaCnt := (vaCnt + left) % ADDR_LIMIT;
      } else {
        left := left - PGSIZE;
        vaCnt := (vaCnt + PGSIZE) % ADDR_LIMIT;
      }
      more := vaCnt < (va + len) % ADDR_LIMIT;
      i := i + 1;
    }
  }

  lemma GrantsByWalk(s: Pm, e: nat, la: nat, perm: Perm)
    ensures Grants(s, e, la, perm) <==> la < ULIM && Walk(s, e, la).0 && perm + {PTE_P} <= Walk(s, e, la).1.perm
  {
    if perm + {PTE_P} <= Walk(s, e, la).1.perm {
      assert PTE_P in Walk(s, e, la).1.perm;
    }
  }

  /** Permission depends on the page only. */
  lemma GrantsPerPage(s: Pm, e: nat, a: nat, b: nat, perm: Perm)
    requires PGNUM(a) == PGNUM(b)
    ensures Grants(s, e, a, perm) <==> Grants(s, e, b, perm)
  {
    assert a / PTSIZE == a / PGSIZE / NENTRIES && b / PTSIZE == b / PGSIZE / NENTRIES;
    assert a < ULIM <==> PGNUM(a) < PGNUM(ULIM);
    assert b < ULIM <==> PGNUM(b) < PGNUM(ULIM);
  }

  /** The probes visit every page of the range. */
  ghost predicate Covered(va: nat, len: nat) {
    forall a: nat :: va <= a < va + len ==> exists i: nat :: i < Probes(va, len) && PGNUM(Probe(va, i)) == PGNUM(a)
  }

  /** A caller can tell beforehand: the last probe must reach the page of the last byte. */
  predicate Reaches(va: nat, len: nat) {
    va % PGSIZE + (len - 1) % PGSIZE < PGSIZE
  }

  lemma ProbePage(va: nat, i: nat)
    ensures PGNUM(Probe(va, i)) == PGNUM(va) + i && Probe(va, i) % PGSIZE == va % PGSIZE
  {
  }

  /** On ranges that do not wrap, all pages are probed iff va % PGSIZE + (len - 1) % PGSIZE < PGSIZE;
      page-aligned ranges always qualify. */
  lemma CoveredIff(va: nat, len: nat)
    requires 0 < len && va + len < ADDR_LIMIT
    ensures Covered(va, len) <==> Reaches(va, len)
    ensures va % PGSIZE == 0 ==> Reaches(va, len)
  {
    hide PGNUM, Probe;
    var last := va + len - 1;
    LastPage(va, len);
    if Reaches(va, len) {
      forall a: nat | va <= a < va + len
        ensures exists i: nat :: i < Probes(va, len) && PGNUM(Probe(va, i)) == PGNUM(a)
      {
        PageOrder(va, a);
        PageOrder(a, last);
        var i: nat := PGNUM(a) - PGNUM(va);
        ProbePage(va, i);
        assert i < Probes(va, len);
      }
    } else if Covered(va, len) {
      var i: nat :| i < Probes(va, len) && PGNUM(Probe(va, i)) == PGNUM(last);
      ProbePage(va, i);
    }
  }

  lemma PageOrder(a: nat, b: nat)
    requires a <= b
    ensures PGNUM(a) <= PGNUM(b)
  {
  }

  lemma LastPage(va: nat, len: nat)
    requires 0 < len && va + len < ADDR_LIMIT
    ensures PGNUM(va + len - 1) - PGNUM(va) == if Reaches(va, len) then Probes(va, len) - 1 else Probes(va, len)
    ensures va % PGSIZE == 0 ==> Reaches(va, len)
  {
  }

  /** Then user_mem_check answers exactly whether the range is accessible ... */
  lemma CheckExact(s: Pm, e: nat, va: nat, len: nat, perm: Perm)
    requires 0 < len && va + len < ADDR_LIMIT && Reaches(va, len)
    ensures AllGranted(s, e, va, Probes(va, len), perm) <==> Accessible(s, e, va, len, perm)
  {
    hide Grants, PGNUM, Reaches;
    CoveredIff(va, len);
    if AllGranted(s, e, va, Probes(va, len), perm) {
      forall a: nat | va <= a < va + len
        ensures Grants(s, e, a, perm)
      {
        var i: nat :| i < Probes(va, len) && PGNUM(Probe(va, i)) == PGNUM(a);
        GrantsPerPage(s, e, Probe(va, i), a, perm);
      }
    }
    if Accessible(s, e, va, len, perm) {
      forall i: nat | i < Probes(va, len)
        ensures Grants(s, e, Probe(va, i), perm)
      {
        ProbeInRange(va, len, i);
      }
    }
  }

  lemma ProbeInRange(va: nat, len: nat, i: nat)
    requires 0 < len && va + len < ADDR_LIMIT && i < Probes(va, len)
    ensures va <= Probe(va, i) < va + len
  {
  }

  /** ... and, for ranges below UTOP, exactly whether the hardware would let the user through. */
  lemma CheckMatchesHardware(s: Pm, limbo: set<nat>, e: nat, va: nat, len: nat, perm: Perm)
    requires Inv(s, limbo) && 0 < len && va + len <= UTOP && Reaches(va, len) && perm <= {PTE_P, PTE_W, PTE_U}
    ensures AllGranted(s, e, va, Probes(va, len), perm) <==>
              forall a: nat :: va <= a < va + len ==> perm + {PTE_P} <= HwRights(s, e, a)
  {
    hide Inv, Reaches, HwRights;
    CheckExact(s, e, va, len, perm);
    forall a: nat | va <= a < va + len
      ensures Grants(s, e, a, perm) <==> perm + {PTE_P} <= HwRights(s, e, a)
    {
      HwRightsAreTableRights(s, limbo, e, a, perm);
    }
  }

  // ----- the tables seen at UVPT -----

  /** Every directory names itself at UVPT. */
  ghost predicate SelfMapped(s: Pm) {
    forall e :: e in s.dirs ==> Pde(s, e, PDX(UVPT)) == Entry(s.dirs[e], {PTE_P, PTE_U})
  }

  datatype Word = Fault | Word(value: Entry)

  /** A 4-byte read by the user at address la: walk, check rights, fetch the word of the page. */
  function ReadUser(s: Pm, e: nat, la: nat): Word {
    if {PTE_P, PTE_U} <= HwRights(s, e, la) then
      Word.Word(At(s.mem, Pte(s, e, PDX(la), PTX(la)).ppn, PGOFF(la) / 4))
    else Fault
  }

  /** A 4-byte store by the user, or by the kernel through a page it has checked; without the rights it faults and
      changes nothing. */
  function UserStore(s: Pm, e: nat, la: nat, v: Entry): Pm {
    if la < ADDR_LIMIT && {PTE_P, PTE_U, PTE_W} <= HwRights(s, e, la)
    then Write(s, Pte(s, e, PDX(la), PTX(la)).ppn, PGOFF(la) / 4, v) else s
  }

  datatype Store = Store(la: nat, v: Entry)

  function UserStores(s: Pm, e: nat, ws: seq<Store>): Pm
    decreases |ws|
  {
    if ws == [] then s else UserStores(UserStore(s, e, ws[0].la, ws[0].v), e, ws[1..])
  }

  const VPD: nat := UVPT + PGNUM(UVPT) * 4

  lemma UvptFields(n: nat)
    requires n < NENTRIES * NENTRIES
    ensures PDX(UVPT + 4 * n) == PDX(UVPT) && PTX(UVPT + 4 * n) == n / NENTRIES
    ensures PGOFF(UVPT + 4 * n) / 4 == n % NENTRIES
  {
    var la := UVPT + 4 * n;
    assert la / PTSIZE == UVPT / PTSIZE;
    assert la / PGSIZE == UVPT / PGSIZE + n / NENTRIES;
    assert la % PGSIZE == 4 * (n % NENTRIES);
  }

  /** vpt[n] is the table entry of virtual page n whenever its directory entry is present and
      user-readable, and faults otherwise. */
  lemma VptReadsPte(s: Pm, e: nat, n: nat)
    requires SelfMapped(s) && e in s.dirs && n < NENTRIES * NENTRIES
    ensures var d := n / NENTRIES;
            ReadUser(s, e, UVPT + 4 * n) ==
              if {PTE_P, PTE_U} <= Pde(s, e, d).perm then Word.Word(Pte(s, e, d, n % NENTRIES)) else Fault
  {
    UvptFields(n);
    hide PDX, PTX, PGOFF;
    var d := n / NENTRIES;
    assert Pte(s, e, PDX(UVPT), d) == Pde(s, e, d);
    assert HwRights(s, e, UVPT + 4 * n) == {PTE_P, PTE_U} * Pde(s, e, d).perm;
  }

  /** vpd[d] is directory entry d. */
  lemma VpdReadsPde(s: Pm, e: nat, d: nat)
    requires SelfMapped(s) && e in s.dirs && d < NENTRIES
    ensures ReadUser(s, e, VPD + 4 * d) == Word.Word(Pde(s, e, d))
  {
    var n := PGNUM(UVPT) + d;
    assert n / NENTRIES == PDX(UVPT) && n % NENTRIES == d && VPD + 4 * d == UVPT + 4 * n;
    VptReadsPte(s, e, n);
  }
}
