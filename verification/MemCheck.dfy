/**
  Exactly which ranges user_mem_check (kern/pmap.c) answers for.  The page tables on which it is wrong are ones the
  kernel builds: page_init, one env_setup_vm and one sys_page_alloc for each page of a range.
*/
module MemCheck {
  import opened Mmu
  import opened Pmap
  import opened Kernel
  import opened KernelInv
  import opened Translate
  import FreeList
  import PageMap

  // ----- an environment with one mapped range -----

  /** Environment 0 maps exactly the user pages lo .. hi-1, user-readable. */
  ghost predicate MapsRange(s: Pm, lo: nat, hi: nat) {
    && Inv(s, {}) && 0 in s.dirs
    && forall v: nat :: v < UPDES * NENTRIES ==> PageEntry(s, lo, hi, v)
  }

  ghost predicate PageEntry(s: Pm, lo: nat, hi: nat, v: nat) {
    var x := Pte(s, 0, v / NENTRIES, v % NENTRIES);
    if lo <= v < hi then x.perm == {PTE_P, PTE_U} else x == ZERO
  }

  /** The machine after page_init and env_setup_vm, with at least `room` pages left. */
  lemma OneEnvironment(kdir: Frame, room: nat) returns (s: Pm)
    requires KernelTemplate(kdir)
    ensures MapsRange(s, 0, 0) && |s.free| >= room
  {
    hide Inv, KernelTemplate;
    var n := FreeList.EXTMEM + room + 1;
    var free := FreeList.Initial(FreeList.EXTMEM, n);
    var s0 := Pm(seq(n, _ => 0), seq(n, _ => ZeroFrame()), free, map[], set p | p in free);
    forall p | p in free
      ensures p < n
    {
      FreeList.InitialExact(FreeList.EXTMEM, n, p);
    }
    PageMap.InitialLedger(s0, FreeList.EXTMEM, n);
    SetupVmInv(s0, 0, kdir);
    s := SetupVm(s0, 0, kdir).0;
    assert forall v: nat :: v < UPDES * NENTRIES ==> Pte(s0, 0, v / NENTRIES, v % NENTRIES) == ZERO;
  }

  lemma PageFields(v: nat)
    requires v < UPDES * NENTRIES
    ensures v * PGSIZE < UTOP && PDX(v * PGSIZE) == v / NENTRIES && PTX(v * PGSIZE) == v % NENTRIES
  {
  }

  /** One page more. */
  lemma AnotherPage(s: Pm, lo: nat, hi: nat)
    requires MapsRange(s, lo, hi) && lo <= hi < UPDES * NENTRIES && |s.free| >= 2
    ensures var s' := PageAllocAt(s, 0, hi * PGSIZE, {PTE_P, PTE_U}).0;
            MapsRange(s', lo, hi + 1) && |s'.free| >= |s.free| - 2
  {
    hide Inv, PageAllocAt;
    PageFields(hi);
    AllocAtRoom(s, 0, hi * PGSIZE, {PTE_P, PTE_U});
    PageAllocAtInv(s, 0, hi * PGSIZE, {PTE_P, PTE_U});
    var s' := PageAllocAt(s, 0, hi * PGSIZE, {PTE_P, PTE_U}).0;
    var hi' := hi + 1;
    forall v: nat | v < UPDES * NENTRIES
      ensures PageEntry(s', lo, hi', v)
    {
      assert PageEntry(s, lo, hi, v);
      assert v == hi <==> (v / NENTRIES == hi / NENTRIES && v % NENTRIES == hi % NENTRIES);
      assert {PTE_P, PTE_U} + {PTE_P} == {PTE_P, PTE_U};
    }
  }

  lemma {:induction false} RangeMapped(kdir: Frame, lo: nat, hi: nat, room: nat) returns (s: Pm)
    requires KernelTemplate(kdir) && lo <= hi <= UPDES * NENTRIES
    ensures MapsRange(s, lo, hi) && |s.free| >= room
    decreases hi - lo
  {
    hide KernelTemplate, PageAllocAt, Inv;
    if lo == hi {
      s := OneEnvironment(kdir, room);
      forall v: nat | v < UPDES * NENTRIES
        ensures PageEntry(s, lo, hi, v)
      {
        assert PageEntry(s, 0, 0, v);
      }
    } else {
      var s0 := RangeMapped(kdir, lo, hi - 1, room + 2);
      AnotherPage(s0, lo, hi - 1);
      s := PageAllocAt(s0, 0, (hi - 1) * PGSIZE, {PTE_P, PTE_U}).0;
    }
  }

  /** What such an environment may read below UTOP. */
  lemma RangeGrants(s: Pm, lo: nat, hi: nat, la: nat)
    requires MapsRange(s, lo, hi) && la < UTOP
    ensures Grants(s, 0, la, {PTE_P, PTE_U}) <==> lo <= PGNUM(la) < hi
  {
    hide Inv;
    AddressFields(la);
    UserDirectoryEntries(la);
    var v := PGNUM(la);
    hide PDX, PTX, PGNUM;
    assert v / NENTRIES == PDX(la) && v % NENTRIES == PTX(la);
    assert PageEntry(s, lo, hi, v);
  }

  // ----- which ranges are judged rightly -----

  /** Ranges on which the answer can be relied on: not empty, and reaching past ULIM with a probe, or neither
      wrapping nor ending on a page that no probe reaches. */
  predicate Dependable(va: nat, len: nat) {
    len > 0 && (Probe(va, Probes(va, len) - 1) >= ULIM || (va + len < ADDR_LIMIT && Reaches(va, len)))
  }

  /** For every state of the kernel's memory, every environment and every access a caller asks about. */
  ghost predicate Exact(va: nat, len: nat) {
    forall s: Pm, e: nat, perm: Perm :: Inv(s, {}) && e in s.dirs && {PTE_P, PTE_U} <= perm ==>
      (AllGranted(s, e, va, Probes(va, len), perm) <==> Accessible(s, e, va, len, perm))
  }

  /** Ranges whose answer does not depend on the kernel's fixed mappings between UTOP and ULIM: in user space, or
      starting there and wrapping around, or starting above ULIM. */
  predicate OwnRange(va: nat, len: nat) {
    (va < UTOP && (va + len <= UTOP || va + len >= ADDR_LIMIT)) || va >= ULIM
  }

  /** For a range in user space the answer is right, in every state of the kernel's memory, exactly if the offsets of
      its ends add up to less than a page. */
  lemma UserRangeIff(va: nat, len: nat)
    requires 0 < len && va + len <= UTOP
    ensures Exact(va, len) <==> Reaches(va, len)
  {
    assert Dependable(va, len) <==> Reaches(va, len) by {
      ProbeInRange(va, len, Probes(va, len) - 1);
    }
    ExactIff(va, len);
  }

  /** The same with empty and wrapping ranges, which it judges by the first byte alone. */
  lemma ExactIff(va: nat, len: nat)
    requires va < ADDR_LIMIT && len < ADDR_LIMIT && OwnRange(va, len)
    ensures Exact(va, len) <==> Dependable(va, len)
  {
    hide Inv, Grants, Reaches, AllGranted, Accessible;
    if Dependable(va, len) {
      forall s: Pm, e: nat, perm: Perm
        ensures AllGranted(s, e, va, Probes(va, len), perm) <==> Accessible(s, e, va, len, perm)
      {
        DependableExact(s, e, va, len, perm);
      }
    } else {
      var s := Deceived(va, len, ZeroFrame());
      assert Inv(s, {}) && 0 in s.dirs;
    }
  }

  lemma DependableExact(s: Pm, e: nat, va: nat, len: nat, perm: Perm)
    requires va < ADDR_LIMIT && Dependable(va, len)
    ensures AllGranted(s, e, va, Probes(va, len), perm) <==> Accessible(s, e, va, len, perm)
  {
    hide Reaches;
    var last := Probe(va, Probes(va, len) - 1);
    if last >= ULIM {
      assert !Grants(s, e, last, perm);
      assert va <= last < va + len by {
        if va + len < ADDR_LIMIT {
          ProbeInRange(va, len, Probes(va, len) - 1);
        }
      }
    } else {
      CheckExact(s, e, va, len, perm);
    }
  }

  /** On any other range, and whatever the kernel's own mappings, some state of its memory makes the check answer
      wrongly to a request for reading. */
  lemma Deceived(va: nat, len: nat, kdir: Frame) returns (s: Pm)
    requires va < ADDR_LIMIT && len < ADDR_LIMIT && OwnRange(va, len) && !Dependable(va, len) && KernelTemplate(kdir)
    ensures Inv(s, {}) && 0 in s.dirs
    ensures !(AllGranted(s, 0, va, Probes(va, len), {PTE_P, PTE_U}) <==> Accessible(s, 0, va, len, {PTE_P, PTE_U}))
  {
    if len == 0 {
      s := DeceivedEmpty(va, kdir);
    } else {
      assert Probe(va, Probes(va, len) - 1) >= va;
      s := DeceivedRange(va, len, kdir);
    }
  }

  /** An empty range is refused where nothing is mapped. */
  lemma DeceivedEmpty(va: nat, kdir: Frame) returns (s: Pm)
    requires (va < UTOP || va >= ULIM) && KernelTemplate(kdir)
    ensures Inv(s, {}) && 0 in s.dirs
    ensures !AllGranted(s, 0, va, Probes(va, 0), {PTE_P, PTE_U}) && Accessible(s, 0, va, 0, {PTE_P, PTE_U})
  {
    hide Inv, KernelTemplate;
    s := RangeMapped(kdir, 0, 0, 0);
    if va < UTOP {
      RangeGrants(s, 0, 0, va);
    }
    assert !Grants(s, 0, Probe(va, 0), {PTE_P, PTE_U});
  }

  /** Any other is accepted where every page is mapped but the last, or only the first one. */
  lemma DeceivedRange(va: nat, len: nat, kdir: Frame) returns (s: Pm)
    requires va < UTOP && 0 < len < ADDR_LIMIT && OwnRange(va, len) && !Dependable(va, len) && KernelTemplate(kdir)
    ensures Inv(s, {}) && 0 in s.dirs
    ensures AllGranted(s, 0, va, Probes(va, len), {PTE_P, PTE_U}) && !Accessible(s, 0, va, len, {PTE_P, PTE_U})
  {
    hide Inv, KernelTemplate, Grants, PGNUM, Reaches;
    var wraps := va + len >= ADDR_LIMIT;
    var lo, hi := PGNUM(va), if wraps then PGNUM(va) + 1 else PGNUM(va + len - 1);
    DeceptionBounds(va, len, hi);
    s := RangeMapped(kdir, lo, hi, 0);
    forall i: nat | i < Probes(va, len)
      ensures Grants(s, 0, Probe(va, i), {PTE_P, PTE_U})
    {
      ProbePage(va, i);
      ProbeBelow(va, len, i);
      RangeGrants(s, lo, hi, Probe(va, i));
    }
    var bad := if wraps then ULIM else va + len - 1;
    if wraps {
      NotAboveUlim(s, bad);
    } else {
      RangeGrants(s, lo, hi, bad);
    }
    assert va <= bad < va + len;
  }

  lemma NotAboveUlim(s: Pm, la: nat)
    requires la >= ULIM
    ensures !Grants(s, 0, la, {PTE_P, PTE_U})
  {
  }

  lemma DeceptionBounds(va: nat, len: nat, hi: nat)
    requires va < UTOP && 0 < len < ADDR_LIMIT && OwnRange(va, len)
    requires hi == if va + len >= ADDR_LIMIT then PGNUM(va) + 1 else PGNUM(va + len - 1)
    ensures PGNUM(va) <= hi <= UPDES * NENTRIES
  {
  }

  /** No probe of such a range looks at its last page. */
  lemma ProbeBelow(va: nat, len: nat, i: nat)
    requires va < UTOP && 0 < len < ADDR_LIMIT && OwnRange(va, len) && !Dependable(va, len) && i < Probes(va, len)
    ensures Probe(va, i) < UTOP && (va + len >= ADDR_LIMIT ==> i == 0)
    ensures va + len < ADDR_LIMIT ==> PGNUM(va) + i < PGNUM(va + len - 1)
  {
    if va + len < ADDR_LIMIT {
      ProbeInRange(va, len, i);
      LastPage(va, len);
    }
  }
}
