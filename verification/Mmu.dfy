/**
  Address arithmetic and page-table entries of 32-bit paging (inc/mmu.h, inc/memlayout.h).

  A 32-bit table word is split at bit 12 into the page number (PTE_ADDR / PGSIZE) and
  the flag bits, so a word is an `Entry`.  Linear addresses are natural numbers
  below 2^32.
*/
module Mmu {

  /** Permission bits: the set of bit positions that are 1. */
  type Perm = set<nat>

  const PTE_P: nat := 0
  const PTE_W: nat := 1
  const PTE_U: nat := 2
  const PTE_COW: nat := 11
  const PTE_SYSCALL: Perm := {0, 1, 2, 9, 10, 11}

  const PGSIZE: nat := 4096
  const NENTRIES: nat := 1024
  const PTSIZE: nat := 0x400000
  const ADDR_LIMIT: nat := 0x1_0000_0000
  const ULIM: nat := 0xEF80_0000
  const UVPT: nat := 0xEF40_0000
  const UTOP: nat := 0xEEC0_0000
  const UXSTACKTOP: nat := UTOP
  const UXSTACKBASE: nat := UTOP - PGSIZE
  const PFTEMP: nat := 0x7F_F000
  const UTEMP: nat := 0x40_0000
  /** Number of page-directory entries below UTOP. */
  const UPDES: nat := 955

  datatype Entry = Entry(ppn: nat, perm: Perm)

  const ZERO: Entry := Entry(0, {})

  type Frame = seq<Entry>

  predicate Present(x: Entry) {
    PTE_P in x.perm
  }

  function PDX(la: nat): nat {
    la / PTSIZE % NENTRIES
  }

  function PTX(la: nat): nat {
    la / PGSIZE % NENTRIES
  }

  function PGNUM(la: nat): nat {
    la / PGSIZE
  }

  function PGOFF(la: nat): nat {
    la % PGSIZE
  }

  function PGADDR(d: nat, t: nat, o: nat): nat {
    d * PTSIZE + t * PGSIZE + o
  }

  /** PGADDR rebuilds every address from its three fields ... */
  lemma AddressFields(la: nat)
    requires la < ADDR_LIMIT
    ensures PDX(la) < NENTRIES && PTX(la) < NENTRIES && PGOFF(la) < PGSIZE
    ensures PGADDR(PDX(la), PTX(la), PGOFF(la)) == la
    ensures PGNUM(la) == PDX(la) * NENTRIES + PTX(la)
  {
    assert la / PTSIZE < NENTRIES;
    assert la / PTSIZE == la / PGSIZE / NENTRIES;
  }

  /** ... and the fields recover what PGADDR was given. */
  lemma FieldsOfAddress(d: nat, t: nat, o: nat)
    requires d < NENTRIES && t < NENTRIES && o < PGSIZE
    ensures PGADDR(d, t, o) < ADDR_LIMIT
    ensures PDX(PGADDR(d, t, o)) == d && PTX(PGADDR(d, t, o)) == t && PGOFF(PGADDR(d, t, o)) == o
  {
    var la := PGADDR(d, t, o);
    assert la / PGSIZE == d * NENTRIES + t;
    assert la / PTSIZE == d;
  }

  /** The user part of the address space is exactly the first UPDES directory entries. */
  lemma UserDirectoryEntries(la: nat)
    requires la < ADDR_LIMIT
    ensures la < UTOP <==> PDX(la) < UPDES
  {
    assert la / PTSIZE < NENTRIES;
  }
}
