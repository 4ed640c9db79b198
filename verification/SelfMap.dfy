/**
  In every reachable state every live directory is mapped into itself at UVPT, so user code reads its own page tables
  there (kern/env.c:244, lib/entry.S:11-14).
*/
module SelfMap {
  import opened Mmu
  import opened Pmap
  import opened KernelInv
  import opened Smp
  import opened Translate
  import opened UpperHalf

  lemma RunSelf(ss: seq<S>, ls: seq<Label>, i: nat)
    requires IsRun(ss, ls) && i < |ss|
    ensures SelfMapped(ss[i].k.pm)
  {
    hide Inv, IsRun, Next, Init, LockOk, PhaseOk, EnvsOk, Guarded, SelfMapped;
    RunOk(ss, ls, i);
    var s := ss[i];
    if s.lock.locked {
      LockedHolder(s);
    }
    GuardedSelfMapped(s.k.pm, s.k.kdir);
  }

  lemma LockedHolder(s: S)
    requires SysInv(s) && s.lock.locked
    ensures MemOk(s.k)
  {
    hide MemOk, EnvsOk;
    var h :| 0 <= h < |s.phase| && Critical(s.phase[h]);
    assert HolderOk(s.k, h, s.phase[h]);
  }

  /** In every reachable state, every environment reads its directory at vpd, and the entry of each page
      whose directory entry the user may read at vpt. */
  lemma TablesVisible(ss: seq<S>, ls: seq<Label>, i: nat, e: nat, n: nat)
    requires IsRun(ss, ls) && i < |ss| && e in ss[i].k.pm.dirs && n < NENTRIES * NENTRIES
    ensures var s := ss[i].k.pm; var d := n / NENTRIES;
            && ReadUser(s, e, VPD + 4 * d) == Word.Word(Pde(s, e, d))
            && ({PTE_P, PTE_U} <= Pde(s, e, d).perm ==>
                  ReadUser(s, e, UVPT + 4 * n) == Word.Word(Pte(s, e, d, n % NENTRIES)))
  {
    hide SelfMapped, ReadUser, IsRun;
    RunSelf(ss, ls, i);
    VptReadsPte(ss[i].k.pm, e, n);
    VpdReadsPde(ss[i].k.pm, e, n / NENTRIES);
  }
}
