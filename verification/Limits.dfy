/**
  Where the kernel relies on its callers: each call that can break the kernel invariant, and the exact
  condition under which it does not.
*/
module Limits {
  import opened Mmu
  import opened Pmap
  import opened Kernel
  import opened KernelInv

  // ----- the 16-bit count -----

  /** A page already mapped by user entries only. */
  ghost predicate UserMapped(s: Pm, pp: nat) {
    Shape(s) && pp in s.managed && s.refs[pp] > 0 && forall r :: Target(s, r) == pp ==> r.PteRef?
  }

  lemma WalkKeepsCount(s: Pm, e: nat, d: nat, pp: nat)
    requires Inv(s, {}) && e in s.dirs && d < UPDES && UserMapped(s, pp) && WalkCreate(s, e, d).1
    ensures Count(WalkCreate(s, e, d).0, pp) == s.refs[pp]
  {
    hide Refs, Owned, Exclusive, ZeroFilled, RightsNested, Counted;
    if !Present(Pde(s, e, d)) {
      assert s.free[0] in s.free;
    }
  }

  /** Writing the entry over a wrapped count: the page is mapped and counts 0. */
  lemma WrappedMapping(s: Pm, e: nat, d: nat, t: nat, pp: nat, perm: Perm)
    requires Shape(s) && Owned(s) && Exclusive(s) && d < UPDES && t < NENTRIES && Present(Pde(s, e, d))
    requires pp in s.managed && s.refs[pp] == REF_LIMIT - 1 && Pte(s, e, d, t).ppn != pp
    ensures var s' := SetMapping(s, e, d, t, pp, perm); Count(s', pp) == 0 && Target(s', PteRef(e, d, t)) == pp
  {
    DirNotTable(s, e, d);
    assert Target(s, PdeRef(e, d)) == Pde(s, e, d).ppn;
    hide Owned, Exclusive;
    var s1 := IncRef(s, pp);
    var s2 := PageRemove(s1, e, d, t);
    assert s1.refs[pp] == 0;
    assert Pde(s2, e, d) == Pde(s, e, d) && Count(s2, pp) == 0;
    assert Target(s, DirRef(e)) == s.dirs[e];
  }

  lemma SameSlotInsert(s: Pm, e: nat, d: nat, t: nat, pp: nat, perm: Perm)
    requires Inv(s, {}) && e in s.dirs && d < UPDES && t < NENTRIES && UserMapped(s, pp) && Pte(s, e, d, t).ppn == pp
    ensures Inv(PageInsert(s, e, d, t, pp, perm).0, {})
  {
    assert Present(Pte(s, e, d, t));
    hide Refs, Owned, Exclusive, RightsNested, Counted, FreeExact, ZeroFilled;
    WidenPdeInv(s, {}, e, d, perm);
    SamePageInv(WidenPde(s, e, d, perm), {}, e, d, t, perm);
  }

  /** One more mapping of a user page keeps the ledger exact iff its 16-bit count has room, or the
      entry names the page already. */
  lemma InsertExact(s: Pm, e: nat, d: nat, t: nat, pp: nat, perm: Perm)
    requires Inv(s, {}) && e in s.dirs && d < UPDES && t < NENTRIES && UserMapped(s, pp)
    requires PageInsert(s, e, d, t, pp, perm).1
    ensures Inv(PageInsert(s, e, d, t, pp, perm).0, {}) <==> s.refs[pp] < REF_LIMIT - 1 || Pte(s, e, d, t).ppn == pp
  {
    hide Refs, Owned, Exclusive, ZeroFilled, RightsNested, FreeExact, SetMapping, Target;
    if Pte(s, e, d, t).ppn == pp {
      SameSlotInsert(s, e, d, t, pp, perm);
    } else if s.refs[pp] < REF_LIMIT - 1 {
      PageInsertInv(s, {}, e, d, t, pp, perm);
      assert {} - {pp} == {};
    } else {
      var (w, _) := WalkCreate(s, e, d);
      WalkCreateInv(s, {}, e, d);
      WalkKeepsCount(s, e, d, pp);
      WidenPdeInv(w, {}, e, d, perm);
      var w1 := WidenPde(w, e, d, perm);
      WrappedMapping(w1, e, d, t, pp, perm);
      var s' := SetMapping(w1, e, d, t, pp, perm);
      if Inv(s', {}) {
        Referenced(s', PteRef(e, d, t));
      }
    }
  }

  // ----- page 0 -----

  /** The fast path of page_insert mistakes an empty entry for a mapping of page 0: the mapping is made
      and not counted.  Page 0 is unmanaged, and every managed page is counted (PageInsertInv). */
  lemma PageZeroUncounted(s: Pm, e: nat, d: nat, t: nat, perm: Perm)
    requires Inv(s, {}) && d < UPDES && t < NENTRIES && Present(Pde(s, e, d)) && !Present(Pte(s, e, d, t))
    ensures var s' := PageInsert(s, e, d, t, 0, perm).0;
            s'.refs == s.refs && |Refs(s', 0)| == |Refs(s, 0)| + 1
  {
    hide Refs, Counted, FreeExact;
    WidenPdeInv(s, {}, e, d, perm);
    var s1 := WidenPde(s, e, d, perm);
    assert Pte(s1, e, d, t) == ZERO;
    var v := Entry(0, perm + {PTE_P});
    var s' := WritePte(s1, e, d, t, v);
    WritePteEffect(s1, e, d, t, v);
    PteChangedRedirects(s1, s', e, d, t, v);
    PdeChangedRedirects(s, s1, e, d, Pde(s, e, d).(perm := Pde(s, e, d).perm + perm + {PTE_P}));
    assert Target(s, PdeRef(e, d)) == Pde(s, e, d).ppn;
    OneMoreRef(s, s', 0, PteRef(e, d, t));
  }

  // ----- sys_env_destroy -----

  /** Destroying an environment keeps the kernel invariant iff it is not already DYING on another CPU. */
  lemma DestroyExact(k: K, c: nat, e: nat)
    requires Entered(k, c) && |k.cpu| <= e < |k.envs| && k.envs[e].status != FREE
    ensures KInv(EnvDestroy(k, c, e).k, c) <==> k.envs[e].status != DYING
  {
    if k.envs[e].status != DYING {
      DestroyOk(k, c, e);
    } else {
      assert OnCpu(k, e);
      var d :| 0 <= d < |k.cpu| && k.cpu[d] == e;
      hide Inv, FreeSpace, ListOk, IdsOk, IpcOk, IdleOk, MemOk;
      assert EnvDestroy(k, c, e).k.envs[k.cpu[d]].status == FREE;
    }
  }

  // ----- sys_env_set_status -----

  /** sys_env_set_status stores any integer.  It keeps the kernel invariant iff that is not a status the kernel gives
      out itself, and a blocked receiver stays NOT_RUNNABLE; other integers only make an environment that never runs. */
  lemma SetStatusExact(k: K, c: nat, envid: int, status: Status)
    requires Entered(k, c) && Ready(k, c) && k.cpu[c] >= |k.cpu| && EnvId2Env(k, c, envid, true).Found?
    requires k.envs[EnvId2Env(k, c, envid, true).slot].status in {RUNNABLE, NOT_RUNNABLE}
    ensures var e := EnvId2Env(k, c, envid, true).slot;
            KInv(SysSetStatus(k, c, envid, status).k, c) <==>
              status !in {FREE, DYING, RUNNING} && (k.envs[e].recving ==> status == NOT_RUNNABLE)
  {
    hide KInv;
    var e := EnvId2Env(k, c, envid, true).slot;
    if status !in {FREE, DYING, RUNNING} && (k.envs[e].recving ==> status == NOT_RUNNABLE) {
      SetStatusOk(k, c, envid, status);
      LeftKInv(k, c, SysSetStatus(k, c, envid, status));
    } else {
      IdFound(k, c, envid, true);
      var k' := SysSetStatus(k, c, envid, status).k;
      if KInv(k', c) {
        StatusBreaks(k, k', c, e);
      }
    }
  }

  lemma LeftKInv(k: K, c: nat, o: Outcome)
    requires Left(k, c, o)
    ensures KInv(o.k, c)
  {
    hide KInv;
  }

  /** A stored FREE, DYING or RUNNING, or a woken receiver, contradicts some part of the invariant. */
  lemma StatusBreaks(k: K, k': K, c: nat, e: nat)
    requires KInv(k, c) && KInv(k', c) && e < |k.envs| && e < |k'.envs| && k'.pm == k.pm && k'.cpu == k.cpu
    requires k.envs[e].status in {RUNNABLE, NOT_RUNNABLE} && c < |k.cpu| && k.cpu[c] != e
    requires k'.envs[e].recving == k.envs[e].recving
    ensures k'.envs[e].status !in {FREE, DYING, RUNNING} && (k.envs[e].recving ==> k'.envs[e].status == NOT_RUNNABLE)
  {
    hide Inv, ListOk, IdsOk, IdleOk;
    assert e in k.pm.dirs;
    assert !OnCpu(k, e);
    assert !OnCpu(k', e);
  }
}
