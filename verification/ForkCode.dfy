/**
  The code of lib/fork.c (pgfault, duppage, fork) and of user/dumbfork.c (duppage, dumbfork), updating the
  address spaces one system call and one copied byte at a time.  What fork and pgfault do is a run of
  module Cow; what dumbfork's duppage does is the copy event of Cow's specification.
*/
module ForkCode {
  import opened Mmu
  import opened Cow
  import opened Errors

  const UT: nat := PGNUM(UTEMP)

  /** The state after a run. */
  ghost function After(s: C, acts: seq<Act>): C
    requires CanRun(s, acts)
    decreases |acts|
  {
    if acts == [] then s else After(Do(s, acts[0]), acts[1..])
  }

  /** acts is a run of module Cow from s to t. */
  ghost predicate Leads(s: C, acts: seq<Act>, t: C) {
    CanRun(s, acts) && After(s, acts) == t
  }

  lemma {:induction false} LeadsFurther(s: C, acts: seq<Act>, t: C, a: Act)
    requires Leads(s, acts, t) && Enabled(t, a)
    ensures Leads(s, acts + [a], Do(t, a))
    decreases |acts|
  {
    hide Enabled, Do;
    if acts == [] {
      assert acts + [a] == [a] && [a][1..] == [];
      assert CanRun(Do(s, a), []) && After(Do(s, a), []) == Do(s, a);
    } else {
      LeadsFurther(Do(s, acts[0]), acts[1..], t, a);
      assert (acts + [a])[1..] == acts[1..] + [a];
    }
  }

  /** The pages of every process, as module Cow's specification sees them. */
  function Pages(s: C): View {
    map k | k in s.vm :: Page(s, k)
  }

  /** The pages from lo up to hi. */
  ghost function Span(lo: nat, hi: nat): (r: set<nat>)
    requires lo <= hi
    ensures forall u :: u in r <==> lo <= u < hi
  {
    if hi == lo then {} else Span(lo, hi - 1) + {hi - 1}
  }

  /** One whole turn of fork's loop. */
  function DupBoth(s: C, e: nat, n: nat): C
    requires e in s.th && s.th[e].fork.Looping?
  {
    var s1 := DoDupChild(s, e, n);
    if s1.th[e].fork.ChildMapped? then DoDupParent(s1, e) else s1
  }

  class Processes {
    var vm: map<Key, Entry>
    var data: map<nat, Data>
    ghost var th: map<nat, Thread>
    ghost var embryo: map<nat, nat>
    ghost var shared: set<Key>

    ghost function State(): C
      reads this
    {
      C(vm, data, th, embryo, shared)
    }

    ghost method Become(s: C)
      requires s.vm == vm && s.data == data
      modifies this`th, this`embryo, this`shared
      ensures State() == s
    {
      th, embryo, shared := s.th, s.embryo, s.shared;
    }

    // ----- system calls -----

    method SysPageMap(src: Key, dst: Key, perm: Perm) returns (r: int)
      modifies this`vm
      ensures r == if src in old(vm) && (PTE_W in perm ==> Writable(old(vm)[src])) then 0 else -E_INVAL
      ensures vm == if r == 0 then old(vm)[dst := Entry(old(vm)[src].ppn, perm + {PTE_P})] else old(vm)
    {
      if src !in vm || (!Writable(vm[src]) && PTE_W in perm) {
        return -E_INVAL;
      }
      vm := vm[dst := Entry(vm[src].ppn, perm + {PTE_P})];
      r := 0;
    }

    /** sys_page_alloc when page_alloc returns page n, or nothing if n is negative. */
    method SysPageAlloc(k: Key, n: int, perm: Perm) returns (r: int)
      modifies this`vm, this`data
      ensures r == if n < 0 then -E_NO_MEM else 0
      ensures n < 0 ==> vm == old(vm) && data == old(data)
      ensures n >= 0 ==> vm == old(vm)[k := Entry(n, perm + {PTE_P})] && data == old(data)[n := Zeros()]
    {
      if n < 0 {
        return -E_NO_MEM;
      }
      r := 0;
      data := data[n := Zeros()];
      vm := vm[k := Entry(n, perm + {PTE_P})];
    }

    method SysPageUnmap(k: Key)
      modifies this`vm
      ensures vm == old(vm) - {k}
    {
      vm := vm - {k};
    }

    // ----- user/dumbfork.c -----

    /** memmove of one page into page n. */
    method CopyPage(n: nat, p: nat)
      requires n in data && p in data && n != p && |data[n]| == |data[p]| == PGSIZE
      modifies this`data
      ensures data == old(data)[n := old(data)[p]]
    {
      var i := 0;
      while i < PGSIZE
        invariant 0 <= i <= PGSIZE && n in data && p in data && |data[n]| == PGSIZE && data[p] == old(data)[p]
        invariant data[n][..i] == data[p][..i]
        invariant data == old(data)[n := data[n]]
      {
        data := data[n := data[n][i := data[p][i]]];
        i := i + 1;
      }
      assert data[n] == data[n][..PGSIZE] == data[p][..PGSIZE] == data[p];
    }

    /** dumbfork's duppage is the specification's copy event, and leaves UTEMP unmapped. */
    method EagerDuppage(e: nat, child: nat, v: nat, n: nat)
      requires Shape(State()) && Key(e, v) in vm && v != UT && child != e && Fresh(State(), n)
      modifies this`vm, this`data
      ensures vm == old(vm)[Key(child, v) := Entry(n, URW)] - {Key(e, UT)}
      ensures data == old(data)[n := Page(old(State()), Key(e, v))]
      ensures Pages(State()) == SpecStep(Pages(old(State())), Copy(Key(e, v), Key(child, v))) - {Key(e, UT)}
    {
      var _ := SysPageAlloc(Key(child, v), n, URW);
      var r := SysPageMap(Key(child, v), Key(e, UT), URW);
      CopyPage(vm[Key(e, UT)].ppn, vm[Key(e, v)].ppn);
      SysPageUnmap(Key(e, UT));
      assert URW + {PTE_P} == URW;
      assert vm == old(vm)[Key(child, v) := Entry(n, URW)] - {Key(e, UT)};
      EagerPages(old(State()), e, child, v, n);
    }

    /** dumbfork after sys_exofork: program pages lo .. hi-1, the stack page, one fresh physical page each, and then the
        child may run. */
    method DumbFork(e: nat, child: nat, lo: nat, hi: nat, stack: nat, pool: seq<nat>)
      requires Shape(State()) && lo <= hi <= stack && UT < lo && child != e && child in th && |pool| == hi - lo + 1
      requires (forall v :: lo <= v < hi ==> Key(e, v) in vm) && Key(e, stack) in vm
      requires forall i, j :: 0 <= i < j < |pool| ==> pool[i] != pool[j]
      requires forall i :: 0 <= i < |pool| ==> Fresh(State(), pool[i])
      modifies this
      ensures Duplicated(old(State()), State(), e, child, Span(lo, hi) + {stack})
      ensures th == old(th) && embryo == old(embryo) - {child} && shared == old(shared)
    {
      hide Duplicated, Shape, Fresh;
      ghost var s0 := State();
      StartDuplicated(s0, e, child);
      var v := lo;
      while v < hi
        invariant lo <= v <= hi && Shape(State()) && th == old(th) && embryo == old(embryo) && shared == old(shared)
        invariant forall i :: v - lo <= i < |pool| ==> Fresh(State(), pool[i])
        invariant Duplicated(s0, State(), e, child, Span(lo, v))
      {
        DupOne(e, child, v, pool, v - lo, s0, Span(lo, v));
        v := v + 1;
      }
      DupOne(e, child, stack, pool, hi - lo, s0, Span(lo, hi));
      ghost var s := State();
      Become(s.(embryo := embryo - {child}));
      SamePages(s0, s, State(), e, child, Span(lo, hi) + {stack});
    }

    /** One call of duppage, with the i-th page of the pool. */
    method DupOne(e: nat, child: nat, v: nat, pool: seq<nat>, i: nat, ghost s0: C, ghost vs: set<nat>)
      requires Shape(State()) && Duplicated(s0, State(), e, child, vs) && v !in vs
      requires UT < v && child != e && child in th
      requires Key(e, v) in s0.vm && i < |pool| && (forall i, j :: 0 <= i < j < |pool| ==> pool[i] != pool[j])
      requires forall j :: i <= j < |pool| ==> Fresh(State(), pool[j])
      modifies this`vm, this`data
      ensures Shape(State()) && Duplicated(s0, State(), e, child, vs + {v})
      ensures forall j :: i < j < |pool| ==> Fresh(State(), pool[j])
    {
      hide Duplicated, Shape, Fresh;
      ghost var s := State();
      SourceKept(s0, s, e, child, vs, v);
      EagerDuppage(e, child, v, pool[i]);
      NextDuplicated(s0, s, State(), e, child, vs, v, pool[i]);
      forall j | i < j < |pool|
        ensures Fresh(State(), pool[j])
      {
        StillFresh(s, State(), Key(child, v), pool[i], pool[j]);
      }
    }

    // ----- lib/fork.c -----

    /** duppage for a page below the exception stack: child first, then the parent's own mapping. */
    method Duppage(e: nat, child: nat, pn: nat) returns (r: int)
      requires Inv(State()) && Awake(State(), e) && th[e] == Thread(NoFault, Looping(child, pn))
      requires pn < UXP && child != e
      modifies this`vm
      ensures r == if UserPresent(old(State()), e, pn) then 0 else -E_INVAL
      ensures vm == if r == 0 then DupBoth(old(State()), e, 0).vm else old(vm)
      ensures r == 0 ==> data == DupBoth(old(State()), e, 0).data
    {
      assert ThreadOk(State(), e);
      var me, it := Key(e, pn), Key(child, pn);
      if me !in vm || PTE_U !in vm[me].perm {
        return -E_INVAL;
      }
      if !Writable(vm[me]) && PTE_COW !in vm[me].perm {
        var _ := SysPageMap(me, it, vm[me].perm);
        assert vm[me].perm + {PTE_P} == vm[me].perm;
        return 0;
      }
      var _ := SysPageMap(me, it, vm[me].perm + {PTE_COW} - {PTE_W});
      CowPermForm(vm[me].perm);
      var _ := SysPageMap(me, me, vm[me].perm + {PTE_COW} - {PTE_W});
      return 0;
    }

    /**
      pgfault on a write or read that faulted at page v: a copy-on-write page is replaced by a private writable
      copy, through PFTEMP and one byte at a time; anything else, or no free page (n negative), is a panic before
      any mapping has changed.  The later system calls cannot fail.
    */
    method Pgfault(e: nat, v: nat, write: bool, n: int) returns (ok: bool, ghost acts: seq<Act>)
      requires Inv(State()) && Awake(State(), e) && th[e].fault.NoFault? && v != PFT && (n >= 0 ==> Fresh(State(), n))
      requires write && Key(e, v) in vm ==> !({PTE_U, PTE_W} <= vm[Key(e, v)].perm)
      modifies this
      ensures ok <==> write && Key(e, v) in old(vm) && PTE_COW in old(vm)[Key(e, v)].perm && n >= 0
      ensures !ok ==> State() == old(State())
      ensures ok ==> Leads(old(State()), acts, State()) && Inv(State())
      ensures ok ==> vm == old(vm)[Key(e, v) := Entry(n, URW)] && data == old(data)[n := Page(old(State()), Key(e, v))]
      ensures th == old(th) && embryo == old(embryo) && shared == old(shared)
    {
      hide Inv, Leads, CopyState, Do, Copied, Enabled, Fresh, Page;
      acts := [];
      if Key(e, v) !in vm || !write || PTE_COW !in vm[Key(e, v)].perm {
        return false, [];
      }
      ghost var s0 := State();
      var r := SysPageAlloc(Key(e, PFT), n, URW);
      if r < 0 {
        return false, [];
      }
      FaultReady(s0, e, v, n);
      acts := CopyStarted(s0, e, v, n);
      assert URW + {PTE_P} == URW;
      Become(Do(s0, FaultAlloc(e, v, n)));
      acts := CopyBytes(e, v, n, s0, acts);
      ghost var s := State();
      CopyLast(s0, s, e, v, n);
      acts := CopyFinished(s0, acts, s, e, v, n);
      r := SysPageMap(Key(e, PFT), Key(e, v), URW);
      assert r == 0;
      SysPageUnmap(Key(e, PFT));
      Become(Do(Do(s, FaultMap(e)), FaultUnmap(e)));
      ok := true;
    }

    /** The memmove of pgfault. */
    method CopyBytes(e: nat, v: nat, n: nat, ghost s0: C, ghost acts0: seq<Act>) returns (ghost acts: seq<Act>)
      requires Copied(s0, acts0, State(), e, v, n, 0)
      modifies this
      ensures Copied(s0, acts, State(), e, v, n, PGSIZE) && CopyState(s0, State(), e, v, n, PGSIZE)
    {
      hide Inv, Leads, CopyState, Do, Enabled;
      acts := acts0;
      var i := 0;
      while i < PGSIZE
        invariant 0 <= i <= PGSIZE && Copied(s0, acts, State(), e, v, n, i)
      {
        ghost var s := State();
        acts := CopyTurn(s0, acts, s, e, v, n, i);
        var p := vm[Key(e, PFT)].ppn;
        data := data[p := data[p][i := data[vm[Key(e, v)].ppn][i]]];
        Become(Do(s, FaultCopy(e)));
        i := i + 1;
      }
    }

    /**
      fork, with page n for the child's exception stack: a run of module Cow after which parent and child map
      the same pages, none of them writable.
    */
    method Fork(e: nat, child: nat, n: nat) returns (ghost acts: seq<Act>)
      requires Inv(State()) && DomainOk(State()) && Enabled(State(), ForkStart(e, child))
      requires Fresh(State(), n) && child != e
      modifies this
      ensures Leads(old(State()), acts, State()) && Inv(State()) && Awake(State(), child)
      ensures AllForked(old(State()), State(), e, child, UXP)
      ensures Key(child, UXP) in vm && vm[Key(child, UXP)] == Entry(n, URW) && data == old(data)[n := Zeros()]
    {
      hide Inv, DomainOk, Leads, AllForked, Enabled;
      ghost var s0 := State();
      acts := ForkStarted(s0, e, child);
      Become(Do(s0, ForkStart(e, child)));
      var pgn := 0;
      while pgn < PGNUM(UTOP)
        invariant 0 <= pgn <= PGNUM(UTOP) == UXP + 1
        invariant Looped(s0, acts, State(), e, child, pgn, n)
      {
        ghost var s := State();
        TurnReady(s0, acts, s, e, child, pgn, n);
        if pgn == UXP {
          var _ := SysPageAlloc(Key(child, UXP), n, URW);
          assert URW + {PTE_P} == URW;
        } else if Key(e, pgn) in vm && PTE_U in vm[Key(e, pgn)].perm {
          var _ := Duppage(e, child, pgn);
        }
        acts := Turn(s0, acts, s, e, child, pgn, n);
        Become(DupBoth(s, e, n));
        pgn := pgn + 1;
      }
      acts := ForkFinished(s0, acts, State(), e, child, n);
      Become(Do(State(), ForkEnd(e)));
    }
  }

  // ----- pgfault -----

  /** pgfault has copied the first i bytes of page v to page n, mapped at PFTEMP. */
  ghost predicate CopyState(s0: C, s: C, e: nat, v: nat, n: nat, i: nat) {
    && e in s0.th && Awake(s, e) && i <= PGSIZE && s0.th[e].fault.NoFault? && v != PFT && Key(e, PFT) !in s0.vm
    && Key(e, v) in s0.vm && s0.vm[Key(e, v)].ppn != n && n in s.data && |s.data[n]| == PGSIZE
    && s0.vm[Key(e, v)].ppn in s0.data && |s0.data[s0.vm[Key(e, v)].ppn]| == PGSIZE
    && s == C(s0.vm[Key(e, PFT) := Entry(n, URW)], s0.data[n := s.data[n]],
              s0.th[e := s0.th[e].(fault := Copying(v, i))],
              s0.embryo, s0.shared)
    && s.data[n][..i] == Page(s0, Key(e, v))[..i]
  }

  ghost predicate Copied(s0: C, acts: seq<Act>, s: C, e: nat, v: nat, n: nat, i: nat) {
    Leads(s0, acts, s) && Inv(s) && CopyState(s0, s, e, v, n, i)
  }

  lemma Extend(s0: C, acts: seq<Act>, s: C, a: Act)
    requires Leads(s0, acts, s) && Inv(s) && Enabled(s, a)
    ensures Leads(s0, acts + [a], Do(s, a)) && Inv(Do(s, a))
  {
    hide Inv, Leads, Enabled, Do;
    LeadsFurther(s0, acts, s, a);
    StepInv(s, a);
  }

  lemma FaultReady(s: C, e: nat, v: nat, n: nat)
    requires Inv(s) && Awake(s, e) && s.th[e].fault.NoFault? && v != PFT && Fresh(s, n)
    requires Key(e, v) in s.vm && PTE_COW in s.vm[Key(e, v)].perm && !({PTE_U, PTE_W} <= s.vm[Key(e, v)].perm)
    ensures Enabled(s, FaultAlloc(e, v, n))
  {
    hide Private;
  }

  lemma CopyStart(s: C, e: nat, v: nat, n: nat)
    requires Inv(s) && Enabled(s, FaultAlloc(e, v, n))
    ensures var s' := Do(s, FaultAlloc(e, v, n)); CopyState(s, s', e, v, n, 0)
  {
    hide Private;
    assert ThreadOk(s, e);
  }

  lemma CopyStarted(s: C, e: nat, v: nat, n: nat) returns (acts: seq<Act>)
    requires Inv(s) && Enabled(s, FaultAlloc(e, v, n))
    ensures var s' := Do(s, FaultAlloc(e, v, n));
            Copied(s, acts, s', e, v, n, 0)
            && s'.vm == s.vm[Key(e, PFT) := Entry(n, URW)] && s'.data == s.data[n := Zeros()]
  {
    hide Inv, CopyState, Enabled;
    acts := [] + [FaultAlloc(e, v, n)];
    Extend(s, [], s, FaultAlloc(e, v, n));
    CopyStart(s, e, v, n);
  }

  lemma CopyByte(s0: C, s: C, e: nat, v: nat, n: nat, i: nat)
    requires CopyState(s0, s, e, v, n, i) && i < PGSIZE
    ensures Enabled(s, FaultCopy(e))
    ensures Key(e, v) in s.vm && s.vm[Key(e, v)].ppn in s.data && |s.data[s.vm[Key(e, v)].ppn]| == PGSIZE
    ensures n in s.data && |s.data[n]| == PGSIZE && Key(e, PFT) in s.vm && s.vm[Key(e, PFT)].ppn == n
    ensures var s' := Do(s, FaultCopy(e));
            && CopyState(s0, s', e, v, n, i + 1) && s'.vm == s.vm
            && s'.data == s.data[n := s.data[n][i := s.data[s.vm[Key(e, v)].ppn][i]]]
  {
    var s' := Do(s, FaultCopy(e));
    assert s'.data == s0.data[n := s'.data[n]];
  }

  lemma CopyTurn(s0: C, acts: seq<Act>, s: C, e: nat, v: nat, n: nat, i: nat) returns (acts': seq<Act>)
    requires Copied(s0, acts, s, e, v, n, i) && i < PGSIZE
    ensures Enabled(s, FaultCopy(e))
    ensures Key(e, v) in s.vm && s.vm[Key(e, v)].ppn in s.data && |s.data[s.vm[Key(e, v)].ppn]| == PGSIZE
    ensures n in s.data && |s.data[n]| == PGSIZE && Key(e, PFT) in s.vm && s.vm[Key(e, PFT)].ppn == n
    ensures var s' := Do(s, FaultCopy(e));
            && Copied(s0, acts', s', e, v, n, i + 1) && s'.vm == s.vm
            && s'.data == s.data[n := s.data[n][i := s.data[s.vm[Key(e, v)].ppn][i]]]
  {
    hide Inv, Leads, CopyState, Enabled, Do;
    acts' := acts + [FaultCopy(e)];
    CopyByte(s0, s, e, v, n, i);
    Extend(s0, acts, s, FaultCopy(e));
  }

  lemma CopyLast(s0: C, s: C, e: nat, v: nat, n: nat)
    requires CopyState(s0, s, e, v, n, PGSIZE)
    ensures Enabled(s, FaultMap(e)) && Enabled(Do(s, FaultMap(e)), FaultUnmap(e))
    ensures var s' := Do(Do(s, FaultMap(e)), FaultUnmap(e));
            && s'.vm == s0.vm[Key(e, v) := Entry(n, URW)] && s'.data == s0.data[n := Page(s0, Key(e, v))]
            && s'.th == s0.th && s'.embryo == s0.embryo && s'.shared == s0.shared
            && s'.vm == s.vm[Key(e, v) := Entry(n, URW)] - {Key(e, PFT)} && s'.data == s.data
            && Key(e, PFT) in s.vm && s.vm[Key(e, PFT)] == Entry(n, URW)
  {
    assert s.data[n] == s.data[n][..PGSIZE] && Page(s0, Key(e, v)) == Page(s0, Key(e, v))[..PGSIZE];
    var s' := Do(Do(s, FaultMap(e)), FaultUnmap(e));
    assert s'.th == s0.th[e := s0.th[e]];
  }

  lemma CopyFinished(s0: C, acts: seq<Act>, s: C, e: nat, v: nat, n: nat) returns (acts': seq<Act>)
    requires Copied(s0, acts, s, e, v, n, PGSIZE)
    ensures CopyState(s0, s, e, v, n, PGSIZE) && Enabled(s, FaultMap(e)) && Enabled(Do(s, FaultMap(e)), FaultUnmap(e))
    ensures var s' := Do(Do(s, FaultMap(e)), FaultUnmap(e)); Leads(s0, acts', s') && Inv(s')
  {
    hide Inv, Leads, CopyState, Enabled, Do;
    CopyLast(s0, s, e, v, n);
    Extend(s0, acts, s, FaultMap(e));
    Extend(s0, acts + [FaultMap(e)], Do(s, FaultMap(e)), FaultUnmap(e));
    acts' := acts + [FaultMap(e)] + [FaultUnmap(e)];
  }

  // ----- fork's loop -----

  /** What both sides get for a user page of the parent. */
  function Lazy(x: Entry): Entry {
    if Writable(x) || PTE_COW in x.perm then Entry(x.ppn, CowPerm(x.perm)) else x
  }

  /** The entry at key k once pages 0 .. pn-1 are duplicated. */
  ghost predicate Forked(s0: C, s: C, e: nat, child: nat, pn: nat, k: Key) {
    if (k.e == child || k.e == e) && k.v < pn && UserPresent(s0, e, k.v) then
      k in s.vm && s.vm[k] == Lazy(s0.vm[Key(e, k.v)])
    else
      (k in s.vm <==> k in s0.vm) && (k in s.vm ==> s.vm[k] == s0.vm[k])
  }

  ghost predicate AllForked(s0: C, s: C, e: nat, child: nat, pn: nat) {
    forall k :: k != Key(child, UXP) ==> Forked(s0, s, e, child, pn, k)
  }

  ghost predicate Looped(s0: C, acts: seq<Act>, s: C, e: nat, child: nat, pn: nat, n: nat) {
    && Leads(s0, acts, s) && Inv(s) && Inv(s0) && child !in s0.th && child != e
    && Awake(s, e) && s.th[e] == Thread(NoFault, Looping(child, pn)) && child in s.th
    && (pn <= UXP ==> Fresh(s, n) && s.data == s0.data && AllForked(s0, s, e, child, pn))
    && (pn > UXP ==>
          && s.data == s0.data[n := Zeros()] && Key(child, UXP) in s.vm && s.vm[Key(child, UXP)] == Entry(n, URW)
          && AllForked(s0, s, e, child, UXP))
  }

  lemma ForkStarted(s0: C, e: nat, child: nat) returns (acts: seq<Act>)
    requires Inv(s0) && Enabled(s0, ForkStart(e, child)) && child != e
    ensures var s := Do(s0, ForkStart(e, child)); s.vm == s0.vm && s.data == s0.data
    ensures forall n :: Fresh(s0, n) ==> Looped(s0, acts, Do(s0, ForkStart(e, child)), e, child, 0, n)
  {
    acts := [ForkStart(e, child)];
    LeadsFurther(s0, [], s0, ForkStart(e, child));
    assert [] + [ForkStart(e, child)] == acts;
    StepInv(s0, ForkStart(e, child));
    hide Inv;
  }

  lemma TurnReady(s0: C, acts: seq<Act>, s: C, e: nat, child: nat, pn: nat, n: nat)
    requires Looped(s0, acts, s, e, child, pn, n) && pn <= UXP
    ensures Inv(s) && Awake(s, e) && s.th[e] == Thread(NoFault, Looping(child, pn)) && child != e
  {
  }

  lemma Turn(s0: C, acts: seq<Act>, s: C, e: nat, child: nat, pn: nat, n: nat) returns (acts': seq<Act>)
    requires Looped(s0, acts, s, e, child, pn, n) && pn <= UXP
    ensures e in s.th && s.th[e].fork.Looping?
    ensures Looped(s0, acts', DupBoth(s, e, n), e, child, pn + 1, n)
    ensures pn == UXP ==>
              && DupBoth(s, e, n).vm == s.vm[Key(child, UXP) := Entry(n, URW)]
              && DupBoth(s, e, n).data == s.data[n := Zeros()]
    ensures pn < UXP && UserPresent(s, e, pn) ==>
              DupBoth(s, e, n).vm == DupBoth(s, e, 0).vm && DupBoth(s, e, n).data == s.data
    ensures pn < UXP && !UserPresent(s, e, pn) ==> DupBoth(s, e, n).vm == s.vm && DupBoth(s, e, n).data == s.data
  {
    hide Inv, Leads, AllForked, DupBoth, Fresh;
    acts' := TurnRun(s0, acts, s, e, child, pn, n);
    TurnControl(s, e, child, pn, n);
    TurnTable(s0, s, e, child, pn, n);
  }

  lemma TurnRun(s0: C, acts: seq<Act>, s: C, e: nat, child: nat, pn: nat, n: nat) returns (acts': seq<Act>)
    requires Leads(s0, acts, s) && Inv(s) && Awake(s, e) && s.th[e] == Thread(NoFault, Looping(child, pn))
    requires pn <= UXP && Fresh(s, n)
    ensures Leads(s0, acts', DupBoth(s, e, n)) && Inv(DupBoth(s, e, n))
  {
    hide Inv, Leads;
    var s1 := DoDupChild(s, e, n);
    assert Enabled(s, DupChild(e, n));
    LeadsFurther(s0, acts, s, DupChild(e, n));
    StepInv(s, DupChild(e, n));
    acts' := acts + [DupChild(e, n)];
    if s1.th[e].fork.ChildMapped? {
      assert Enabled(s1, DupParent(e));
      LeadsFurther(s0, acts', s1, DupParent(e));
      StepInv(s1, DupParent(e));
      acts' := acts' + [DupParent(e)];
    }
  }

  lemma TurnControl(s: C, e: nat, child: nat, pn: nat, n: nat)
    requires Inv(s) && Awake(s, e) && s.th[e] == Thread(NoFault, Looping(child, pn))
    requires child in s.th && child != e && pn <= UXP && Fresh(s, n)
    ensures var s' := DupBoth(s, e, n);
            && Awake(s', e) && s'.th[e] == Thread(NoFault, Looping(child, pn + 1)) && child in s'.th
            && (pn < UXP ==> Fresh(s', n) && s'.data == s.data)
            && (pn < UXP && UserPresent(s, e, pn) ==> s'.vm == DupBoth(s, e, 0).vm)
            && (pn < UXP && !UserPresent(s, e, pn) ==> s'.vm == s.vm)
            && (pn == UXP ==> s'.vm == s.vm[Key(child, UXP) := Entry(n, URW)] && s'.data == s.data[n := Zeros()])
  {
    hide Private;
    assert ThreadOk(s, e);
  }

  lemma TurnAt(s0: C, s: C, e: nat, child: nat, pn: nat, n: nat, k: Key)
    requires Inv(s) && Shape(s0) && child != e && pn <= UXP && k != Key(child, UXP)
    requires Awake(s, e) && s.th[e] == Thread(NoFault, Looping(child, pn)) && child in s.th && child !in s0.th
    requires Forked(s0, s, e, child, pn, k) && Forked(s0, s, e, child, pn, Key(e, pn))
    ensures Forked(s0, DupBoth(s, e, n), e, child, if pn < UXP then pn + 1 else UXP, k)
  {
    hide Private;
    assert ThreadOk(s, e);
  }

  lemma TurnTable(s0: C, s: C, e: nat, child: nat, pn: nat, n: nat)
    requires Inv(s) && Inv(s0) && child != e && pn <= UXP
    requires Awake(s, e) && s.th[e] == Thread(NoFault, Looping(child, pn)) && child in s.th && child !in s0.th
    requires AllForked(s0, s, e, child, pn)
    ensures AllForked(s0, DupBoth(s, e, n), e, child, if pn < UXP then pn + 1 else UXP)
  {
    hide Forked, Shape, Private, DupBoth;
    var s', next := DupBoth(s, e, n), if pn < UXP then pn + 1 else UXP;
    forall k | k != Key(child, UXP)
      ensures Forked(s0, s', e, child, next, k)
    {
      assert Forked(s0, s, e, child, pn, k) && Forked(s0, s, e, child, pn, Key(e, pn));
      TurnAt(s0, s, e, child, pn, n, k);
    }
  }

  lemma ForkFinished(s0: C, acts: seq<Act>, s: C, e: nat, child: nat, n: nat) returns (acts': seq<Act>)
    requires Looped(s0, acts, s, e, child, UXP + 1, n)
    ensures Enabled(s, ForkEnd(e))
    ensures var s' := Do(s, ForkEnd(e));
            && s'.vm == s.vm && s'.data == s.data == s0.data[n := Zeros()]
            && Leads(s0, acts', s') && Inv(s') && Awake(s', child)
            && AllForked(s0, s', e, child, UXP)
            && Key(child, UXP) in s'.vm && s'.vm[Key(child, UXP)] == Entry(n, URW)
  {
    acts' := acts + [ForkEnd(e)];
    LeadsFurther(s0, acts, s, ForkEnd(e));
    StepInv(s, ForkEnd(e));
    var s' := Do(s, ForkEnd(e));
    forall k | k != Key(child, UXP)
      ensures Forked(s0, s', e, child, UXP, k)
    {
      assert Forked(s0, s, e, child, UXP, k);
    }
  }

  /** Page u of the child is a writable copy of the parent's. */
  ghost predicate CopyOf(s0: C, s: C, e: nat, child: nat, u: nat) {
    && Key(child, u) in s.vm && Key(e, u) in s0.vm && s.vm[Key(child, u)].perm == URW
    && Page(s, Key(child, u)) == Page(s0, Key(e, u))
  }

  ghost predicate SameAt(s0: C, s: C, k: Key) {
    (k in s.vm <==> k in s0.vm) && (k in s.vm ==> s.vm[k] == s0.vm[k] && Page(s, k) == Page(s0, k))
  }

  /** The pages vs of the child hold what the parent's held; nothing else changed but UTEMP. */
  ghost predicate Duplicated(s0: C, s: C, e: nat, child: nat, vs: set<nat>) {
    && (forall u :: u in vs ==> CopyOf(s0, s, e, child, u))
    && (forall k :: k != Key(e, UT) && !(k.e == child && k.v in vs) ==> SameAt(s0, s, k))
  }

  lemma StartDuplicated(s: C, e: nat, child: nat)
    ensures Duplicated(s, s, e, child, {})
  {
  }

  lemma SamePages(s0: C, s: C, s': C, e: nat, child: nat, vs: set<nat>)
    requires Duplicated(s0, s, e, child, vs) && s'.vm == s.vm && s'.data == s.data
    ensures Duplicated(s0, s', e, child, vs)
  {
    assert forall k :: Page(s', k) == Page(s, k);
    forall k | k != Key(e, UT) && !(k.e == child && k.v in vs)
      ensures SameAt(s0, s', k)
    {
      assert SameAt(s0, s, k);
    }
    forall u | u in vs
      ensures CopyOf(s0, s', e, child, u)
    {
      assert CopyOf(s0, s, e, child, u);
    }
  }

  lemma SourceKept(s0: C, s: C, e: nat, child: nat, vs: set<nat>, v: nat)
    requires Duplicated(s0, s, e, child, vs) && Key(e, v) in s0.vm && v != UT && child != e
    ensures Key(e, v) in s.vm && Page(s, Key(e, v)) == Page(s0, Key(e, v))
  {
    assert SameAt(s0, s, Key(e, v));
  }

  /** s' is s after one eager copy. */
  ghost predicate Eager(s: C, s': C, e: nat, child: nat, v: nat, n: nat) {
    && Key(e, v) in s.vm && Fresh(s, n)
    && s' == s.(vm := s.vm[Key(child, v) := Entry(n, URW)] - {Key(e, UT)}, data := s.data[n := Page(s, Key(e, v))])
  }

  lemma EagerPage(s: C, s': C, e: nat, child: nat, v: nat, n: nat)
    requires Shape(s) && Eager(s, s', e, child, v, n) && child in s.th
    ensures Shape(s')
    ensures forall k :: k in s'.vm ==> Page(s', k) == if k == Key(child, v) then Page(s, Key(e, v)) else Page(s, k)
  {
    forall k | k in s'.vm
      ensures Page(s', k) == if k == Key(child, v) then Page(s, Key(e, v)) else Page(s, k)
    {
    }
  }

  lemma NextDuplicated(s0: C, s: C, s': C, e: nat, child: nat, vs: set<nat>, v: nat, n: nat)
    requires Shape(s) && Duplicated(s0, s, e, child, vs) && Eager(s, s', e, child, v, n)
    requires Key(e, v) in s0.vm && UT < v && v !in vs && child != e && child in s.th
    ensures Shape(s') && Duplicated(s0, s', e, child, vs + {v})
  {
    hide Page, Shape, Fresh;
    EagerPage(s, s', e, child, v, n);
    assert SameAt(s0, s, Key(e, v));
    forall u | u in vs + {v}
      ensures CopyOf(s0, s', e, child, u)
    {
      assert u != v ==> CopyOf(s0, s, e, child, u);
      assert Key(child, u) in s'.vm;
    }
    forall k | k != Key(e, UT) && !(k.e == child && k.v in vs + {v})
      ensures SameAt(s0, s', k)
    {
      assert SameAt(s0, s, k);
      assert k in s'.vm <==> k in s.vm;
    }
  }

  lemma StillFresh(s: C, s': C, k: Key, n: nat, m: nat)
    requires Fresh(s, m) && m != n && forall q :: q in s'.vm ==>
              (q == k && s'.vm[q].ppn == n) || (q in s.vm && s'.vm[q] == s.vm[q])
    ensures Fresh(s', m)
  {
  }

  lemma CowPermForm(p: Perm)
    ensures p + {PTE_COW} - {PTE_W} + {PTE_P} == CowPerm(p)
  {
  }

  lemma EagerPages(s: C, e: nat, child: nat, v: nat, n: nat)
    requires Shape(s) && Key(e, v) in s.vm && v != UT && child != e && Fresh(s, n)
    ensures var s' := s.(vm := s.vm[Key(child, v) := Entry(n, URW)] - {Key(e, UT)},
                         data := s.data[n := Page(s, Key(e, v))]);
            Pages(s') == SpecStep(Pages(s), Copy(Key(e, v), Key(child, v))) - {Key(e, UT)}
  {
    var s' := s.(vm := s.vm[Key(child, v) := Entry(n, URW)] - {Key(e, UT)}, data := s.data[n := Page(s, Key(e, v))]);
    forall k | k in s'.vm
      ensures Page(s', k) == if k == Key(child, v) then Page(s, Key(e, v)) else Page(s, k)
    {
    }
  }

  // ----- lazy and eager copies -----

  /** After fork the child's pages hold what the parent's held, and neither side can write them in place. */
  lemma ForkedPages(s0: C, s: C, e: nat, child: nat, n: nat, v: nat)
    requires Inv(s0) && Fresh(s0, n) && AllForked(s0, s, e, child, UXP) && s.data == s0.data[n := Zeros()]
    requires v < UXP && UserPresent(s0, e, v)
    ensures var c, p := Key(child, v), Key(e, v);
            && c in s.vm && p in s.vm && !Writable(s.vm[c]) && !Writable(s.vm[p])
            && Page(s, c) == Page(s0, p) && Page(s, p) == Page(s0, p)
  {
    hide Private;
    assert Forked(s0, s, e, child, UXP, Key(child, v)) && Forked(s0, s, e, child, UXP, Key(e, v));
  }

  /** fork and dumbfork, called in the same state, leave the child the same contents in every page that both
      duplicate. */
  lemma LazyLikeEager(s0: C, lazy: C, eager: C, e: nat, child: nat, n: nat, vs: set<nat>, v: nat)
    requires Inv(s0) && Fresh(s0, n) && AllForked(s0, lazy, e, child, UXP) && lazy.data == s0.data[n := Zeros()]
    requires Duplicated(s0, eager, e, child, vs) && v in vs && v < UXP && UserPresent(s0, e, v)
    ensures Key(child, v) in lazy.vm && Key(child, v) in eager.vm
    ensures Page(lazy, Key(child, v)) == Page(eager, Key(child, v))
  {
    hide Inv, AllForked, Page;
    ForkedPages(s0, lazy, e, child, n, v);
    assert CopyOf(s0, eager, e, child, v);
  }

  /** A state to start from: nothing in progress, and every page mapped once. */
  lemma StartOk(s: C)
    requires forall k :: k in s.vm ==>
              k.e in s.th && k.v != PFT && Present(s.vm[k]) && PTE_COW !in s.vm[k].perm && s.vm[k].ppn in s.data
    requires forall n :: n in s.data ==> |s.data[n]| == PGSIZE
    requires forall e :: e in s.th ==> s.th[e] == Thread(NoFault, NoFork)
    requires s.embryo == map[] && s.shared == {}
    requires forall k, q :: k in s.vm && q in s.vm && s.vm[k].ppn == s.vm[q].ppn ==> k == q
    ensures Inv(s) && DomainOk(s) && Agrees(s, Pages(s))
  {
  }

  /** Every run keeps both invariants of module Cow. */
  lemma {:induction false} RunKeeps(s: C, acts: seq<Act>)
    requires Inv(s) && DomainOk(s) && CanRun(s, acts)
    ensures Inv(After(s, acts)) && DomainOk(After(s, acts))
    decreases |acts|
  {
    hide Inv, DomainOk, Enabled, Do;
    if acts != [] {
      StepInv(s, acts[0]);
      StepDomain(s, acts[0]);
      RunKeeps(Do(s, acts[0]), acts[1..]);
    }
  }

  /** In every interleaving, whenever a fork makes its child runnable, the child has exactly the parent's user pages
      below the exception stack, and an exception stack of its own. */
  lemma ForkCompleteInRuns(s: C, acts: seq<Act>, e: nat)
    requires Inv(s) && DomainOk(s) && CanRun(s, acts) && Enabled(After(s, acts), ForkEnd(e))
    ensures var z := After(s, acts); var c := z.th[e].fork.child;
            && Key(c, UXP) in z.vm
            && (forall v: nat :: v < UXP ==> (Key(c, v) in z.vm <==> UserPresent(z, e, v)))
  {
    hide Inv, DomainOk;
    RunKeeps(s, acts);
    ForkComplete(After(s, acts), e);
  }
}
