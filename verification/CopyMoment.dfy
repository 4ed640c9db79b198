/**
  The moment whose contents a forked child sees (duppage of lib/fork.c): the second map if the parent's page was
  writable, and only then.
*/
module CopyMoment {
  import opened Mmu
  import opened Cow
  import opened ForkCode

  /** Steps of any process, of which e neither takes the second map of duppage nor exits. */
  ghost predicate OnTheWay(acts: seq<Act>, e: nat) {
    forall i :: 0 <= i < |acts| && acts[i].e == e ==> !acts[i].DupParent? && !acts[i].Exit?
  }

  /** The next page that e's fork duplicates is a user page that is writable or copy-on-write. */
  ghost predicate Duplicates(s: C, e: nat, n: nat) {
    && Enabled(s, DupChild(e, n)) && s.th[e].fork.pn != UXP
    && var x := Entry0(s, Key(e, s.th[e].fork.pn));
       Present(x) && PTE_U in x.perm && (Writable(x) || PTE_COW in x.perm)
  }

  /** However the run goes on from the first map, at the second one child and parent hold the same contents. */
  ghost predicate SameAtSecondMap(s: C, e: nat, n: nat)
    requires Enabled(s, DupChild(e, n))
  {
    var c, pn, s1 := s.th[e].fork.child, s.th[e].fork.pn, Do(s, DupChild(e, n));
    forall acts: seq<Act> :: CanRun(s1, acts) && OnTheWay(acts, e) && Enabled(After(s1, acts), DupParent(e)) ==>
      Page(After(s1, acts), Key(c, pn)) == Page(After(s1, acts), Key(e, pn))
  }

  // ----- a writable page -----

  lemma ForkStays(s: C, a: Act, e: nat)
    requires Enabled(s, a) && e in s.th && s.th[e].fork.ChildMapped? && OnTheWay([a], e)
    ensures e in Do(s, a).th && Do(s, a).th[e].fork == s.th[e].fork
  {
    assert [a][0] == a;
  }

  lemma {:induction false} RunStays(s: C, acts: seq<Act>, e: nat)
    requires Inv(s) && CanRun(s, acts) && e in s.th && s.th[e].fork.ChildMapped? && OnTheWay(acts, e)
    ensures var z := After(s, acts); Inv(z) && e in z.th && z.th[e].fork == s.th[e].fork
    decreases |acts|
  {
    hide Inv, Enabled, Do;
    if acts != [] {
      assert OnTheWay([acts[0]], e) && OnTheWay(acts[1..], e);
      StepInv(s, acts[0]);
      ForkStays(s, acts[0], e);
      RunStays(Do(s, acts[0]), acts[1..], e);
    }
  }

  lemma FirstMap(s: C, e: nat, n: nat)
    requires Inv(s) && Duplicates(s, e, n)
    ensures var s1 := Do(s, DupChild(e, n)); var c, pn := s.th[e].fork.child, s.th[e].fork.pn;
            var x := Entry0(s, Key(e, pn));
            && Inv(s1) && e in s1.th && s1.th[e] == Thread(NoFault, ChildMapped(c, pn, Writable(x)))
            && s1.vm == s.vm[Key(c, pn) := Entry(x.ppn, CowPerm(x.perm))]
            && s1.data == s.data && Awake(s1, e) && c != e && pn != PFT
  {
    hide Private;
    StepInv(s, DupChild(e, n));
    assert ThreadOk(s, e);
  }

  lemma WritableSame(s: C, e: nat, n: nat, acts: seq<Act>)
    requires Inv(s) && Duplicates(s, e, n) && Writable(Entry0(s, Key(e, s.th[e].fork.pn)))
    requires CanRun(Do(s, DupChild(e, n)), acts) && OnTheWay(acts, e)
    requires Enabled(After(Do(s, DupChild(e, n)), acts), DupParent(e))
    ensures var z := After(Do(s, DupChild(e, n)), acts);
            Page(z, Key(s.th[e].fork.child, s.th[e].fork.pn)) == Page(z, Key(e, s.th[e].fork.pn))
  {
    hide Inv, Do, After, CanRun, Page;
    var s1 := Do(s, DupChild(e, n));
    FirstMap(s, e, n);
    RunStays(s1, acts, e);
    CopyInstant(After(s1, acts), e);
  }

  // ----- a page that already was copy-on-write -----

  lemma {:induction false} Bound(xs: set<nat>) returns (n: nat)
    ensures forall x :: x in xs ==> x < n
    decreases |xs|
  {
    if xs == {} {
      n := 0;
    } else {
      var x :| x in xs;
      var m := Bound(xs - {x});
      n := if x < m then m else x + 1;
      assert forall y :: y in xs ==> y == x || y in xs - {x};
    }
  }

  lemma FreshExists(s: C) returns (n: nat)
    ensures Fresh(s, n)
  {
    var xs := set k | k in s.vm :: s.vm[k].ppn;
    n := Bound(xs);
    assert forall k :: k in s.vm ==> s.vm[k].ppn in xs;
  }

  lemma OneMore(acts: seq<Act>, a: Act, e: nat)
    requires OnTheWay(acts, e) && (a.e == e ==> !a.DupParent? && !a.Exit?)
    ensures OnTheWay(acts + [a], e)
  {
  }

  /** pgfault of e on page v, up to the i-th byte. */
  lemma {:induction false} CopiesRun(s0: C, e: nat, v: nat, n: nat, i: nat) returns (acts: seq<Act>, s: C)
    requires Inv(s0) && Enabled(s0, FaultAlloc(e, v, n)) && i <= PGSIZE
    ensures Leads(s0, acts, s) && CopyState(s0, s, e, v, n, i) && OnTheWay(acts, e)
    decreases i
  {
    hide Inv, Enabled, Do, CopyState, Leads, OnTheWay;
    if i == 0 {
      assert Leads(s0, [], s0) && OnTheWay([], e) by {
        NothingYet(s0, e);
      }
      acts, s := [] + [FaultAlloc(e, v, n)], Do(s0, FaultAlloc(e, v, n));
      LeadsFurther(s0, [], s0, FaultAlloc(e, v, n));
      OneMore([], FaultAlloc(e, v, n), e);
      CopyStart(s0, e, v, n);
    } else {
      var acts0, z := CopiesRun(s0, e, v, n, i - 1);
      CopyByte(s0, z, e, v, n, i - 1);
      LeadsFurther(s0, acts0, z, FaultCopy(e));
      OneMore(acts0, FaultCopy(e), e);
      acts, s := acts0 + [FaultCopy(e)], Do(z, FaultCopy(e));
    }
  }

  lemma NothingYet(s: C, e: nat)
    ensures Leads(s, [], s) && OnTheWay([], e)
  {
  }

  /** A whole pgfault, then a store to the page's first byte. */
  lemma FaultAndStore(s0: C, e: nat, v: nat, n: nat) returns (acts: seq<Act>, z: C)
    requires Inv(s0) && Enabled(s0, FaultAlloc(e, v, n))
    ensures Leads(s0, acts, z) && OnTheWay(acts, e) && z.th == s0.th && z.embryo == s0.embryo
    ensures z.vm == s0.vm[Key(e, v) := Entry(n, URW)]
    ensures |Page(s0, Key(e, v))| == PGSIZE
    ensures z.data == s0.data[n := Page(s0, Key(e, v))[0 := Page(s0, Key(e, v))[0] + 1]]
  {
    hide Inv, Do, CopyState, Leads, OnTheWay, Page, Enabled;
    var acts0, s := CopiesRun(s0, e, v, n, PGSIZE);
    CopyLast(s0, s, e, v, n);
    var s2, s3 := Do(s, FaultMap(e)), Do(Do(s, FaultMap(e)), FaultUnmap(e));
    LeadsFurther(s0, acts0, s, FaultMap(e));
    OneMore(acts0, FaultMap(e), e);
    var acts1 := acts0 + [FaultMap(e)];
    LeadsFurther(s0, acts1, s2, FaultUnmap(e));
    OneMore(acts1, FaultUnmap(e), e);
    var acts2 := acts1 + [FaultUnmap(e)];
    FaultStillAwake(s0, e, v, n);
    PageLength(s0, Key(e, v));
    var a := Write(e, v, 0, Page(s0, Key(e, v))[0] + 1);
    StoreAfter(s0, s3, e, v, n);
    LeadsFurther(s0, acts2, s3, a);
    OneMore(acts2, a, e);
    acts, z := acts2 + [a], Do(s3, a);
  }

  lemma FaultStillAwake(s: C, e: nat, v: nat, n: nat)
    requires Enabled(s, FaultAlloc(e, v, n))
    ensures Awake(s, e) && v != PFT
  {
  }

  lemma PageLength(s: C, k: Key)
    ensures |Page(s, k)| == PGSIZE
  {
  }

  lemma StoreAfter(s0: C, s: C, e: nat, v: nat, n: nat)
    requires Awake(s0, e) && v != PFT && s.th == s0.th && s.embryo == s0.embryo && |Page(s0, Key(e, v))| == PGSIZE
    requires s.vm == s0.vm[Key(e, v) := Entry(n, URW)] && s.data == s0.data[n := Page(s0, Key(e, v))]
    ensures var a := Write(e, v, 0, Page(s0, Key(e, v))[0] + 1);
            && Enabled(s, a) && Do(s, a).th == s.th && Do(s, a).embryo == s.embryo && Do(s, a).vm == s.vm
            && Do(s, a).data == s0.data[n := Page(s0, Key(e, v))[0 := Page(s0, Key(e, v))[0] + 1]]
  {
  }

  /** The parent faults on the page and writes its new copy between the two maps; the child keeps the old contents. */
  lemma EarlyCopyRun(s: C, e: nat, n: nat) returns (acts: seq<Act>)
    requires Inv(s) && Duplicates(s, e, n) && !Writable(Entry0(s, Key(e, s.th[e].fork.pn)))
    ensures CanRun(Do(s, DupChild(e, n)), acts) && OnTheWay(acts, e)
    ensures var z := After(Do(s, DupChild(e, n)), acts);
            && Enabled(z, DupParent(e))
            && Page(z, Key(s.th[e].fork.child, s.th[e].fork.pn)) != Page(z, Key(e, s.th[e].fork.pn))
  {
    hide Inv, Do, Page, OnTheWay;
    var c, pn := s.th[e].fork.child, s.th[e].fork.pn;
    FirstMap(s, e, n);
    var s1 := Do(s, DupChild(e, n));
    var m := FreshExists(s1);
    assert Enabled(s1, FaultAlloc(e, pn, m));
    var z;
    acts, z := FaultAndStore(s1, e, pn, m);
    DifferentPages(s1, z, Key(c, pn), Key(e, pn), m);
  }

  lemma DifferentPages(s: C, z: C, k: Key, q: Key, n: nat)
    requires Fresh(s, n) && k in s.vm && q in s.vm && k != q && s.vm[k].ppn == s.vm[q].ppn && |Page(s, q)| == PGSIZE
    requires z.vm == s.vm[q := Entry(n, URW)] && z.data == s.data[n := Page(s, q)[0 := Page(s, q)[0] + 1]]
    ensures Page(z, k) != Page(z, q)
  {
    assert Page(z, k) == Page(s, k) == Page(s, q);
    assert Page(z, q)[0] != Page(s, q)[0];
  }

  /**
    For every page a fork duplicates copy-on-write: the child gets the contents at the second map, whatever any process
    does between the two, exactly if the parent's page was writable at the first.
  */
  lemma CopyMomentIff(s: C, e: nat, n: nat)
    requires Inv(s) && Duplicates(s, e, n)
    ensures SameAtSecondMap(s, e, n) <==> Writable(Entry0(s, Key(e, s.th[e].fork.pn)))
  {
    hide Inv, Do, After, CanRun, Page, Duplicates, OnTheWay;
    StillEnabled(s, e, n);
    var c, pn, s1 := s.th[e].fork.child, s.th[e].fork.pn, Do(s, DupChild(e, n));
    if Writable(Entry0(s, Key(e, pn))) {
      forall acts: seq<Act> | CanRun(s1, acts) && OnTheWay(acts, e) && Enabled(After(s1, acts), DupParent(e))
        ensures Page(After(s1, acts), Key(c, pn)) == Page(After(s1, acts), Key(e, pn))
      {
        WritableSame(s, e, n, acts);
      }
    } else {
      var acts := EarlyCopyRun(s, e, n);
      assert CanRun(s1, acts);
    }
  }

  lemma StillEnabled(s: C, e: nat, n: nat)
    requires Duplicates(s, e, n)
    ensures Enabled(s, DupChild(e, n))
  {
  }
}
