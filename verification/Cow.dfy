/**
  Copy-on-write fork (lib/fork.c) against the eager copy of user/dumbfork.c.

  The implementation is a set of address spaces over shared physical pages, changed by one
  system call, one copied byte or one user access at a time, in any interleaving of any
  number of processes.  The specification gives every process its own copy of every page;
  fork copies a page outright.  Pages that processes deliberately share by mapping them
  writably into each other are tracked, and the specification is silent about them.
*/
module Cow {
  import opened Mmu

  type Data = seq<int>

  datatype Key = Key(e: nat, v: nat)

  const PFT: nat := PGNUM(PFTEMP)
  const UXP: nat := PGNUM(UXSTACKBASE)
  const URW: Perm := {PTE_P, PTE_U, PTE_W}

  /** pgfault in progress: bytes copied so far, or the new page mapped in place. */
  datatype Fault = NoFault | Copying(v: nat, n: nat) | Remapped(v: nat)

  /** fork in progress: at page pn, or between the two maps of duppage; `late` records that the
      parent's entry was writable when the child was mapped. */
  datatype Fork = NoFork | Looping(child: nat, pn: nat) | ChildMapped(child: nat, pn: nat, late: bool)

  datatype Thread = Thread(fault: Fault, fork: Fork)

  /**
    vm      present table entries of every process
    data    contents of physical pages
    th      control state of every process
    embryo  children not yet runnable, with their parent
    shared  virtual pages that are, or were inherited as, deliberately shared
  */
  datatype C = C(
    vm: map<Key, Entry>, data: map<nat, Data>, th: map<nat, Thread>, embryo: map<nat, nat>, shared: set<Key>)

  datatype Act =
    | Write(e: nat, v: nat, off: nat, val: int)
    | Read(e: nat, v: nat, off: nat)
    | FaultAlloc(e: nat, v: nat, n: nat)
    | FaultCopy(e: nat)
    | FaultMap(e: nat)
    | FaultUnmap(e: nat)
    | ForkStart(e: nat, c: nat)
    | DupChild(e: nat, n: nat)
    | DupParent(e: nat)
    | ForkEnd(e: nat)
    | Alloc(e: nat, v: nat, perm: Perm, n: nat)
    | Unmap(e: nat, v: nat)
    | Share(e: nat, v: nat, dst: Key, perm: Perm)
    | Exit(e: nat)

  // ----- the implementation -----

  function Zeros(): (d: Data)
    ensures |d| == PGSIZE
  {
    seq(PGSIZE, _ => 0)
  }

  predicate Writable(x: Entry) {
    PTE_W in x.perm
  }

  /** The permission duppage gives both sides of a shared page. */
  function CowPerm(p: Perm): Perm {
    p + {PTE_P, PTE_COW} - {PTE_W}
  }

  /** page_alloc hands out a page that nothing maps. */
  ghost predicate Fresh(s: C, n: nat) {
    forall k :: k in s.vm ==> s.vm[k].ppn != n
  }

  /** A process that may execute user code: live, and not an embryo. */
  predicate Awake(s: C, e: nat) {
    e in s.th && e !in s.embryo
  }

  ghost predicate Enabled(s: C, a: Act) {
    && Awake(s, a.e)
    && var t := s.th[a.e];
       match a
       case Write(e, v, off, _) =>
         v != PFT && Key(e, v) in s.vm && {PTE_U, PTE_W} <= s.vm[Key(e, v)].perm && off < PGSIZE
       case Read(e, v, off) => v != PFT && Key(e, v) in s.vm && PTE_U in s.vm[Key(e, v)].perm && off < PGSIZE
       case FaultAlloc(e, v, n) =>
         && t.fault.NoFault? && v != PFT && Key(e, v) in s.vm && Fresh(s, n)
         && PTE_COW in s.vm[Key(e, v)].perm && !Writable(s.vm[Key(e, v)])
       case FaultCopy(e) => t.fault.Copying? && t.fault.n < PGSIZE
       case FaultMap(e) => t.fault.Copying? && t.fault.n == PGSIZE
       case FaultUnmap(e) => t.fault.Remapped?
       case ForkStart(e, c) => t.fault.NoFault? && t.fork.NoFork? && c !in s.th
       case DupChild(e, n) => t.fault.NoFault? && t.fork.Looping? && t.fork.pn <= UXP && Fresh(s, n)
       case DupParent(e) => t.fault.NoFault? && t.fork.ChildMapped?
       case ForkEnd(e) => t.fault.NoFault? && t.fork.Looping? && t.fork.pn > UXP
       case Alloc(e, v, perm, n) => t.fault.NoFault? && t.fork.NoFork? && v != PFT && PTE_COW !in perm && Fresh(s, n)
       case Unmap(e, v) => t.fault.NoFault? && t.fork.NoFork? && v != PFT
       case Share(e, v, dst, perm) =>
         && t.fault.NoFault? && t.fork.NoFork? && v != PFT && Key(e, v) in s.vm
         && Awake(s, dst.e) && s.th[dst.e] == Thread(NoFault, NoFork) && dst.v != PFT
         && (PTE_W in perm ==> Writable(s.vm[Key(e, v)])) && (PTE_COW in perm ==> PTE_U in perm)
       case Exit(e) => true
  }

  function Entry0(s: C, k: Key): Entry {
    if k in s.vm then s.vm[k] else ZERO
  }

  function Page(s: C, k: Key): Data {
    if k in s.vm && s.vm[k].ppn in s.data && |s.data[s.vm[k].ppn]| == PGSIZE then s.data[s.vm[k].ppn] else Zeros()
  }

  function SetFault(s: C, e: nat, f: Fault): C
    requires e in s.th
  {
    s.(th := s.th[e := s.th[e].(fault := f)])
  }

  function SetFork(s: C, e: nat, f: Fork): C
    requires e in s.th
  {
    s.(th := s.th[e := s.th[e].(fork := f)])
  }

  function Map(s: C, k: Key, x: Entry): C {
    s.(vm := s.vm[k := x])
  }

  function Store(s: C, n: nat, d: Data): C {
    s.(data := s.data[n := d])
  }

  function Own(s: C, k: Key): C {
    s.(shared := s.shared - {k})
  }

  /** A page mapped from another key is deliberately shared if the other one is. */
  function Inherit(s: C, src: Key, dst: Key): C {
    s.(shared := if src in s.shared then s.shared + {dst} else s.shared - {dst})
  }

  /** sys_page_map of a page by its process, outside fork and pgfault: a writable page becomes shared. */
  function DoShare(s: C, src: Key, dst: Key, perm: Perm): C
    requires src in s.vm
  {
    var s1 := if src == dst then s
              else if Writable(s.vm[src]) then s.(shared := s.shared + {src, dst})
              else Inherit(s, src, dst);
    Map(s1, dst, Entry(s.vm[src].ppn, perm + {PTE_P}))
  }

  /** One turn of fork's loop, up to the first system call that changes a mapping. */
  function DoDupChild(s: C, e: nat, n: nat): C
    requires e in s.th && s.th[e].fork.Looping?
  {
    var c, pn := s.th[e].fork.child, s.th[e].fork.pn;
    var x := Entry0(s, Key(e, pn));
    var next := Looping(c, pn + 1);
    var s1 := Inherit(s, Key(e, pn), Key(c, pn));
    if pn == UXP then SetFork(Map(Store(Own(s, Key(c, pn)), n, Zeros()), Key(c, pn), Entry(n, URW)), e, next)
    else if !Present(x) || PTE_U !in x.perm then SetFork(s, e, next)
    else if !Writable(x) && PTE_COW !in x.perm then SetFork(Map(s1, Key(c, pn), x), e, next)
    else SetFork(Map(s1, Key(c, pn), Entry(x.ppn, CowPerm(x.perm))), e, ChildMapped(c, pn, Writable(x)))
  }

  function DoDupParent(s: C, e: nat): C
    requires e in s.th && s.th[e].fork.ChildMapped?
  {
    var f := s.th[e].fork;
    var x := Entry0(s, Key(e, f.pn));
    SetFork(Map(s, Key(e, f.pn), Entry(x.ppn, CowPerm(x.perm))), e, Looping(f.child, f.pn + 1))
  }

  function Do(s: C, a: Act): C
    requires Enabled(s, a)
  {
    var e := a.e;
    match a
    case Write(_, v, off, val) => Store(s, s.vm[Key(e, v)].ppn, Page(s, Key(e, v))[off := val])
    case Read(_, _, _) => s
    case FaultAlloc(_, v, n) => SetFault(Map(Store(s, n, Zeros()), Key(e, PFT), Entry(n, URW)), e, Copying(v, 0))
    case FaultCopy(_) =>
      var f := s.th[e].fault;
      var k := Key(e, PFT);
      SetFault(Store(s, Entry0(s, k).ppn, Page(s, k)[f.n := Page(s, Key(e, f.v))[f.n]]), e, Copying(f.v, f.n + 1))
    case FaultMap(_) =>
      var f := s.th[e].fault;
      SetFault(Map(s, Key(e, f.v), Entry(Entry0(s, Key(e, PFT)).ppn, URW)), e, Remapped(f.v))
    case FaultUnmap(_) => SetFault(s.(vm := s.vm - {Key(e, PFT)}), e, NoFault)
    case ForkStart(_, c) =>
      SetFork(s.(th := s.th[c := Thread(NoFault, NoFork)], embryo := s.embryo[c := e]), e, Looping(c, 0))
    case DupChild(_, n) => DoDupChild(s, e, n)
    case DupParent(_) => DoDupParent(s, e)
    case ForkEnd(_) => SetFork(s.(embryo := s.embryo - {s.th[e].fork.child}), e, NoFork)
    case Alloc(_, v, perm, n) => Map(Store(Own(s, Key(e, v)), n, Zeros()), Key(e, v), Entry(n, perm + {PTE_P}))
    case Unmap(_, v) => s.(vm := s.vm - {Key(e, v)})
    case Share(_, v, dst, perm) => DoShare(s, Key(e, v), dst, perm)
    case Exit(_) => s.(vm := map k | k in s.vm && k.e != e :: s.vm[k], th := s.th - {e})
  }

  // ----- the specification: every process has its own pages -----

  type View = map<Key, Data>

  datatype Event =
    | Nothing
    | Peek(k: Key, off: nat)
    | Poke(k: Key, off: nat, val: int)
    | Zero(k: Key)
    | Copy(src: Key, dst: Key)
    | Drop(k: Key)
    | DropAll(e: nat)

  function SpecStep(w: View, v: Event): View {
    match v
    case Nothing => w
    case Peek(_, _) => w
    case Poke(k, off, val) => if k in w && off < |w[k]| then w[k := w[k][off := val]] else w
    case Zero(k) => w[k := Zeros()]
    case Copy(src, dst) => if src in w then w[dst := w[src]] else w
    case Drop(k) => w - {k}
    case DropAll(e) => map k | k in w && k.e != e :: w[k]
  }

  /**
    The specification event of each implementation step.  A page is copied outright at the
    step after which the parent's entry is copy-on-write: the second map of duppage if the
    entry was writable, the first if it already was read-only or copy-on-write.
  */
  function EventOf(s: C, a: Act): Event
    requires Enabled(s, a)
  {
    match a
    case Write(e, v, off, val) => Poke(Key(e, v), off, val)
    case Read(e, v, off) => if Key(e, v) in s.shared then Nothing else Peek(Key(e, v), off)
    case DupChild(e, _) =>
      var c, pn := s.th[e].fork.child, s.th[e].fork.pn;
      var x := Entry0(s, Key(e, pn));
      if pn == UXP then Zero(Key(c, pn))
      else if Present(x) && PTE_U in x.perm && !Writable(x) then Copy(Key(e, pn), Key(c, pn))
      else Nothing
    case DupParent(e) =>
      var f := s.th[e].fork;
      if f.late then Copy(Key(e, f.pn), Key(f.child, f.pn)) else Nothing
    case Alloc(e, v, _, _) => Zero(Key(e, v))
    case Unmap(e, v) => Drop(Key(e, v))
    case Share(e, v, dst, _) => Copy(Key(e, v), dst)
    case Exit(e) => DropAll(e)
    case _ => Nothing
  }

  // ----- the invariant -----

  /** Key k is a child's page whose copy is deferred to the second map of duppage. */
  predicate Pending(s: C, k: Key) {
    && k.e in s.embryo && s.embryo[k.e] in s.th
    && s.th[s.embryo[k.e]].fork == ChildMapped(k.e, k.v, true)
  }

  /** An embryo whose parent is still forking it. */
  predicate Expected(s: C, c: nat) {
    && c in s.embryo && s.embryo[c] in s.th && !s.th[s.embryo[c]].fork.NoFork?
    && s.th[s.embryo[c]].fork.child == c
  }

  /** Keys whose contents the specification speaks about. */
  predicate Claimed(s: C, k: Key) {
    k in s.vm && k.v != PFT && k !in s.shared && (k.e in s.embryo ==> Expected(s, k.e) && !Pending(s, k))
  }

  ghost predicate Shape(s: C) {
    && (forall k :: k in s.vm ==> k.e in s.th && Present(s.vm[k]) && s.vm[k].ppn in s.data)
    && (forall k :: k in s.vm && PTE_COW in s.vm[k].perm ==> PTE_U in s.vm[k].perm)
    && (forall n :: n in s.data ==> |s.data[n]| == PGSIZE)
    && (forall c :: c in s.embryo ==> c in s.th && s.th[c] == Thread(NoFault, NoFork))
    && (forall e :: e in s.th && !s.th[e].fork.NoFork? ==>
          s.th[e].fork.child in s.embryo && s.embryo[s.th[e].fork.child] == e)
    && (forall k :: k in s.shared ==> k.v != PFT)
  }

  /** The temporary mapping exists exactly during a fault. */
  ghost predicate FaultOk(s: C, e: nat)
    requires e in s.th
  {
    match s.th[e].fault
    case NoFault => Key(e, PFT) !in s.vm
    case Copying(v, n) =>
      && v != PFT && n <= PGSIZE && Key(e, v) in s.vm && Key(e, PFT) in s.vm
      && !Writable(s.vm[Key(e, v)]) && PTE_U in s.vm[Key(e, v)].perm && Writable(s.vm[Key(e, PFT)])
      && (Key(e, v) !in s.shared ==> Page(s, Key(e, PFT))[..n] == Page(s, Key(e, v))[..n])
    case Remapped(v) =>
      && v != PFT && Key(e, v) in s.vm && Key(e, PFT) in s.vm && s.vm[Key(e, v)].ppn == s.vm[Key(e, PFT)].ppn
      && Writable(s.vm[Key(e, PFT)])
  }

  ghost predicate ForkOk(s: C, e: nat)
    requires e in s.th
  {
    match s.th[e].fork
    case ChildMapped(c, pn, late) =>
      && pn != PFT && Key(e, pn) in s.vm && PTE_U in s.vm[Key(e, pn)].perm
      && (late ==> Key(c, pn) in s.vm && s.vm[Key(c, pn)].ppn == s.vm[Key(e, pn)].ppn)
      && (late ==> Writable(s.vm[Key(e, pn)]) && !Writable(s.vm[Key(c, pn)]))
    case _ => true
  }

  ghost predicate ThreadOk(s: C, e: nat)
    requires e in s.th
  {
    FaultOk(s, e) && ForkOk(s, e)
  }

  /** The two keys of one process that share a page while pgfault has it mapped twice. */
  predicate FaultPair(s: C, k: Key, q: Key) {
    && k.e == q.e && k.e in s.th && s.th[k.e].fault.Remapped?
    && ((k.v == PFT && q.v == s.th[k.e].fault.v) || (q.v == PFT && k.v == s.th[k.e].fault.v))
  }

  ghost predicate PairOk(s: C, k: Key, q: Key) {
    k in s.vm && q in s.vm && k != q && s.vm[k].ppn == s.vm[q].ppn ==>
      && (k in s.shared && q.v != PFT ==> q in s.shared)
      && (Writable(s.vm[k]) ==>
            || (Pending(s, q) && k == Key(s.embryo[q.e], q.v)) || FaultPair(s, k, q)
            || (k in s.shared && q in s.shared))
  }

  /** A writable page is mapped once, except for a pending child, within one fault, or if deliberately
      shared; all mappings of a deliberately shared page are known as such. */
  ghost predicate Private(s: C) {
    forall k, q :: PairOk(s, k, q)
  }

  ghost predicate Inv(s: C) {
    Shape(s) && (forall e :: e in s.th ==> ThreadOk(s, e)) && Private(s)
  }

  ghost predicate Agrees(s: C, w: View) {
    forall k :: Claimed(s, k) ==> k in w && w[k] == Page(s, k)
  }


  lemma FaultShape(s: C, a: Act)
    requires Inv(s) && Enabled(s, a) && (a.FaultAlloc? || a.FaultMap? || a.FaultUnmap?)
    ensures Shape(Do(s, a))
  {
    hide PairOk, Private, ForkOk;
    assert ThreadOk(s, a.e);
  }

  lemma FaultThread(s: C, a: Act, e: nat)
    requires Shape(s) && Enabled(s, a) && (a.FaultAlloc? || a.FaultMap? || a.FaultUnmap?)
    requires e in s.th && ThreadOk(s, e) && ThreadOk(s, a.e)
    ensures e in Do(s, a).th ==> ThreadOk(Do(s, a), e)
  {
  }

  lemma FaultThreads(s: C, a: Act)
    requires Inv(s) && Enabled(s, a) && (a.FaultAlloc? || a.FaultMap? || a.FaultUnmap?)
    ensures var s' := Do(s, a); forall e :: e in s'.th ==> ThreadOk(s', e)
  {
    hide PairOk, Private, ThreadOk;
    var s' := Do(s, a);
    forall e | e in s'.th
      ensures ThreadOk(s', e)
    {
      if e in s.th {
        FaultThread(s, a, e);
      }
    }
  }

  lemma FaultPrivate(s: C, a: Act)
    requires Inv(s) && Enabled(s, a) && (a.FaultAlloc? || a.FaultMap? || a.FaultUnmap?)
    ensures Private(Do(s, a))
  {
    hide PairOk, ThreadOk, Shape, Do;
    assert ThreadOk(s, a.e);
    forall k, q
      ensures PairOk(Do(s, a), k, q)
    {
      assert PairOk(s, k, q) && PairOk(s, Key(a.e, PFT), q);
      assert PairOk(s, Key(a.e, PFT), k) && PairOk(s, k, Key(a.e, PFT));
      if a.FaultMap? {
        FaultMapPair(s, a, k, q);
      } else {
        FaultEndsPair(s, a, k, q);
      }
    }
  }

  lemma FaultMapPair(s: C, a: Act, k: Key, q: Key)
    requires Shape(s) && Enabled(s, a) && a.FaultMap? && ThreadOk(s, a.e) && PairOk(s, k, q)
    requires PairOk(s, Key(a.e, PFT), q) && PairOk(s, Key(a.e, PFT), k) && PairOk(s, k, Key(a.e, PFT))
    ensures PairOk(Do(s, a), k, q)
  {
  }

  lemma FaultEndsPair(s: C, a: Act, k: Key, q: Key)
    requires Shape(s) && Enabled(s, a) && (a.FaultAlloc? || a.FaultUnmap?) && ThreadOk(s, a.e) && PairOk(s, k, q)
    ensures PairOk(Do(s, a), k, q)
  {
  }

  lemma FaultAgrees(s: C, a: Act, w: View)
    requires Inv(s) && Enabled(s, a) && (a.FaultAlloc? || a.FaultMap? || a.FaultUnmap?) && Agrees(s, w)
    ensures Agrees(Do(s, a), SpecStep(w, EventOf(s, a)))
  {
    hide PairOk, Private;
  }

  lemma FaultCopyShape(s: C, a: Act)
    requires Inv(s) && Enabled(s, a) && a.FaultCopy?
    ensures Shape(Do(s, a))
  {
  }

  lemma FaultCopyThreads(s: C, a: Act)
    requires Inv(s) && Enabled(s, a) && a.FaultCopy?
    ensures var s' := Do(s, a); forall e :: e in s'.th ==> ThreadOk(s', e)
  {
    var p := Key(a.e, PFT);
    assert ThreadOk(s, a.e);
    forall k | k in s.vm
      ensures PairOk(s, p, k)
    {
    }
  }

  lemma FaultCopyPrivate(s: C, a: Act)
    requires Inv(s) && Enabled(s, a) && a.FaultCopy?
    ensures Private(Do(s, a))
  {
    var s' := Do(s, a);
    assert ThreadOk(s, a.e);
    forall k, q
      ensures PairOk(s', k, q)
    {
      assert PairOk(s, k, q);
    }
  }

  lemma FaultCopyAgrees(s: C, a: Act, w: View)
    requires Inv(s) && Enabled(s, a) && a.FaultCopy? && Agrees(s, w)
    ensures Agrees(Do(s, a), SpecStep(w, EventOf(s, a)))
  {
    var p := Key(a.e, PFT);
    assert ThreadOk(s, a.e);
    forall k | k in s.vm
      ensures PairOk(s, p, k)
    {
    }
  }

  lemma ForkShape(s: C, a: Act)
    requires Inv(s) && Enabled(s, a) && (a.ForkStart? || a.DupParent? || a.ForkEnd?)
    ensures Shape(Do(s, a))
  {
    hide PairOk, Private, FaultOk, ForkOk;
    var s', e := Do(s, a), a.e;
    assert ThreadOk(s, e);
    if a.DupParent? {
      DupParentShape(s, e);
    } else {
      assert s'.vm == s.vm && s'.data == s.data && s'.shared == s.shared;
    }
  }

  lemma DupParentShape(s: C, e: nat)
    requires Shape(s) && e in s.th && s.th[e].fork.ChildMapped? && ThreadOk(s, e)
    ensures Shape(DoDupParent(s, e))
  {
    hide FaultOk;
  }

  lemma ForkThread(s: C, a: Act, e: nat)
    requires Shape(s) && Enabled(s, a) && (a.ForkStart? || a.DupParent? || a.ForkEnd?)
    requires e in s.th && ThreadOk(s, e) && ThreadOk(s, a.e)
    ensures e in Do(s, a).th ==> ThreadOk(Do(s, a), e)
  {
  }

  lemma ForkThreads(s: C, a: Act)
    requires Inv(s) && Enabled(s, a) && (a.ForkStart? || a.DupParent? || a.ForkEnd?)
    ensures var s' := Do(s, a); forall e :: e in s'.th ==> ThreadOk(s', e)
  {
    hide PairOk, Private;
    var s' := Do(s, a);
    forall e | e in s'.th
      ensures ThreadOk(s', e)
    {
      if e in s.th {
        ForkThread(s, a, e);
      } else {
        assert Key(e, PFT) !in s.vm;
      }
    }
  }

  lemma ForkPrivate(s: C, a: Act)
    requires Inv(s) && Enabled(s, a) && (a.ForkStart? || a.DupParent? || a.ForkEnd?)
    ensures Private(Do(s, a))
  {
    hide PairOk, ThreadOk, Shape, Do;
    assert ThreadOk(s, a.e);
    forall k, q
      ensures PairOk(Do(s, a), k, q)
    {
      assert PairOk(s, k, q);
      ForkPair(s, a, k, q);
    }
  }

  lemma ForkPair(s: C, a: Act, k: Key, q: Key)
    requires Shape(s) && Enabled(s, a) && (a.ForkStart? || a.DupParent? || a.ForkEnd?)
    requires ThreadOk(s, a.e) && PairOk(s, k, q)
    ensures PairOk(Do(s, a), k, q)
  {
  }

  lemma ForkAgrees(s: C, a: Act, w: View)
    requires Inv(s) && Enabled(s, a) && (a.ForkStart? || a.DupParent? || a.ForkEnd?) && Agrees(s, w)
    ensures Agrees(Do(s, a), SpecStep(w, EventOf(s, a)))
  {
    hide PairOk, FaultOk;
    assert ThreadOk(s, a.e);
    if a.DupParent? && s.th[a.e].fork.late {
      var f := s.th[a.e].fork;
      assert PairOk(s, Key(a.e, f.pn), Key(f.child, f.pn)) && PairOk(s, Key(f.child, f.pn), Key(a.e, f.pn));
      SameOrigin(s, Key(a.e, f.pn), Key(f.child, f.pn));
    }
  }

  lemma SameOrigin(s: C, k: Key, q: Key)
    requires PairOk(s, k, q) && PairOk(s, q, k) && k.v != PFT && q.v != PFT && k in s.vm
    requires q in s.vm && s.vm[k].ppn == s.vm[q].ppn
    ensures k in s.shared <==> q in s.shared
  {
  }

  ghost predicate CanDup(s: C, e: nat, n: nat) {
    Awake(s, e) && s.th[e].fault.NoFault? && s.th[e].fork.Looping? && s.th[e].fork.pn <= UXP && Fresh(s, n)
  }

  lemma DupChildShape(s: C, e: nat, n: nat)
    requires Inv(s) && CanDup(s, e, n)
    ensures Shape(DoDupChild(s, e, n))
  {
    hide PairOk, Private, FaultOk, ForkOk;
    assert ThreadOk(s, e);
  }

  lemma DupChildFault(s: C, e: nat, n: nat, i: nat)
    requires Shape(s) && CanDup(s, e, n) && i in s.th && FaultOk(s, i) && FaultOk(s, e)
    ensures i in DoDupChild(s, e, n).th && FaultOk(DoDupChild(s, e, n), i)
  {
    assert i == s.th[e].fork.child ==> s.th[i].fault.NoFault?;
  }

  lemma DupChildFork(s: C, e: nat, n: nat, i: nat)
    requires Shape(s) && CanDup(s, e, n) && i in s.th && FaultOk(s, e) && ForkOk(s, i)
    ensures i in DoDupChild(s, e, n).th && ForkOk(DoDupChild(s, e, n), i)
  {
  }

  lemma DupChildThreads(s: C, e: nat, n: nat)
    requires Inv(s) && CanDup(s, e, n)
    ensures var s' := DoDupChild(s, e, n); forall i :: i in s'.th ==> ThreadOk(s', i)
  {
    hide PairOk, Private, FaultOk, ForkOk;
    var s' := DoDupChild(s, e, n);
    forall i | i in s'.th
      ensures ThreadOk(s', i)
    {
      assert ThreadOk(s, i) && ThreadOk(s, e);
      DupChildFault(s, e, n, i);
      DupChildFork(s, e, n, i);
    }
  }

  lemma DupChildPair(s: C, e: nat, n: nat, k: Key, q: Key)
    requires Shape(s) && CanDup(s, e, n) && FaultOk(s, e)
    requires var p := Key(e, s.th[e].fork.pn);
             PairOk(s, k, q) && PairOk(s, k, p) && PairOk(s, p, k) && PairOk(s, p, q) && PairOk(s, q, p)
    ensures PairOk(DoDupChild(s, e, n), k, q)
  {
    hide PairOk, Shape, FaultOk, DoDupChild;
    if s.th[e].fork.pn == UXP {
      DupStackPair(s, e, n, k, q);
    } else {
      DupPagePair(s, e, n, k, q);
    }
  }

  lemma DupStackPair(s: C, e: nat, n: nat, k: Key, q: Key)
    requires Shape(s) && CanDup(s, e, n) && s.th[e].fork.pn == UXP && PairOk(s, k, q)
    ensures PairOk(DoDupChild(s, e, n), k, q)
  {
  }

  lemma DupPagePair(s: C, e: nat, n: nat, k: Key, q: Key)
    requires Shape(s) && CanDup(s, e, n) && FaultOk(s, e) && s.th[e].fork.pn != UXP
    requires var p := Key(e, s.th[e].fork.pn);
             PairOk(s, k, q) && PairOk(s, k, p) && PairOk(s, p, k) && PairOk(s, p, q) && PairOk(s, q, p)
    ensures PairOk(DoDupChild(s, e, n), k, q)
  {
  }

  lemma DupChildPrivate(s: C, e: nat, n: nat)
    requires Inv(s) && CanDup(s, e, n)
    ensures Private(DoDupChild(s, e, n))
  {
    hide PairOk, Shape, DoDupChild, Fresh;
    var p := Key(e, s.th[e].fork.pn);
    assert ThreadOk(s, e);
    forall k, q
      ensures PairOk(DoDupChild(s, e, n), k, q)
    {
      assert PairOk(s, k, q) && PairOk(s, k, p) && PairOk(s, p, k) && PairOk(s, p, q) && PairOk(s, q, p);
      DupChildPair(s, e, n, k, q);
    }
  }

  lemma DupChildAgrees(s: C, a: Act, w: View)
    requires Inv(s) && Enabled(s, a) && a.DupChild? && Agrees(s, w)
    ensures Agrees(Do(s, a), SpecStep(w, EventOf(s, a)))
  {
    hide PairOk, Private, ForkOk, FaultOk, Do, EventOf, SpecStep, Enabled, Shape;
    var e, n := a.e, a.n;
    DupEnabled(s, a);
    assert ThreadOk(s, e);
    var src := Key(e, s.th[e].fork.pn);
    forall k | Claimed(Do(s, a), k)
      ensures var w' := SpecStep(w, EventOf(s, a)); k in w' && w'[k] == Page(Do(s, a), k)
    {
      assert KeyAgrees(s, w, k) && KeyAgrees(s, w, src);
      if src.v == UXP {
        DupStackKey(s, a, w, k);
      } else if !Writable(Entry0(s, src)) && PTE_COW !in Entry0(s, src).perm {
        DupPlainKey(s, a, w, k);
      } else {
        DupCowKey(s, a, w, k);
      }
    }
  }

  ghost predicate KeyAgrees(s: C, w: View, k: Key) {
    Claimed(s, k) ==> k in w && w[k] == Page(s, k)
  }

  lemma DupEnabled(s: C, a: Act)
    requires Enabled(s, a) && a.DupChild?
    ensures Awake(s, a.e) && CanDup(s, a.e, a.n)
  {
  }

  /** The exception stack: a fresh page of zeros. */
  lemma DupStackKey(s: C, a: Act, w: View, k: Key)
    requires Shape(s) && Enabled(s, a) && a.DupChild? && ThreadOk(s, a.e) && s.th[a.e].fork.pn == UXP
    requires KeyAgrees(s, w, k) && Claimed(Do(s, a), k)
    ensures var w' := SpecStep(w, EventOf(s, a)); k in w' && w'[k] == Page(Do(s, a), k)
  {
  }

  /** A page that is neither writable nor copy-on-write, or none at all. */
  lemma DupPlainKey(s: C, a: Act, w: View, k: Key)
    requires Shape(s) && Enabled(s, a) && a.DupChild? && ThreadOk(s, a.e) && s.th[a.e].fork.pn != UXP
    requires var x := Entry0(s, Key(a.e, s.th[a.e].fork.pn)); !Writable(x) && PTE_COW !in x.perm
    requires KeyAgrees(s, w, k) && KeyAgrees(s, w, Key(a.e, s.th[a.e].fork.pn)) && Claimed(Do(s, a), k)
    ensures var w' := SpecStep(w, EventOf(s, a)); k in w' && w'[k] == Page(Do(s, a), k)
  {
  }

  /** A page shared copy-on-write from now on. */
  lemma DupCowKey(s: C, a: Act, w: View, k: Key)
    requires Shape(s) && Enabled(s, a) && a.DupChild? && ThreadOk(s, a.e) && s.th[a.e].fork.pn != UXP
    requires var x := Entry0(s, Key(a.e, s.th[a.e].fork.pn)); Writable(x) || PTE_COW in x.perm
    requires KeyAgrees(s, w, k) && KeyAgrees(s, w, Key(a.e, s.th[a.e].fork.pn)) && Claimed(Do(s, a), k)
    ensures var w' := SpecStep(w, EventOf(s, a)); k in w' && w'[k] == Page(Do(s, a), k)
  {
  }

  lemma WriteShape(s: C, a: Act)
    requires Inv(s) && Enabled(s, a) && a.Write?
    ensures Shape(Do(s, a))
  {
  }

  lemma WriteThreads(s: C, a: Act)
    requires Inv(s) && Enabled(s, a) && a.Write?
    ensures var s' := Do(s, a); forall e :: e in s'.th ==> ThreadOk(s', e)
  {
    var p := Key(a.e, a.v);
    assert ThreadOk(s, a.e);
    forall k | k in s.vm
      ensures PairOk(s, p, k)
    {
    }
  }

  lemma WritePrivate(s: C, a: Act)
    requires Inv(s) && Enabled(s, a) && a.Write?
    ensures Private(Do(s, a))
  {
    var s' := Do(s, a);
    assert ThreadOk(s, a.e);
    forall k, q
      ensures PairOk(s', k, q)
    {
      assert PairOk(s, k, q);
    }
  }

  lemma WriteAgrees(s: C, a: Act, w: View)
    requires Inv(s) && Enabled(s, a) && a.Write? && Agrees(s, w)
    ensures Agrees(Do(s, a), SpecStep(w, EventOf(s, a)))
  {
    var p := Key(a.e, a.v);
    assert ThreadOk(s, a.e);
    forall k | k in s.vm
      ensures PairOk(s, p, k)
    {
    }
  }

  lemma UserShape(s: C, a: Act)
    requires Inv(s) && Enabled(s, a) && (a.Alloc? || a.Unmap? || a.Exit?)
    ensures Shape(Do(s, a))
  {
    hide PairOk, Private, ThreadOk;
  }

  lemma UserThread(s: C, a: Act, e: nat)
    requires Shape(s) && Enabled(s, a) && (a.Alloc? || a.Unmap? || a.Exit?)
    requires e in s.th && ThreadOk(s, e) && ThreadOk(s, a.e)
    ensures e in Do(s, a).th ==> ThreadOk(Do(s, a), e)
  {
    hide FaultOk, ForkOk, Shape, Do;
    UserFault(s, a, e);
    UserFork(s, a, e);
  }

  lemma UserFault(s: C, a: Act, e: nat)
    requires Shape(s) && Enabled(s, a) && (a.Alloc? || a.Unmap? || a.Exit?)
    requires e in s.th && FaultOk(s, e) && FaultOk(s, a.e)
    ensures e in Do(s, a).th ==> FaultOk(Do(s, a), e)
  {
  }

  lemma UserFork(s: C, a: Act, e: nat)
    requires Shape(s) && Enabled(s, a) && (a.Alloc? || a.Unmap? || a.Exit?) && e in s.th && ForkOk(s, e)
    ensures e in Do(s, a).th ==> ForkOk(Do(s, a), e)
  {
  }

  lemma UserThreads(s: C, a: Act)
    requires Inv(s) && Enabled(s, a) && (a.Alloc? || a.Unmap? || a.Exit?)
    ensures var s' := Do(s, a); forall e :: e in s'.th ==> ThreadOk(s', e)
  {
    hide PairOk, Private, ThreadOk;
    var s' := Do(s, a);
    forall e | e in s'.th
      ensures ThreadOk(s', e)
    {
      if e in s.th {
        UserThread(s, a, e);
      }
    }
  }

  lemma UserPrivate(s: C, a: Act)
    requires Inv(s) && Enabled(s, a) && (a.Alloc? || a.Unmap? || a.Exit?)
    ensures Private(Do(s, a))
  {
    hide PairOk, ThreadOk, Shape, Do;
    assert ThreadOk(s, a.e);
    forall k, q
      ensures PairOk(Do(s, a), k, q)
    {
      assert PairOk(s, k, q);
      if a.Alloc? {
        AllocPair(s, a, k, q);
      } else if a.Unmap? {
        UnmapPair(s, a, k, q);
      } else {
        ExitPair(s, a, k, q);
      }
    }
  }

  lemma AllocPair(s: C, a: Act, k: Key, q: Key)
    requires Shape(s) && Enabled(s, a) && a.Alloc? && ThreadOk(s, a.e) && PairOk(s, k, q)
    ensures PairOk(Do(s, a), k, q)
  {
  }

  lemma UnmapPair(s: C, a: Act, k: Key, q: Key)
    requires Shape(s) && Enabled(s, a) && a.Unmap? && ThreadOk(s, a.e) && PairOk(s, k, q)
    ensures PairOk(Do(s, a), k, q)
  {
  }

  lemma ExitPair(s: C, a: Act, k: Key, q: Key)
    requires Shape(s) && Enabled(s, a) && a.Exit? && ThreadOk(s, a.e) && PairOk(s, k, q)
    ensures PairOk(Do(s, a), k, q)
  {
  }

  lemma UserAgrees(s: C, a: Act, w: View)
    requires Inv(s) && Enabled(s, a) && (a.Alloc? || a.Unmap? || a.Exit?) && Agrees(s, w)
    ensures Agrees(Do(s, a), SpecStep(w, EventOf(s, a)))
  {
    hide PairOk, Private;
  }

  lemma ShareShape(s: C, a: Act)
    requires Inv(s) && Enabled(s, a) && a.Share?
    ensures Shape(Do(s, a))
  {
    hide PairOk, Private, ThreadOk, DoShare, Shape;
    DoShareShape(s, Key(a.e, a.v), a.dst, a.perm);
  }

  lemma DoShareShape(s: C, src: Key, dst: Key, perm: Perm)
    requires Shape(s) && src in s.vm && src.v != PFT && dst.v != PFT && dst.e in s.th
    requires (PTE_COW in perm ==> PTE_U in perm)
    ensures Shape(DoShare(s, src, dst, perm))
  {
    var s' := DoShare(s, src, dst, perm);
    assert s'.th == s.th && s'.embryo == s.embryo && s'.data == s.data;
    assert forall k :: k in s'.vm ==> k == dst || (k in s.vm && s'.vm[k] == s.vm[k]);
  }

  lemma ShareThreads(s: C, a: Act)
    requires Inv(s) && Enabled(s, a) && a.Share?
    ensures var s' := Do(s, a); forall e :: e in s'.th ==> ThreadOk(s', e)
  {
    hide PairOk, Private, FaultOk, ForkOk, DoShare, Shape;
    var s', src := Do(s, a), Key(a.e, a.v);
    forall e | e in s.th
      ensures e in s'.th && ThreadOk(s', e)
    {
      assert ThreadOk(s, e);
      ShareThread(s, src, a.dst, a.perm, e);
    }
    assert s'.th == DoShare(s, src, a.dst, a.perm).th;
    DoShareThreads(s, src, a.dst, a.perm);
  }

  lemma DoShareThreads(s: C, src: Key, dst: Key, perm: Perm)
    requires src in s.vm
    ensures DoShare(s, src, dst, perm).th == s.th
  {
  }

  lemma ShareThread(s: C, src: Key, dst: Key, perm: Perm, e: nat)
    requires Shape(s) && src in s.vm && src.v != PFT && dst.v != PFT && (PTE_W in perm ==> Writable(s.vm[src]))
    requires Awake(s, src.e) && s.th[src.e] == Thread(NoFault, NoFork) && Awake(s, dst.e)
    requires s.th[dst.e] == Thread(NoFault, NoFork)
    requires e in s.th && ThreadOk(s, e)
    ensures e in DoShare(s, src, dst, perm).th && ThreadOk(DoShare(s, src, dst, perm), e)
  {
    hide FaultOk, ForkOk, Shape, DoShare;
    DoShareThreads(s, src, dst, perm);
    ShareFault(s, src, dst, perm, e);
    ShareFork(s, src, dst, perm, e);
  }

  lemma ShareFault(s: C, src: Key, dst: Key, perm: Perm, e: nat)
    requires Shape(s) && src in s.vm && src.v != PFT && dst.v != PFT
    requires Awake(s, dst.e) && s.th[dst.e] == Thread(NoFault, NoFork) && e in s.th && FaultOk(s, e)
    ensures e in DoShare(s, src, dst, perm).th && FaultOk(DoShare(s, src, dst, perm), e)
  {
  }

  lemma ShareFork(s: C, src: Key, dst: Key, perm: Perm, e: nat)
    requires Shape(s) && src in s.vm && Awake(s, dst.e) && s.th[dst.e] == Thread(NoFault, NoFork)
    requires e in s.th && ForkOk(s, e)
    ensures e in DoShare(s, src, dst, perm).th && ForkOk(DoShare(s, src, dst, perm), e)
  {
  }

  /** q does not map src's page, or both are deliberately shared, or neither is and neither may write. */
  ghost predicate AloneOrShared(s: C, src: Key, q: Key)
    requires src in s.vm
  {
    q in s.vm && q != src && s.vm[q].ppn == s.vm[src].ppn ==>
      || (src in s.shared && q in s.shared)
      || (src !in s.shared && q !in s.shared && !Writable(s.vm[src]) && !Writable(s.vm[q]))
  }

  lemma SharedSource(s: C, src: Key, q: Key)
    requires Shape(s) && PairOk(s, src, q) && PairOk(s, q, src) && src in s.vm && (q in s.vm ==> FaultOk(s, q.e))
    requires Awake(s, src.e) && s.th[src.e] == Thread(NoFault, NoFork) && src.v != PFT
    ensures AloneOrShared(s, src, q)
  {
  }

  lemma SharePair(s: C, src: Key, dst: Key, perm: Perm, k: Key, q: Key)
    requires Shape(s) && src in s.vm && src.v != PFT && dst.v != PFT && src != dst
    requires (PTE_W in perm ==> Writable(s.vm[src]))
    requires Awake(s, src.e) && s.th[src.e] == Thread(NoFault, NoFork) && Awake(s, dst.e)
    requires s.th[dst.e] == Thread(NoFault, NoFork)
    requires PairOk(s, k, q)
    requires AloneOrShared(s, src, k) && AloneOrShared(s, src, q)
    ensures PairOk(DoShare(s, src, dst, perm), k, q)
  {
  }

  lemma SharePrivate(s: C, a: Act)
    requires Inv(s) && Enabled(s, a) && a.Share?
    ensures Private(Do(s, a))
  {
    hide PairOk, AloneOrShared, FaultOk, ForkOk;
    var s', src := Do(s, a), Key(a.e, a.v);
    forall x | x in s.vm
      ensures FaultOk(s, x.e)
    {
      assert ThreadOk(s, x.e);
    }
    forall k, q
      ensures PairOk(s', k, q)
    {
      assert PairOk(s, k, q);
      if src == a.dst {
        RemapPair(s, src, a.perm, k, q);
      } else {
        assert PairOk(s, src, k) && PairOk(s, k, src) && PairOk(s, src, q) && PairOk(s, q, src);
        SharedSource(s, src, k);
        SharedSource(s, src, q);
        SharePair(s, src, a.dst, a.perm, k, q);
      }
    }
  }

  /** Changing only the permission of a page. */
  lemma RemapPair(s: C, src: Key, perm: Perm, k: Key, q: Key)
    requires src in s.vm && (PTE_W in perm ==> Writable(s.vm[src])) && PairOk(s, k, q)
    ensures PairOk(DoShare(s, src, src, perm), k, q)
  {
  }

  lemma ShareAgrees(s: C, a: Act, w: View)
    requires Inv(s) && Enabled(s, a) && a.Share? && Agrees(s, w)
    ensures Agrees(Do(s, a), SpecStep(w, EventOf(s, a)))
  {
    hide PairOk, Private, FaultOk, ForkOk;
  }

  // ----- whole runs -----

  lemma StepInv(s: C, a: Act)
    requires Inv(s) && Enabled(s, a)
    ensures Inv(Do(s, a))
  {
    hide Shape, ThreadOk, Private, Awake, Fresh;
    match a
    case Write(_, _, _, _) => WriteShape(s, a); WriteThreads(s, a); WritePrivate(s, a);
    case Read(_, _, _) =>
    case FaultAlloc(_, _, _) => FaultShape(s, a); FaultThreads(s, a); FaultPrivate(s, a);
    case FaultCopy(_) => FaultCopyShape(s, a); FaultCopyThreads(s, a); FaultCopyPrivate(s, a);
    case FaultMap(_) => FaultShape(s, a); FaultThreads(s, a); FaultPrivate(s, a);
    case FaultUnmap(_) => FaultShape(s, a); FaultThreads(s, a); FaultPrivate(s, a);
    case ForkStart(_, _) => ForkShape(s, a); ForkThreads(s, a); ForkPrivate(s, a);
    case DupChild(e, n) => DupChildShape(s, e, n); DupChildThreads(s, e, n); DupChildPrivate(s, e, n);
    case DupParent(_) => ForkShape(s, a); ForkThreads(s, a); ForkPrivate(s, a);
    case ForkEnd(_) => ForkShape(s, a); ForkThreads(s, a); ForkPrivate(s, a);
    case Alloc(_, _, _, _) => UserShape(s, a); UserThreads(s, a); UserPrivate(s, a);
    case Unmap(_, _) => UserShape(s, a); UserThreads(s, a); UserPrivate(s, a);
    case Share(_, _, _, _) => ShareShape(s, a); ShareThreads(s, a); SharePrivate(s, a);
    case Exit(_) => UserShape(s, a); UserThreads(s, a); UserPrivate(s, a);
  }

  lemma StepAgrees(s: C, a: Act, w: View)
    requires Inv(s) && Enabled(s, a) && Agrees(s, w)
    ensures Agrees(Do(s, a), SpecStep(w, EventOf(s, a)))
  {
    hide Inv, Do, EventOf, SpecStep, Agrees, Enabled;
    match a
    case Write(_, _, _, _) => WriteAgrees(s, a, w);
    case Read(_, _, _) => ReadAgrees(s, a, w);
    case FaultAlloc(_, _, _) => FaultAgrees(s, a, w);
    case FaultCopy(_) => FaultCopyAgrees(s, a, w);
    case FaultMap(_) => FaultAgrees(s, a, w);
    case FaultUnmap(_) => FaultAgrees(s, a, w);
    case ForkStart(_, _) => ForkAgrees(s, a, w);
    case DupChild(_, _) => DupChildAgrees(s, a, w);
    case DupParent(_) => ForkAgrees(s, a, w);
    case ForkEnd(_) => ForkAgrees(s, a, w);
    case Alloc(_, _, _, _) => UserAgrees(s, a, w);
    case Unmap(_, _) => UserAgrees(s, a, w);
    case Share(_, _, _, _) => ShareAgrees(s, a, w);
    case Exit(_) => UserAgrees(s, a, w);
  }

  lemma ReadAgrees(s: C, a: Act, w: View)
    requires Enabled(s, a) && a.Read? && Agrees(s, w)
    ensures Agrees(Do(s, a), SpecStep(w, EventOf(s, a)))
  {
  }

  /** The actions can be taken one after the other from s. */
  ghost predicate CanRun(s: C, acts: seq<Act>)
    decreases |acts|
  {
    acts == [] || (Enabled(s, acts[0]) && CanRun(Do(s, acts[0]), acts[1..]))
  }

  /** A read of a page that is not deliberately shared. */
  predicate PrivateRead(s: C, a: Act) {
    a.Read? && Key(a.e, a.v) !in s.shared
  }

  /** What the processes' reads of pages that they do not deliberately share return. */
  function Reads(s: C, acts: seq<Act>): seq<int>
    requires CanRun(s, acts)
    decreases |acts|
  {
    if acts == [] then []
    else
      var a := acts[0];
      (if PrivateRead(s, a) then [Page(s, Key(a.e, a.v))[a.off]] else []) + Reads(Do(s, a), acts[1..])
  }

  function Events(s: C, acts: seq<Act>): seq<Event>
    requires CanRun(s, acts)
    decreases |acts|
  {
    if acts == [] then [] else [EventOf(s, acts[0])] + Events(Do(s, acts[0]), acts[1..])
  }

  /** What reads return when every process has its own pages. */
  function SpecReads(w: View, vs: seq<Event>): seq<int>
    decreases |vs|
  {
    if vs == [] then []
    else
      var v := vs[0];
      (if v.Peek? then [if v.k in w && v.off < |w[v.k]| then w[v.k][v.off] else 0] else [])
      + SpecReads(SpecStep(w, v), vs[1..])
  }

  /**
    Copy-on-write fork refines eager copying: in every interleaving of accesses, faults,
    forks and mappings by any processes, every read of a page not deliberately shared returns what
    it would if fork had copied each page outright.
  */
  lemma {:induction false} ForkRefinesEagerCopy(s: C, w: View, acts: seq<Act>)
    requires Inv(s) && Agrees(s, w) && CanRun(s, acts)
    ensures Reads(s, acts) == SpecReads(w, Events(s, acts))
    decreases |acts|
  {
    hide Inv, Enabled, Do, EventOf, Agrees, SpecStep;
    if acts != [] {
      var a := acts[0];
      StepInv(s, a);
      StepAgrees(s, a, w);
      PeekAgrees(s, a, w);
      ForkRefinesEagerCopy(Do(s, a), SpecStep(w, EventOf(s, a)), acts[1..]);
      assert Events(s, acts)[1..] == Events(Do(s, a), acts[1..]);
    }
  }

  lemma PeekAgrees(s: C, a: Act, w: View)
    requires Enabled(s, a) && Agrees(s, w)
    ensures EventOf(s, a).Peek? <==> PrivateRead(s, a)
    ensures PrivateRead(s, a) ==> var k := Key(a.e, a.v);
              && EventOf(s, a) == Peek(k, a.off)
              && k in w && a.off < |w[k]| && w[k][a.off] == Page(s, k)[a.off]
  {
  }

  /** The step that copies a page in the specification leaves neither side's entry writable. */
  lemma CopyLeavesReadOnly(s: C, a: Act)
    requires Inv(s) && Enabled(s, a) && EventOf(s, a).Copy? && !a.Share?
    ensures var v := EventOf(s, a); var s' := Do(s, a);
            && v.src.e == a.e && v.src.v == v.dst.v && v.src in s'.vm && v.dst in s'.vm
            && s'.vm[v.src].ppn == s'.vm[v.dst].ppn && !Writable(s'.vm[v.src]) && !Writable(s'.vm[v.dst])
  {
    hide PairOk, Private;
    assert ThreadOk(s, a.e);
  }

  // ----- fork gives the child the whole address space -----

  predicate UserPresent(s: C, e: nat, v: nat) {
    v != PFT && Key(e, v) in s.vm && PTE_U in s.vm[Key(e, v)].perm
  }

  /** Pages fork has dealt with so far. */
  function Done(f: Fork): nat {
    match f
    case NoFork => 0
    case Looping(_, pn) => pn
    case ChildMapped(_, pn, _) => pn + 1
  }

  ghost predicate ChildDomain(s: C, e: nat, v: nat)
    requires e in s.th
  {
    !s.th[e].fork.NoFork? ==>
      (Key(s.th[e].fork.child, v) in s.vm <==> v < Done(s.th[e].fork) && (v == UXP || UserPresent(s, e, v)))
  }

  ghost predicate DomainOk(s: C) {
    forall e, v: nat :: e in s.th ==> ChildDomain(s, e, v)
  }

  lemma DupChildDomain(s: C, a: Act, e: nat, v: nat)
    requires Shape(s) && Enabled(s, a) && a.DupChild? && ThreadOk(s, a.e)
    requires e in s.th ==> ThreadOk(s, e) && ChildDomain(s, e, v)
    ensures e in Do(s, a).th ==> ChildDomain(Do(s, a), e, v)
  {
    hide ThreadOk, Shape, ChildDomain, Do;
    if e == a.e {
      DupOwnDomain(s, a, v);
    } else {
      DupOtherDomain(s, a, e, v);
    }
  }

  lemma DupOwnDomain(s: C, a: Act, v: nat)
    requires Shape(s) && Enabled(s, a) && a.DupChild? && ThreadOk(s, a.e) && ChildDomain(s, a.e, v)
    ensures a.e in Do(s, a).th ==> ChildDomain(Do(s, a), a.e, v)
  {
  }

  lemma DupOtherDomain(s: C, a: Act, e: nat, v: nat)
    requires Shape(s) && Enabled(s, a) && a.DupChild? && ThreadOk(s, a.e) && e != a.e
    requires e in s.th ==> ChildDomain(s, e, v)
    ensures e in Do(s, a).th ==> ChildDomain(Do(s, a), e, v)
  {
  }

  lemma FaultDomain(s: C, a: Act, e: nat, v: nat)
    requires Shape(s) && Enabled(s, a) && (a.FaultAlloc? || a.FaultMap? || a.FaultUnmap? || a.FaultCopy?)
    requires ThreadOk(s, a.e)
    requires e in s.th ==> ThreadOk(s, e) && ChildDomain(s, e, v)
    ensures e in Do(s, a).th ==> ChildDomain(Do(s, a), e, v)
  {
  }

  lemma ForkDomain(s: C, a: Act, e: nat, v: nat)
    requires Shape(s) && Enabled(s, a) && (a.ForkStart? || a.DupParent? || a.ForkEnd?) && ThreadOk(s, a.e)
    requires e in s.th ==> ThreadOk(s, e) && ChildDomain(s, e, v)
    ensures e in Do(s, a).th ==> ChildDomain(Do(s, a), e, v)
  {
  }

  lemma UserDomain(s: C, a: Act, e: nat, v: nat)
    requires Shape(s) && Enabled(s, a) && (a.Write? || a.Read? || a.Alloc? || a.Unmap? || a.Share? || a.Exit?)
    requires ThreadOk(s, a.e) && (e in s.th ==> ThreadOk(s, e) && ChildDomain(s, e, v))
    ensures e in Do(s, a).th ==> ChildDomain(Do(s, a), e, v)
  {
    hide ThreadOk, Shape, ChildDomain, Do;
    if a.Share? {
      ShareDomain(s, a, e, v);
    } else if a.Exit? {
      ExitDomain(s, a, e, v);
    } else {
      PlainDomain(s, a, e, v);
    }
  }

  lemma PlainDomain(s: C, a: Act, e: nat, v: nat)
    requires Shape(s) && Enabled(s, a) && (a.Write? || a.Read? || a.Alloc? || a.Unmap?)
    requires e in s.th ==> ChildDomain(s, e, v)
    ensures e in Do(s, a).th ==> ChildDomain(Do(s, a), e, v)
  {
  }

  lemma ShareDomain(s: C, a: Act, e: nat, v: nat)
    requires Shape(s) && Enabled(s, a) && a.Share? && (e in s.th ==> ChildDomain(s, e, v))
    ensures e in Do(s, a).th ==> ChildDomain(Do(s, a), e, v)
  {
  }

  lemma ExitDomain(s: C, a: Act, e: nat, v: nat)
    requires Shape(s) && Enabled(s, a) && a.Exit? && (e in s.th ==> ChildDomain(s, e, v))
    ensures e in Do(s, a).th ==> ChildDomain(Do(s, a), e, v)
  {
  }

  lemma StepDomain(s: C, a: Act)
    requires Inv(s) && DomainOk(s) && Enabled(s, a)
    ensures DomainOk(Do(s, a))
  {
    hide PairOk, Private, ThreadOk, Shape, ChildDomain, Do;
    var s' := Do(s, a);
    forall e, v: nat | e in s'.th
      ensures ChildDomain(s', e, v)
    {
      if a.DupChild? {
        DupChildDomain(s, a, e, v);
      } else if a.ForkStart? || a.DupParent? || a.ForkEnd? {
        ForkDomain(s, a, e, v);
      } else if a.FaultAlloc? || a.FaultMap? || a.FaultUnmap? || a.FaultCopy? {
        FaultDomain(s, a, e, v);
      } else {
        UserDomain(s, a, e, v);
      }
    }
  }

  /** When fork makes the child runnable, the child has exactly the parent's user pages below the
      exception stack, and an exception stack of its own. */
  lemma ForkComplete(s: C, e: nat)
    requires Inv(s) && DomainOk(s) && Enabled(s, ForkEnd(e))
    ensures var c := s.th[e].fork.child;
            && Key(c, UXP) in s.vm
            && (forall v: nat :: v < UXP ==> (Key(c, v) in s.vm <==> UserPresent(s, e, v)))
            && c !in Do(s, ForkEnd(e)).embryo
  {
    hide PairOk, Private;
    var c := s.th[e].fork.child;
    assert ChildDomain(s, e, UXP);
    forall v: nat | v < UXP
      ensures Key(c, v) in s.vm <==> UserPresent(s, e, v)
    {
      assert ChildDomain(s, e, v);
    }
  }

  /** Between the two maps of duppage a page that was writable is the same on both sides.  (When the copy is taken is
      the subject of module CopyMoment.) */
  lemma CopyInstant(s: C, e: nat)
    requires Inv(s) && Enabled(s, DupParent(e))
    ensures var f := s.th[e].fork; f.late ==> Page(s, Key(f.child, f.pn)) == Page(s, Key(e, f.pn))
  {
    hide PairOk, Private;
    assert ThreadOk(s, e);
  }
}
