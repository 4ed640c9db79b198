/**
  The linked free list (kern/pmap.c): what page_init leaves on it, and the two-tail split of
  check_page_free_list that moves low pages to the front.
*/
module FreeList {
  import opened Mmu
  import opened Pmap

  const NIL := -1
  const IOHOLE: nat := 160
  const EXTMEM: nat := 256
  const MPENTRY: nat := 7

  function First(f: seq<nat>): int {
    if f == [] then NIL else f[0]
  }

  /** The element after position i. */
  function After(f: seq<nat>, i: nat): int {
    if i + 1 < |f| then f[i + 1] else NIL
  }

  /** Following `link` from `head` visits exactly f, once each, and ends. */
  ghost predicate Chain(head: int, link: seq<int>, f: seq<nat>) {
    && Distinct(f) && (forall i :: 0 <= i < |f| ==> f[i] < |link|)
    && head == First(f)
    && (forall i :: 0 <= i < |f| ==> link[f[i]] == After(f, i))
  }

  /** Only one sequence is chained from a head. */
  lemma {:induction false} ChainUnique(head: int, link: seq<int>, f: seq<nat>, g: seq<nat>)
    requires Chain(head, link, f) && Chain(head, link, g)
    ensures f == g
    decreases |f|
  {
    if f != [] && g != [] {
      ChainTail(head, link, f);
      ChainTail(head, link, g);
      ChainUnique(link[head], link, f[1..], g[1..]);
      assert f == [f[0]] + f[1..] && g == [g[0]] + g[1..];
    }
  }

  lemma ChainTail(head: int, link: seq<int>, f: seq<nat>)
    requires Chain(head, link, f) && f != []
    ensures Chain(link[head], link, f[1..])
  {
    var g := f[1..];
    assert head == f[0] && forall i :: 0 <= i < |g| ==> g[i] == f[i + 1];
    assert link[f[0]] == First(g);
    assert Distinct(g);
    forall i | 0 <= i < |g|
      ensures g[i] < |link| && link[g[i]] == After(g, i)
    {
      assert link[f[i + 1]] == After(f, i + 1);
    }
  }

  // ----- page_init -----

  function Range(lo: nat, hi: nat): (r: seq<nat>)
    requires lo <= hi
    ensures |r| == hi - lo && forall i :: 0 <= i < |r| ==> r[i] == lo + i
  {
    seq(hi - lo, i requires 0 <= i < hi - lo => lo + i)
  }

  /** The free pages of a machine with n pages whose boot allocations end at page nb. */
  function Initial(nb: nat, n: nat): seq<nat>
    requires EXTMEM <= nb <= n
  {
    Range(1, MPENTRY) + Range(MPENTRY + 1, IOHOLE) + Range(nb, n)
  }

  /** That is every page but page 0, the MPENTRY page, and the I/O hole up to the end of boot memory. */
  lemma InitialExact(nb: nat, n: nat, p: nat)
    requires EXTMEM <= nb <= n
    ensures p in Initial(nb, n) <==> 0 < p < n && p != MPENTRY && !(IOHOLE <= p < nb)
    ensures Distinct(Initial(nb, n))
  {
    var f := Initial(nb, n);
    if 0 < p < MPENTRY {
      assert f[p - 1] == p;
    } else if MPENTRY < p < IOHOLE {
      assert f[p - 2] == p;
    } else if nb <= p < n {
      assert f[p - nb + IOHOLE - 2] == p;
    }
  }

  /** page_init: the list links exactly the initial pages, all of them with count 0.  Page 0, the MPENTRY page and boot
      memory get count 1; the I/O hole is left at 0 without being on the list. */
  method PageInit(refs: array<nat>, link: array<int>, nb: nat) returns (head: int)
    requires refs.Length == link.Length && EXTMEM <= nb < refs.Length
    modifies refs, link
    ensures Chain(head, link[..], Initial(nb, refs.Length))
    ensures forall p :: p in Initial(nb, refs.Length) ==> p < refs.Length && refs[p] == 0
    ensures forall p :: 0 <= p < refs.Length ==> refs[p] == if p == 0 || p == MPENTRY || EXTMEM <= p < nb then 1 else 0
  {
    var n := refs.Length;
    var i := 1;
    while i < n
      invariant 1 <= i <= n
      invariant forall j :: 0 <= j < i - 1 ==> refs[j] == 0 && link[j] == j + 1
    {
      refs[i - 1] := 0;
      link[i - 1] := i;
      i := i + 1;
    }
    refs[n - 1] := 0;
    link[n - 1] := NIL;
    refs[0] := 1;
    link[0] := NIL;
    head := 1;
    i := EXTMEM;
    while i < nb
      invariant EXTMEM <= i <= nb
      invariant refs[0] == 1 && forall j :: 0 < j < n ==> refs[j] == if EXTMEM <= j < i then 1 else 0
      invariant forall j :: 0 < j < n ==> link[j] == if j == n - 1 then NIL else j + 1
    {
      refs[i] := 1;
      i := i + 1;
    }
    link[IOHOLE - 1] := nb;
    link[nb - 1] := NIL;
    link[0] := IOHOLE;
    link[MPENTRY - 1] := MPENTRY + 1;
    refs[MPENTRY] := 1;
    link[MPENTRY] := NIL;
    link[IOHOLE] := MPENTRY;
    InitialChain(link[..], nb);
    forall p: nat | p in Initial(nb, n)
      ensures p < n && refs[p] == 0
    {
      InitialExact(nb, n, p);
    }
  }

  /** The word page_init leaves in pp_link of a free page. */
  function Successor(p: nat, nb: nat, n: nat): int {
    if p == MPENTRY - 1 then MPENTRY + 1 else if p == IOHOLE - 1 then nb else if p == n - 1 then NIL else p + 1
  }

  lemma InitialChain(link: seq<int>, nb: nat)
    requires EXTMEM <= nb < |link|
    requires forall p: nat :: 0 < p < |link| && p != MPENTRY && !(IOHOLE <= p < nb) ==>
              link[p] == Successor(p, nb, |link|)
    ensures Chain(1, link, Initial(nb, |link|))
  {
    var n := |link|;
    var f := Initial(nb, n);
    InitialExact(nb, n, 0);
    forall i | 0 <= i < |f|
      ensures f[i] < n && link[f[i]] == After(f, i)
    {
      if i < MPENTRY - 1 {
        assert f[i] == i + 1;
      } else if i < IOHOLE - 2 {
        assert f[i] == i + 2;
      } else {
        assert f[i] == i - (IOHOLE - 2) + nb;
      }
    }
  }

  // ----- the split of check_page_free_list -----

  predicate Low(p: nat) {
    PDX(p * PGSIZE) < 1
  }

  /** The pages of f of one kind, in order. */
  function Part(f: seq<nat>, low: bool): seq<nat> {
    if f == [] then []
    else Part(f[..|f| - 1], low) + if Low(f[|f| - 1]) == low then [f[|f| - 1]] else []
  }

  lemma {:induction false} PartMembers(f: seq<nat>, low: bool)
    requires Distinct(f)
    ensures Distinct(Part(f, low)) && forall p :: p in Part(f, low) <==> p in f && Low(p) == low
  {
    if f != [] {
      var f0 := f[..|f| - 1];
      PartMembers(f0, low);
      assert f == f0 + [f[|f| - 1]];
      assert f[|f| - 1] !in f0;
    }
  }

  /** The split is stable: pages of one kind keep the order they had. */
  lemma {:induction false} PartOrder(f: seq<nat>, low: bool, i: nat, j: nat) returns (x: nat, y: nat)
    requires i < j < |Part(f, low)|
    ensures x < y < |f| && f[x] == Part(f, low)[i] && f[y] == Part(f, low)[j]
  {
    var f0 := f[..|f| - 1];
    if j < |Part(f0, low)| {
      x, y := PartOrder(f0, low, i, j);
    } else {
      y := |f| - 1;
      x := PartAt(f0, low, i);
    }
  }

  lemma {:induction false} PartAt(f: seq<nat>, low: bool, i: nat) returns (x: nat)
    requires i < |Part(f, low)|
    ensures x < |f| && f[x] == Part(f, low)[i]
  {
    var f0 := f[..|f| - 1];
    if i < |Part(f0, low)| {
      x := PartAt(f0, low, i);
    } else {
      x := |f| - 1;
    }
  }

  /** A list under construction: its first element, and the word its next element will be stored in. */
  ghost predicate Open(head: int, tail: int, link: seq<int>, f: seq<nat>) {
    && (forall i :: 0 <= i < |f| ==> f[i] < |link|)
    && (f == [] <==> tail == NIL)
    && (f != [] ==> head == f[0] && tail == f[|f| - 1])
    && (forall i :: 0 <= i < |f| - 1 ==> link[f[i]] == f[i + 1])
  }

  lemma OpenFrame(head: int, tail: int, link: seq<int>, link': seq<int>, f: seq<nat>, at: nat)
    requires Open(head, tail, link, f) && |link'| == |link| && at < |link|
    requires (forall p :: 0 <= p < |link| && p != at ==> link'[p] == link[p])
    requires at !in f
    ensures Open(head, tail, link', f)
  {
  }

  lemma OpenTail(head: int, tail: int, link: seq<int>, v: int, f: seq<nat>)
    requires Open(head, tail, link, f) && f != [] && Distinct(f)
    ensures Open(head, tail, link[tail := v], f)
  {
  }

  method Append(link: array<int>, head: int, tail: int, p: nat, ghost f: seq<nat>) returns (head': int, tail': int)
    requires Open(head, tail, link[..], f) && Distinct(f) && p !in f && p < link.Length
    modifies link
    ensures Open(head', tail', link[..], f + [p])
    ensures f != [] ==> forall q :: 0 <= q < link.Length && q != f[|f| - 1] ==> link[q] == old(link[q])
    ensures f == [] ==> link[..] == old(link[..])
  {
    head' := head;
    if tail == NIL {
      head' := p;
    } else {
      link[tail] := p;
    }
    tail' := p;
  }

  /** Append a page to the list of its kind. */
  method Place(link: array<int>, head1: int, tail1: int, head2: int, tail2: int, p: nat,
               ghost l: seq<nat>, ghost h: seq<nat>)
    returns (head1': int, tail1': int, head2': int, tail2': int)
    requires Open(head1, tail1, link[..], l) && Open(head2, tail2, link[..], h) && Distinct(l) && Distinct(h)
    requires p !in l && p !in h && p < link.Length && forall q :: q in l ==> q !in h
    modifies link
    ensures Open(head1', tail1', link[..], l + if Low(p) then [p] else [])
    ensures Open(head2', tail2', link[..], h + if Low(p) then [] else [p])
    ensures forall q: nat :: q < link.Length && q !in l && q !in h ==> link[q] == old(link[q])
  {
    ghost var before := link[..];
    head1', tail1', head2', tail2' := head1, tail1, head2, tail2;
    if Low(p) {
      head1', tail1' := Append(link, head1, tail1, p, l);
      if l != [] {
        assert l[|l| - 1] in l;
        OpenFrame(head2, tail2, before, link[..], h, l[|l| - 1]);
      }
      assert h + [] == h;
    } else {
      head2', tail2' := Append(link, head2, tail2, p, h);
      if h != [] {
        assert h[|h| - 1] in h;
        OpenFrame(head1, tail1, before, link[..], l, h[|h| - 1]);
      }
      assert l + [] == l;
    }
  }

  /** Low pages first, both kinds in their old order, none lost. */
  method Split(link: array<int>, head: int, ghost f: seq<nat>) returns (head': int)
    requires Chain(head, link[..], f)
    modifies link
    ensures Chain(head', link[..], Part(f, true) + Part(f, false))
  {
    hide Part, Low, Open;
    Started(link[..]);
    assert f[..0] == [];
    var pp, head1, tail1, head2, tail2 := head, NIL, NIL, NIL, NIL;
    ghost var i := 0;
    while pp != NIL
      invariant 0 <= i <= |f| && pp == if i < |f| then f[i] else NIL
      invariant forall j :: 0 <= j < |f| ==> f[j] < link.Length
      invariant forall j :: i <= j < |f| ==> link[f[j]] == After(f, j)
      invariant Open(head1, tail1, link[..], Part(f[..i], true))
      invariant Open(head2, tail2, link[..], Part(f[..i], false))
      decreases |f| - i
    {
      ghost var l, h := Part(f[..i], true), Part(f[..i], false);
      PrefixFresh(f, i);
      head1, tail1, head2, tail2 := Place(link, head1, tail1, head2, tail2, pp, l, h);
      PartStep(f, i);
      pp := link[pp];
      i := i + 1;
    }
    assert f[..i] == f;
    PartMembers(f, true);
    PartMembers(f, false);
    head' := Join(link, head1, tail1, head2, tail2, Part(f, true), Part(f, false));
  }

  /** End the second list, and let the first one run into it. */
  method Join(link: array<int>, head1: int, tail1: int, head2: int, tail2: int, ghost l: seq<nat>, ghost h: seq<nat>)
    returns (head': int)
    requires Open(head1, tail1, link[..], l) && Open(head2, tail2, link[..], h) && Distinct(l) && Distinct(h)
    requires forall p :: p in l ==> p !in h
    modifies link
    ensures Chain(head', link[..], l + h)
  {
    hide Chain;
    var second := head2;
    ghost var m0 := link[..];
    if tail2 != NIL {
      assert tail2 in h;
      link[tail2] := NIL;
      assert link[..] == m0[tail2 := NIL];
      OpenTail(head2, tail2, m0, NIL, h);
      OpenFrame(head1, tail1, m0, link[..], l, tail2);
    } else {
      second := NIL;
    }
    ghost var m1 := link[..];
    if tail1 != NIL {
      assert tail1 in l;
      link[tail1] := second;
      assert link[..] == m1[tail1 := second];
      OpenTail(head1, tail1, m1, second, l);
      OpenFrame(head2, tail2, m1, link[..], h, tail1);
      head' := head1;
    } else {
      head' := second;
    }
    Joined(head', second, tail1, tail2, link[..], l, h);
  }

  lemma Joined(head: int, second: int, tail1: int, tail2: int, link: seq<int>, l: seq<nat>, h: seq<nat>)
    requires Distinct(l) && Distinct(h) && (forall p :: p in l ==> p !in h)
    requires Open(if l == [] then NIL else head, tail1, link, l) && Open(second, tail2, link, h) && second == First(h)
    requires if l == [] then head == second else link[tail1] == second
    requires h != [] ==> link[tail2] == NIL
    ensures Chain(head, link, l + h)
  {
    hide Distinct;
    var f := l + h;
    DistinctJoin(l, h);
    forall i | 0 <= i < |f|
      ensures f[i] < |link| && link[f[i]] == After(f, i)
    {
      if i < |l| {
        assert f[i] == l[i];
      } else {
        assert f[i] == h[i - |l|];
      }
    }
  }

  lemma DistinctJoin(l: seq<nat>, h: seq<nat>)
    requires Distinct(l) && Distinct(h) && (forall p :: p in l ==> p !in h)
    ensures Distinct(l + h)
  {
    var f := l + h;
    assert forall i :: 0 <= i < |l| ==> l[i] in l;
    assert forall i :: 0 <= i < |h| ==> h[i] in h;
    assert forall i :: 0 <= i < |f| ==> f[i] == if i < |l| then l[i] else h[i - |l|];
  }

  lemma Started(link: seq<int>)
    ensures Part([], true) == [] && Part([], false) == [] && Open(NIL, NIL, link, [])
  {
  }

  lemma PartStep(f: seq<nat>, i: nat)
    requires i < |f|
    ensures Part(f[..i + 1], true) == Part(f[..i], true) + if Low(f[i]) then [f[i]] else []
    ensures Part(f[..i + 1], false) == Part(f[..i], false) + if Low(f[i]) then [] else [f[i]]
  {
    assert f[..i + 1][..i] == f[..i];
  }

  /** What the split has moved is disjoint from what it still has to visit. */
  lemma PrefixFresh(f: seq<nat>, i: nat)
    requires Distinct(f) && i < |f|
    ensures forall low: bool :: Distinct(Part(f[..i], low)) && forall j :: i <= j < |f| ==> f[j] !in Part(f[..i], low)
    ensures forall p :: p in Part(f[..i], true) ==> p !in Part(f[..i], false)
  {
    PartMembers(f[..i], true);
    PartMembers(f[..i], false);
  }
}
