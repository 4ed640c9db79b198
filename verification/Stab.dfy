/**
  The binary search over debugging symbols of several kinds (kern/kdebug.c), whose probe slides back to a
  symbol of the wanted kind and which moves its target up by one after an exact hit.
*/
module Stab {
  import opened Mmu

  datatype Stab = Stab(kind: int, value: nat)

  datatype Region = Region(left: int, right: int)

  // ----- the search as a function -----

  /** The last symbol of the kind at or before m, or l - 1. */
  function Back(ss: seq<Stab>, t: int, m: int, l: int): (k: int)
    requires 0 <= l && l - 1 <= m < |ss|
    ensures l - 1 <= k <= m && (k >= l ==> ss[k].kind == t)
    ensures forall i :: k < i <= m ==> ss[i].kind != t
    decreases m - l + 1
  {
    if m < l || ss[m].kind == t then m else Back(ss, t, m - 1, l)
  }

  /** The closing loop: the last symbol of the kind after lo, or lo if there is none. */
  function LastIn(ss: seq<Stab>, t: int, m: int, lo: int): (k: int)
    requires 0 <= lo && m < |ss|
    ensures k <= m && (k > lo ==> ss[k].kind == t) && (m >= lo ==> k >= lo) && (m < lo ==> k == m)
    ensures forall i :: k < i <= m ==> ss[i].kind != t
    decreases m - lo
  {
    if m > lo && ss[m].kind != t then LastIn(ss, t, m - 1, lo) else m
  }

  /** The variables of the main loop. */
  datatype Loop = Loop(l: int, r: int, left: int, right: int, any: bool, addr: nat)

  ghost predicate InRange(ss: seq<Stab>, s: Loop) {
    0 <= s.l && s.r < |ss| && 0 <= s.left && s.right < |ss|
  }

  /** One turn of the main loop. */
  function Next(ss: seq<Stab>, t: int, s: Loop): Loop
    requires InRange(ss, s) && s.l <= s.r
  {
    var m := (s.l + s.r) / 2;
    var k := Back(ss, t, m, s.l);
    if k < s.l then s.(l := m + 1)
    else if ss[k].value < s.addr then s.(left := k, any := true, l := m + 1)
    else if ss[k].value > s.addr then s.(right := k - 1, any := true, r := k - 1)
    else s.(left := k, any := true, l := k, addr := (s.addr + 1) % ADDR_LIMIT)
  }

  /** A hit may leave the interval as it is, but not twice. */
  ghost predicate Hit(ss: seq<Stab>, t: int, s: Loop)
    requires InRange(ss, s)
  {
    s.l <= s.r && var k := Back(ss, t, (s.l + s.r) / 2, s.l); k >= s.l && ss[k].value == s.addr
  }

  lemma NextSmaller(ss: seq<Stab>, t: int, s: Loop)
    requires InRange(ss, s) && s.l <= s.r
    ensures var s' := Next(ss, t, s);
            && InRange(ss, s') && s'.r - s'.l <= s.r - s.l
            && (s'.r - s'.l < s.r - s.l || (Hit(ss, t, s) && !Hit(ss, t, s')))
  {
  }

  ghost function Search(ss: seq<Stab>, t: int, s: Loop): (z: Loop)
    requires InRange(ss, s)
    ensures InRange(ss, z)
    decreases s.r - s.l + 1, if Hit(ss, t, s) then 1 else 0
  {
    if s.l > s.r then s
    else
      NextSmaller(ss, t, s);
      Search(ss, t, Next(ss, t, s))
  }

  lemma SearchUnfold(ss: seq<Stab>, t: int, s: Loop)
    requires InRange(ss, s)
    ensures s.l > s.r ==> Search(ss, t, s) == s
    ensures s.l <= s.r ==> InRange(ss, Next(ss, t, s)) && Search(ss, t, s) == Search(ss, t, Next(ss, t, s))
  {
    if s.l <= s.r {
      NextSmaller(ss, t, s);
    }
  }

  ghost function BinSearch(ss: seq<Stab>, t: int, left: int, right: int, addr: nat): Region
    requires 0 <= left && right < |ss|
  {
    var z := Search(ss, t, Loop(left, right, left, right, false, addr));
    if z.any then Region(LastIn(ss, t, z.right, z.left), z.right) else Region(z.left, z.left - 1)
  }

  // ----- the code -----

  /** stab_binsearch. */
  method StabBinsearch(ss: seq<Stab>, regionLeft: int, regionRight: int, t: int, address: nat)
    returns (left: int, right: int)
    requires 0 <= regionLeft && regionRight < |ss|
    ensures Region(left, right) == BinSearch(ss, t, regionLeft, regionRight, address)
  {
    hide Search, Back, LastIn, Hit;
    var l, r, any := regionLeft, regionRight, false;
    var addr: nat := address;
    left, right := regionLeft, regionRight;
    ghost var s := Loop(l, r, left, right, any, addr);
    ghost var z := Search(ss, t, s);
    while l <= r
      invariant s == Loop(l, r, left, right, any, addr) && InRange(ss, s) && Search(ss, t, s) == z
      decreases r - l + 1, if InRange(ss, s) && Hit(ss, t, s) then 1 else 0
    {
      SearchUnfold(ss, t, s);
      NextSmaller(ss, t, s);
      var trueM := (l + r) / 2;
      var m := SlideBack(ss, t, trueM, l);
      s := Next(ss, t, s);
      if m < l {
        l := trueM + 1;
        continue;
      }
      any := true;
      if ss[m].value < addr {
        left := m;
        l := trueM + 1;
      } else if ss[m].value > addr {
        right := m - 1;
        r := m - 1;
      } else {
        left := m;
        l := m;
        addr := (addr + 1) % ADDR_LIMIT;
      }
    }
    SearchUnfold(ss, t, s);
    if !any {
      right := left - 1;
    } else {
      left := Rightmost(ss, t, right, left);
    }
  }

  /** The inner loop: back to a symbol of the kind. */
  method SlideBack(ss: seq<Stab>, t: int, trueM: int, l: int) returns (m: int)
    requires 0 <= l <= trueM < |ss|
    ensures m == Back(ss, t, trueM, l)
  {
    m := trueM;
    while m >= l && ss[m].kind != t
      invariant l - 1 <= m <= trueM && Back(ss, t, m, l) == Back(ss, t, trueM, l)
    {
      m := m - 1;
    }
  }

  /** The closing loop. */
  method Rightmost(ss: seq<Stab>, t: int, right: int, left: int) returns (l: int)
    requires 0 <= left && right < |ss|
    ensures l == LastIn(ss, t, right, left)
  {
    l := right;
    while l > left && ss[l].kind != t
      invariant l <= right && LastIn(ss, t, l, left) == LastIn(ss, t, right, left)
    {
      l := l - 1;
    }
  }

  // ----- what it finds -----

  /** Symbols of the kind are in order of their values. */
  ghost predicate Sorted(ss: seq<Stab>, t: int, left: int, right: int)
    requires 0 <= left && right < |ss|
  {
    forall i, j :: left <= i < j <= right && ss[i].kind == t && ss[j].kind == t ==> ss[i].value <= ss[j].value
  }

  ghost predicate HasValue(ss: seq<Stab>, t: int, left: int, right: int, v: nat)
    requires 0 <= left && right < |ss|
  {
    exists i :: left <= i <= right && ss[i].kind == t && ss[i].value == v
  }

  /** Every symbol of the kind in [lo, hi) has value at most v. */
  ghost predicate AtMost(ss: seq<Stab>, t: int, lo: int, hi: int, v: nat)
    requires 0 <= lo && hi <= |ss|
  {
    forall i :: lo <= i < hi && ss[i].kind == t ==> ss[i].value <= v
  }

  ghost predicate Above(ss: seq<Stab>, t: int, lo: int, hi: int, v: nat)
    requires 0 <= lo && hi <= |ss|
  {
    forall i :: lo <= i < hi && ss[i].kind == t ==> ss[i].value > v
  }

  ghost predicate NoneOf(ss: seq<Stab>, t: int, lo: int, hi: int)
    requires 0 <= lo && hi <= |ss|
  {
    forall i :: lo <= i < hi ==> ss[i].kind != t
  }

  /** The right bracket: up to r values are at most v, after r they are above, and r ends the region or is
      just before a symbol of the kind. */
  ghost predicate Cut(ss: seq<Stab>, t: int, left: int, right: int, v: nat, r: int)
    requires 0 <= left && right < |ss|
  {
    && left - 1 <= r <= right && AtMost(ss, t, left, r + 1, v) && Above(ss, t, r + 1, right + 1, v)
    && (r == right || ss[r + 1].kind == t)
  }

  /** The left bracket: the last symbol of the kind up to r; without one, the left end of the region. */
  ghost predicate LastOf(ss: seq<Stab>, t: int, left: int, r: int, l: int)
    requires 0 <= left && r < |ss|
  {
    if NoneOf(ss, t, left, r + 1) then l == if r < left then r else left
    else left <= l <= r && ss[l].kind == t && NoneOf(ss, t, l + 1, r + 1)
  }

  /** A region of symbols that are in order. */
  ghost predicate Ordered(ss: seq<Stab>, t: int, left: int, right: int) {
    0 <= left && left - 1 <= right < |ss| && Sorted(ss, t, left, right)
  }

  /** Symbols in order and not both addr and addr + 1 among their values; addr is not the last address if it is. */
  ghost predicate Searchable(ss: seq<Stab>, t: int, left: int, right: int, a: nat) {
    Ordered(ss, t, left, right)
    && (HasValue(ss, t, left, right, a) ==> a + 1 < ADDR_LIMIT && !HasValue(ss, t, left, right, a + 1))
  }

  /** State of the loop: symbols before l are at most a, symbols after r above, and addr is a or, after a hit,
      a + 1. */
  ghost predicate Going(ss: seq<Stab>, t: int, left: int, right: int, a: nat, s: Loop)
    requires 0 <= left && right < |ss|
  {
    && left <= s.l <= s.r + 1 && left - 1 <= s.r == s.right <= right && InRange(ss, s)
    && AtMost(ss, t, left, s.l, a) && Above(ss, t, s.r + 1, right + 1, a) && (s.r == right || ss[s.r + 1].kind == t)
    && (s.addr == a || (s.addr == a + 1 && HasValue(ss, t, left, right, a)))
    && (s.left == left || (left <= s.left <= s.r && ss[s.left].kind == t && ss[s.left].value <= a))
    && (!s.any ==> NoneOf(ss, t, left, s.l) && s.r == right && s.left == left)
    && (s.any ==> !NoneOf(ss, t, left, right + 1))
  }

  lemma NothingHere(ss: seq<Stab>, t: int, left: int, right: int, a: nat, s: Loop, m: int)
    requires Ordered(ss, t, left, right) && Going(ss, t, left, right, a, s)
    requires s.l <= m <= s.r && NoneOf(ss, t, s.l, m + 1)
    ensures Going(ss, t, left, right, a, s.(l := m + 1))
  {
    hide Ordered, HasValue;
  }

  lemma GoRight(ss: seq<Stab>, t: int, left: int, right: int, a: nat, s: Loop, k: int, m: int)
    requires Ordered(ss, t, left, right) && Going(ss, t, left, right, a, s)
    requires s.l <= k <= m <= s.r && ss[k].kind == t && NoneOf(ss, t, k + 1, m + 1) && ss[k].value < s.addr
    ensures Going(ss, t, left, right, a, s.(left := k, any := true, l := m + 1))
  {
    hide HasValue;
  }

  lemma GoLeft(ss: seq<Stab>, t: int, left: int, right: int, a: nat, s: Loop, k: int)
    requires Ordered(ss, t, left, right) && Going(ss, t, left, right, a, s)
    requires s.l <= k <= s.r && ss[k].kind == t && ss[k].value > s.addr
    ensures Going(ss, t, left, right, a, s.(right := k - 1, any := true, r := k - 1))
  {
    hide HasValue;
  }

  lemma OnHit(ss: seq<Stab>, t: int, left: int, right: int, a: nat, s: Loop, k: int)
    requires Searchable(ss, t, left, right, a) && Going(ss, t, left, right, a, s)
    requires s.l <= k <= s.r && ss[k].kind == t && ss[k].value == s.addr
    ensures Going(ss, t, left, right, a, s.(left := k, any := true, l := k, addr := (s.addr + 1) % ADDR_LIMIT))
  {
    HitOnce(ss, t, left, right, a, s, k);
    hide HasValue;
  }

  lemma HitOnce(ss: seq<Stab>, t: int, left: int, right: int, a: nat, s: Loop, k: int)
    requires Searchable(ss, t, left, right, a) && Going(ss, t, left, right, a, s)
    requires s.l <= k <= s.r && ss[k].kind == t && ss[k].value == s.addr
    ensures s.addr == a && (s.addr + 1) % ADDR_LIMIT == a + 1 && HasValue(ss, t, left, right, a)
  {
    assert HasValue(ss, t, left, right, s.addr);
  }

  /** Until a hit the target stays. */
  lemma MissGoing(ss: seq<Stab>, t: int, left: int, right: int, a: nat, s: Loop)
    requires Ordered(ss, t, left, right) && Going(ss, t, left, right, a, s)
    requires InRange(ss, s) && s.l <= s.r && !Hit(ss, t, s)
    ensures Going(ss, t, left, right, a, Next(ss, t, s)) && Next(ss, t, s).addr == s.addr
  {
    hide Ordered, Going;
    var m := (s.l + s.r) / 2;
    var k := Back(ss, t, m, s.l);
    if k < s.l {
      NothingHere(ss, t, left, right, a, s, m);
    } else if ss[k].value < s.addr {
      GoRight(ss, t, left, right, a, s, k, m);
    } else {
      GoLeft(ss, t, left, right, a, s, k);
    }
  }

  lemma NextGoing(ss: seq<Stab>, t: int, left: int, right: int, a: nat, s: Loop)
    requires Searchable(ss, t, left, right, a) && Going(ss, t, left, right, a, s) && InRange(ss, s) && s.l <= s.r
    ensures Going(ss, t, left, right, a, Next(ss, t, s))
  {
    if Hit(ss, t, s) {
      OnHit(ss, t, left, right, a, s, Back(ss, t, (s.l + s.r) / 2, s.l));
    } else {
      hide Going;
      MissGoing(ss, t, left, right, a, s);
    }
  }

  lemma {:induction false} SearchEnds(ss: seq<Stab>, t: int, left: int, right: int, a: nat, s: Loop)
    requires Searchable(ss, t, left, right, a) && Going(ss, t, left, right, a, s)
    ensures var z := Search(ss, t, s); Going(ss, t, left, right, a, z) && z.l > z.r
    decreases s.r - s.l + 1, if Hit(ss, t, s) then 1 else 0
  {
    hide Searchable;
    SearchUnfold(ss, t, s);
    if s.l <= s.r {
      NextGoing(ss, t, left, right, a, s);
      NextSmaller(ss, t, s);
      SearchEnds(ss, t, left, right, a, Next(ss, t, s));
    }
  }

  // ----- the first hit decides -----

  /** The loop up to the first turn that finds addr itself, or to its end. */
  ghost function FirstHit(ss: seq<Stab>, t: int, s: Loop): (h: Loop)
    requires InRange(ss, s)
    ensures InRange(ss, h)
    decreases s.r - s.l + 1
  {
    if s.l > s.r || Hit(ss, t, s) then s
    else
      NextSmaller(ss, t, s);
      FirstHit(ss, t, Next(ss, t, s))
  }

  lemma {:induction false} FirstHitGoing(ss: seq<Stab>, t: int, left: int, right: int, a: nat, s: Loop)
    requires Ordered(ss, t, left, right) && Going(ss, t, left, right, a, s) && s.addr == a
    ensures var h := FirstHit(ss, t, s);
            && Going(ss, t, left, right, a, h) && h.addr == a && Search(ss, t, h) == Search(ss, t, s)
            && (h.l > h.r || Hit(ss, t, h))
    decreases s.r - s.l + 1
  {
    hide Ordered, Search;
    if s.l <= s.r && !Hit(ss, t, s) {
      SearchUnfold(ss, t, s);
      MissGoing(ss, t, left, right, a, s);
      NextSmaller(ss, t, s);
      FirstHitGoing(ss, t, left, right, a, Next(ss, t, s));
    }
  }

  function Start(left: int, right: int, addr: nat): Loop {
    Loop(left, right, left, right, false, addr)
  }

  /** Where the first hit leaves the search, no symbol of addr + 1 is left to be found. */
  ghost predicate Undistracted(ss: seq<Stab>, t: int, left: int, right: int, addr: nat)
    requires 0 <= left && right < |ss|
  {
    var h := FirstHit(ss, t, Start(left, right, addr));
    h.l > h.r || (addr + 1 < ADDR_LIMIT && !HasValue(ss, t, h.l, h.r, addr + 1))
  }

  /** What stab_binsearch is for: the right end is just before the first symbol of the kind above addr, the left
      end is the last symbol of the kind up to there.  With no symbol of the kind the region becomes empty. */
  ghost predicate Found(ss: seq<Stab>, t: int, left: int, right: int, addr: nat, g: Region)
    requires 0 <= left && right < |ss|
  {
    if NoneOf(ss, t, left, right + 1) then g == Region(left, left - 1)
    else Cut(ss, t, left, right, addr, g.right) && LastOf(ss, t, left, g.right, g.left)
  }

  lemma EndFound(ss: seq<Stab>, t: int, left: int, right: int, addr: nat)
    requires Ordered(ss, t, left, right)
    requires var z := Search(ss, t, Start(left, right, addr)); Going(ss, t, left, right, addr, z) && z.l > z.r
    ensures Found(ss, t, left, right, addr, BinSearch(ss, t, left, right, addr))
  {
    hide Search, HasValue, Sorted;
  }

  /** From the first hit on, the search stays in what was left of the region then. */
  lemma AfterHit(ss: seq<Stab>, t: int, left: int, right: int, a: nat, h: Loop)
    requires Ordered(ss, t, left, right) && Going(ss, t, left, right, a, h) && h.addr == a && Hit(ss, t, h)
    requires a + 1 < ADDR_LIMIT && !HasValue(ss, t, h.l, h.r, a + 1)
    ensures var z := Search(ss, t, h); Going(ss, t, left, right, a, z) && z.l > z.r
  {
    hide Search, Going, Hit;
    Narrowed(ss, t, left, right, a, h);
    SearchEnds(ss, t, left, h.r, a, h);
    Widened(ss, t, left, right, a, h, Search(ss, t, h));
  }

  lemma Narrowed(ss: seq<Stab>, t: int, left: int, right: int, a: nat, h: Loop)
    requires Ordered(ss, t, left, right) && Going(ss, t, left, right, a, h) && h.addr == a && Hit(ss, t, h)
    requires a + 1 < ADDR_LIMIT && !HasValue(ss, t, h.l, h.r, a + 1)
    ensures left <= h.l <= h.r <= right && Searchable(ss, t, left, h.r, a) && Going(ss, t, left, h.r, a, h)
    ensures HasValue(ss, t, left, h.r, a)
  {
    assert !HasValue(ss, t, left, h.r, a + 1);
    var k := Back(ss, t, (h.l + h.r) / 2, h.l);
    assert left <= k <= h.r && ss[k].kind == t && ss[k].value == a;
    assert HasValue(ss, t, left, h.r, a);
  }

  lemma Widened(ss: seq<Stab>, t: int, left: int, right: int, a: nat, h: Loop, z: Loop)
    requires Ordered(ss, t, left, right) && Going(ss, t, left, right, a, h)
    requires h.r <= right && HasValue(ss, t, left, h.r, a)
    requires Going(ss, t, left, h.r, a, z) && z.l > z.r
    ensures Going(ss, t, left, right, a, z)
  {
    assert HasValue(ss, t, left, right, a);
  }

  /** A symbol of addr + 1 that is in reach after a hit stays inside the right end. */
  lemma {:induction false} StaysInside(ss: seq<Stab>, t: int, left: int, right: int, a: nat, s: Loop, i: int)
    requires Ordered(ss, t, left, right) && InRange(ss, s) && left <= s.l && s.r <= right
    requires s.right <= right && s.addr > a && s.any
    requires left <= i <= s.right && ss[i].kind == t && ss[i].value == a + 1
    requires forall j :: left <= j <= right && ss[j].kind == t ==> ss[j].value < ADDR_LIMIT - 1
    ensures var z := Search(ss, t, s); i <= z.right <= right && z.any
    decreases s.r - s.l + 1, if Hit(ss, t, s) then 1 else 0
  {
    hide Search;
    SearchUnfold(ss, t, s);
    if s.l <= s.r {
      NextSmaller(ss, t, s);
      StaysInside(ss, t, left, right, a, Next(ss, t, s), i);
    }
  }

  /**
    stab_binsearch on symbols in order, none of them at the very last address, finds its symbol exactly if its
    first hit leaves no symbol of addr + 1 in reach.
  */
  lemma FoundIff(ss: seq<Stab>, t: int, left: int, right: int, addr: nat)
    requires Ordered(ss, t, left, right)
    requires forall j :: left <= j <= right && ss[j].kind == t ==> ss[j].value < ADDR_LIMIT - 1
    ensures Found(ss, t, left, right, addr, BinSearch(ss, t, left, right, addr)) <==>
              Undistracted(ss, t, left, right, addr)
  {
    hide Found, Undistracted, Sorted, BinSearch;
    if Undistracted(ss, t, left, right, addr) {
      UndistractedFinds(ss, t, left, right, addr);
    } else {
      DistractedMisses(ss, t, left, right, addr);
    }
  }

  lemma DistractedMisses(ss: seq<Stab>, t: int, left: int, right: int, addr: nat)
    requires Ordered(ss, t, left, right) && !Undistracted(ss, t, left, right, addr)
    requires forall j :: left <= j <= right && ss[j].kind == t ==> ss[j].value < ADDR_LIMIT - 1
    ensures !Found(ss, t, left, right, addr, BinSearch(ss, t, left, right, addr))
  {
    hide Search, FirstHit, Going, Sorted, LastOf;
    var s := Start(left, right, addr);
    StartGoing(ss, t, left, right, addr);
    FirstHitGoing(ss, t, left, right, addr, s);
    var h := FirstHit(ss, t, s);
    GoingInside(ss, t, left, right, addr, h);
    var i := Distraction(ss, t, left, right, addr, h);
    StaysInside(ss, t, left, right, addr, Next(ss, t, h), i);
    SearchUnfold(ss, t, h);
  }

  lemma StartGoing(ss: seq<Stab>, t: int, left: int, right: int, addr: nat)
    requires Ordered(ss, t, left, right)
    ensures Going(ss, t, left, right, addr, Start(left, right, addr))
  {
  }

  lemma GoingInside(ss: seq<Stab>, t: int, left: int, right: int, addr: nat, h: Loop)
    requires 0 <= left && right < |ss| && Going(ss, t, left, right, addr, h)
    ensures left <= h.l && h.r == h.right <= right
  {
  }

  lemma Distraction(ss: seq<Stab>, t: int, left: int, right: int, addr: nat, h: Loop) returns (i: int)
    requires 0 <= left <= h.l <= h.r == h.right <= right < |ss| && InRange(ss, h) && Hit(ss, t, h) && h.addr == addr
    requires addr + 1 < ADDR_LIMIT ==> HasValue(ss, t, h.l, h.r, addr + 1)
    requires forall j :: left <= j <= right && ss[j].kind == t ==> ss[j].value < ADDR_LIMIT - 1
    ensures h.l <= i <= h.r && ss[i].kind == t && ss[i].value == addr + 1
    ensures var s := Next(ss, t, h);
            InRange(ss, s) && left <= s.l && s.r == s.right == h.r && s.addr == addr + 1 && s.any
  {
    var k := Back(ss, t, (h.l + h.r) / 2, h.l);
    assert left <= k <= right && ss[k].kind == t && ss[k].value == addr;
    i :| h.l <= i <= h.r && ss[i].kind == t && ss[i].value == addr + 1;
  }

  lemma UndistractedFinds(ss: seq<Stab>, t: int, left: int, right: int, addr: nat)
    requires Ordered(ss, t, left, right) && Undistracted(ss, t, left, right, addr)
    ensures Found(ss, t, left, right, addr, BinSearch(ss, t, left, right, addr))
  {
    hide Search, HasValue, Sorted;
    var s := Start(left, right, addr);
    FirstHitGoing(ss, t, left, right, addr, s);
    var h := FirstHit(ss, t, s);
    SearchUnfold(ss, t, h);
    if h.l <= h.r {
      AfterHit(ss, t, left, right, addr, h);
    }
    EndFound(ss, t, left, right, addr);
  }

  /** In particular if not both addr and addr + 1 are values of the kind. */
  lemma Brackets(ss: seq<Stab>, t: int, left: int, right: int, addr: nat)
    requires Searchable(ss, t, left, right, addr)
    ensures Found(ss, t, left, right, addr, BinSearch(ss, t, left, right, addr))
  {
    hide Search, Found;
    var s := Start(left, right, addr);
    FirstHitGoing(ss, t, left, right, addr, s);
    var h := FirstHit(ss, t, s);
    if h.l <= h.r {
      var k := Back(ss, t, (h.l + h.r) / 2, h.l);
      assert left <= k <= right && ss[k].kind == t && ss[k].value == addr;
      assert HasValue(ss, t, left, right, addr);
    }
    UndistractedFinds(ss, t, left, right, addr);
  }

  // ----- the condition on the symbols themselves -----

  /** The search is right on every part of the region. */
  ghost predicate RightEverywhere(ss: seq<Stab>, t: int, left: int, right: int, addr: nat)
    requires 0 <= left && right < |ss|
  {
    forall l, r :: left <= l <= r <= right ==> Found(ss, t, l, r, addr, BinSearch(ss, t, l, r, addr))
  }

  /** From a symbol of addr to one of addr + 1 with none of the kind in between, the search finds the wrong one. */
  lemma AdjacentMisses(ss: seq<Stab>, t: int, i: int, j: int, addr: nat)
    requires 0 <= i < j < |ss| && ss[i] == Stab(t, addr) && ss[j] == Stab(t, addr + 1) && NoneOf(ss, t, i + 1, j)
    requires addr + 2 < ADDR_LIMIT
    ensures !Found(ss, t, i, j, addr, BinSearch(ss, t, i, j, addr))
  {
    hide Found, BinSearch, Search, Going, Back;
    var s := Start(i, j, addr);
    var m := (i + j) / 2;
    assert Back(ss, t, m, i) == i;
    assert Hit(ss, t, s) && FirstHit(ss, t, s) == s;
    assert HasValue(ss, t, i, j, addr + 1);
    FoundIff(ss, t, i, j, addr);
  }

  /** The last address has no successor: after a hit the target is 0 and the symbol itself is cut off. */
  lemma LastAddressMisses(ss: seq<Stab>, t: int, i: int)
    requires 0 <= i < |ss| && ss[i] == Stab(t, ADDR_LIMIT - 1)
    ensures !Found(ss, t, i, i, ADDR_LIMIT - 1, BinSearch(ss, t, i, i, ADDR_LIMIT - 1))
  {
    hide Search;
    DirectTurn(ss, t, Start(i, i, ADDR_LIMIT - 1), Loop(i, i, i, i, true, 0));
    DirectTurn(ss, t, Loop(i, i, i, i, true, 0), Loop(i, i - 1, i, i - 1, true, 0));
    SearchUnfold(ss, t, Loop(i, i - 1, i, i - 1, true, 0));
    assert !NoneOf(ss, t, i, i + 1);
  }

  /** The last symbol of addr and the first of addr + 1. */
  lemma Neighbours(ss: seq<Stab>, t: int, left: int, right: int, addr: nat) returns (i: int, j: int)
    requires Ordered(ss, t, left, right) && HasValue(ss, t, left, right, addr) && HasValue(ss, t, left, right, addr + 1)
    ensures left <= i < j <= right && ss[i] == Stab(t, addr) && ss[j] == Stab(t, addr + 1) && NoneOf(ss, t, i + 1, j)
  {
    i :| left <= i <= right && ss[i].kind == t && ss[i].value == addr;
    j :| left <= j <= right && ss[j].kind == t && ss[j].value == addr + 1;
    while !NoneOf(ss, t, i + 1, j)
      invariant left <= i < j <= right && ss[i] == Stab(t, addr) && ss[j] == Stab(t, addr + 1)
      decreases j - i
    {
      var k :| i + 1 <= k < j && ss[k].kind == t;
      assert addr <= ss[k].value <= addr + 1;
      if ss[k].value == addr {
        i := k;
      } else {
        j := k;
      }
    }
  }

  /**
    The condition a caller can read off the symbols: on symbols in order, the search for addr is right on every part
    of the region exactly if not both addr and addr + 1 are values of the kind; for the last address, exactly if it is
    no value.
  */
  lemma RightIff(ss: seq<Stab>, t: int, left: int, right: int, addr: nat)
    requires Ordered(ss, t, left, right) && addr < ADDR_LIMIT && addr != ADDR_LIMIT - 2
    ensures RightEverywhere(ss, t, left, right, addr) <==> Searchable(ss, t, left, right, addr)
  {
    hide Found, BinSearch;
    if Searchable(ss, t, left, right, addr) {
      forall l, r | left <= l <= r <= right
        ensures Found(ss, t, l, r, addr, BinSearch(ss, t, l, r, addr))
      {
        PartSearchable(ss, t, left, right, addr, l, r);
        Brackets(ss, t, l, r, addr);
      }
    } else if addr + 1 < ADDR_LIMIT {
      var i, j := Neighbours(ss, t, left, right, addr);
      AdjacentMisses(ss, t, i, j, addr);
    } else {
      var i :| left <= i <= right && ss[i].kind == t && ss[i].value == addr;
      LastAddressMisses(ss, t, i);
    }
  }

  lemma PartSearchable(ss: seq<Stab>, t: int, left: int, right: int, addr: nat, l: int, r: int)
    requires Searchable(ss, t, left, right, addr) && left <= l <= r <= right
    ensures Searchable(ss, t, l, r, addr)
  {
    assert HasValue(ss, t, l, r, addr) ==> HasValue(ss, t, left, right, addr);
    assert HasValue(ss, t, l, r, addr + 1) ==> HasValue(ss, t, left, right, addr + 1);
  }

  /** So the documented test for "not found", left > right, holds exactly if the region has no symbol of the kind
      at all: symbols that all lie above addr are not reported that way. */
  lemma EmptyIff(ss: seq<Stab>, t: int, left: int, right: int, addr: nat)
    requires Searchable(ss, t, left, right, addr)
    ensures var g := BinSearch(ss, t, left, right, addr); g.left > g.right <==> NoneOf(ss, t, left, right + 1)
  {
    Brackets(ss, t, left, right, addr);
  }

  /** A turn whose probe is of the kind, followed by the rest of the search. */
  lemma DirectTurn(ss: seq<Stab>, t: int, s: Loop, s': Loop)
    requires InRange(ss, s) && s.l <= s.r && var m := (s.l + s.r) / 2; ss[m].kind == t
    requires var m := (s.l + s.r) / 2;
             s' == if ss[m].value < s.addr then s.(left := m, any := true, l := m + 1)
                   else if ss[m].value > s.addr then s.(right := m - 1, any := true, r := m - 1)
                   else s.(left := m, any := true, l := m, addr := (s.addr + 1) % ADDR_LIMIT)
    ensures InRange(ss, s') && Search(ss, t, s) == Search(ss, t, s')
  {
    hide Search;
    SearchUnfold(ss, t, s);
  }

  /** Distracted: looking for 5 among 5, 6 returns the symbol of 6. */
  lemma AdjacentValues()
    ensures BinSearch([Stab(1, 5), Stab(1, 6)], 1, 0, 1, 5) == Region(1, 1)
  {
    hide Search;
    var ss := [Stab(1, 5), Stab(1, 6)];
    DirectTurn(ss, 1, Loop(0, 1, 0, 1, false, 5), Loop(0, 1, 0, 1, true, 6));
    DirectTurn(ss, 1, Loop(0, 1, 0, 1, true, 6), Loop(1, 1, 0, 1, true, 6));
    DirectTurn(ss, 1, Loop(1, 1, 0, 1, true, 6), Loop(1, 1, 1, 1, true, 7));
    DirectTurn(ss, 1, Loop(1, 1, 1, 1, true, 7), Loop(2, 1, 1, 1, true, 7));
    SearchUnfold(ss, 1, Loop(2, 1, 1, 1, true, 7));
  }
}
