/**
  The round-robin choice of kern/sched.c: which environment a scheduling call picks, and why a
  waiting environment is picked within as many calls as the table has slots.
*/
module Sched {
  import opened Pmap
  import opened Kernel
  import opened KernelInv
  import opened Arith

  /** How many slots after `from`, cyclically, slot e lies. */
  function Ahead(from: int, e: nat, n: nat): (d: nat)
    requires n > 0
    ensures d < n
  {
    (e - from) % n
  }

  lemma ModOf(q: int, r: nat, n: nat, x: int)
    requires r < n && x == q * n + r
    ensures x % n == r
  {
    MulMod(q, r, n);
  }

  /** Starting one slot later brings every other slot one step closer. */
  lemma AheadStep(from: nat, e: nat, n: nat)
    requires e < n
    ensures Ahead(from, e, n) == 0 <==> e == from % n
    ensures Ahead(from, e, n) > 0 ==> Ahead(from + 1, e, n) == Ahead(from, e, n) - 1
  {
    var q, r := (e - from) / n, (e - from) % n;
    assert e - from == q * n + r;
    if r > 0 {
      ModOf(q, r - 1, n, e - (from + 1));
      if e == from % n {
        ModOf(0 - from / n, 0, n, e - from);
      }
    } else {
      ModOf(0 - q, e, n, from);
    }
  }

  /** Distances along the cycle add up. */
  lemma Between(from: nat, i: nat, e: nat, n: nat)
    requires i < n && e < n && Ahead(from, i, n) <= Ahead(from, e, n)
    ensures Ahead(i, e, n) == Ahead(from, e, n) - Ahead(from, i, n)
  {
    var di, de := Ahead(from, i, n), Ahead(from, e, n);
    var qi, qe := (i - from) / n, (e - from) / n;
    assert i - from == qi * n + di && e - from == qe * n + de;
    assert e - i == (qe - qi) * n + (de - di);
    ModOf(qe - qi, de - di, n, e - i);
  }

  /** The scan stops at the eligible slot at the least cyclic distance within its range. */
  lemma {:induction false} ScanNearest(envs: seq<Env>, start: nat, left: nat)
    requires 0 < |envs| && left <= |envs|
    ensures var i := Scan(envs, start, left); i >= 0 ==> Eligible(envs, i) && Ahead(start, i, |envs|) < left
    ensures var i := Scan(envs, start, left);
            forall e: nat :: e < |envs| && Eligible(envs, e) && Ahead(start, e, |envs|) < left ==>
              0 <= i && Ahead(start, i, |envs|) <= Ahead(start, e, |envs|)
    decreases left
  {
    var n, i := |envs|, Scan(envs, start, left);
    hide Ahead;
    if left > 0 {
      AheadStep(start, start % n, n);
      if !Eligible(envs, start % n) {
        ScanNearest(envs, start + 1, left - 1);
        if i >= 0 {
          AheadStep(start, i, n);
        }
        forall e: nat | e < n && Eligible(envs, e) && Ahead(start, e, n) < left
          ensures 0 <= i && Ahead(start, i, n) <= Ahead(start, e, n)
        {
          AheadStep(start, e, n);
        }
      }
    }
  }

  /** sched_yield's choice: the eligible environment at the least cyclic distance from where it starts,
      and none only if no environment is eligible. */
  lemma NearestChosen(envs: seq<Env>, start: nat)
    requires 0 < |envs|
    ensures var i := Scan(envs, start, |envs|);
            && (i < 0 <==> forall e: nat :: e < |envs| ==> !Eligible(envs, e))
            && (i >= 0 ==> Eligible(envs, i) && forall e: nat :: e < |envs| && Eligible(envs, e) ==>
                             Ahead(start, i, |envs|) <= Ahead(start, e, |envs|))
  {
    ScanNearest(envs, start, |envs|);
  }

  // ----- fairness -----

  /** A scheduling call on CPU c while e waits: the CPU has a current environment, which is not
      RUNNABLE unless it is e itself. */
  ghost predicate Waits(k: K, c: nat, e: nat) {
    && c < |k.cpu| && 0 <= k.cpu[c] < |k.envs| && e < |k.envs| && Eligible(k.envs, e)
    && (k.cpu[c] != e ==> k.envs[k.cpu[c]].status != RUNNABLE)
  }

  /** The environment the call leaves current. */
  function Picked(k: K, c: nat): int
    requires |k.envs| > 0 && c < |k.cpu| && k.cpu[c] < |k.envs|
  {
    SchedYield(k, c).k.cpu[c]
  }

  /** Each scheduling call picks the waiting environment or brings the CPU closer to it. */
  lemma Closer(k: K, c: nat, e: nat)
    requires Waits(k, c, e)
    ensures SchedYield(k, c).Ran? && 0 <= Picked(k, c) < |k.envs|
    ensures Picked(k, c) == e || Ahead(Picked(k, c), e, |k.envs|) < Ahead(k.cpu[c], e, |k.envs|)
  {
    hide Ahead, Scan;
    var n, cur := |k.envs|, k.cpu[c];
    var k1, start := Unrun(k, c), ScanStart(k, c);
    NearestChosen(k1.envs, start);
    var i := Scan(k1.envs, start, n);
    EnvRunCpu(k, c, e);
    if i != e {
      assert start == cur ==> i != cur;
      Nearer(cur, start, i, e, n);
    }
  }

  /** With someone eligible, the call runs what the scan finds. */
  lemma EnvRunCpu(k: K, c: nat, e: nat)
    requires Waits(k, c, e)
    ensures var i := Scan(Unrun(k, c).envs, ScanStart(k, c), |k.envs|);
            SchedYield(k, c).Ran? && Picked(k, c) == i >= 0 && Eligible(Unrun(k, c).envs, e)
  {
    hide Scan, Ahead;
    var k1 := Unrun(k, c);
    assert Eligible(k1.envs, e);
    NearestChosen(k1.envs, ScanStart(k, c));
  }

  lemma Nearer(cur: nat, start: nat, i: nat, e: nat, n: nat)
    requires cur < n && i < n && e < n && i != e && Ahead(start, i, n) <= Ahead(start, e, n)
    requires start == cur || (start == cur + 1 && cur != e)
    requires start == cur ==> i != cur
    ensures Ahead(i, e, n) < Ahead(cur, e, n)
  {
    hide Ahead;
    SmallMod(cur, n);
    Between(start, i, e, n);
    AheadStep(cur, e, n);
    AheadStep(cur, i, n);
  }

  lemma SmallMod(x: nat, n: nat)
    requires x < n
    ensures x % n == x
  {
    MulMod(0, x, n);
  }

  /** Successive scheduling calls on CPU c while e waits, over a table of n slots. */
  ghost predicate Calls(ks: seq<K>, c: nat, e: nat, n: nat) {
    && (forall j :: 0 <= j < |ks| ==> Waits(ks[j], c, e) && |ks[j].envs| == n)
    && (forall j :: 0 < j < |ks| ==> ks[j].cpu[c] == Picked(ks[j - 1], c))
  }

  /**
    Fairness: over successive scheduling calls on one CPU, with anything happening in between, an
    environment that stays RUNNABLE is picked within NENV calls.
  */
  lemma {:induction false} PickedInTime(ks: seq<K>, c: nat, e: nat, n: nat)
    requires |ks| > 0 && Calls(ks, c, e, n) && |ks| > Ahead(ks[0].cpu[c], e, n)
    ensures exists j :: 0 <= j < |ks| && Picked(ks[j], c) == e
  {
    Closer(ks[0], c, e);
    if Picked(ks[0], c) != e {
      var rest := ks[1..];
      assert |ks| > 1;
      assert ks[1] == rest[0];
      assert forall j :: 0 <= j < |rest| ==> rest[j] == ks[j + 1];
      PickedInTime(rest, c, e, n);
      var j :| 0 <= j < |rest| && Picked(rest[j], c) == e;
      assert Picked(ks[j + 1], c) == e;
    }
  }

  /** When a trap gives up the CPU, its environment is not RUNNABLE: Waits asks nothing more. */
  lemma SwitchNotRunnable(k: K, c: nat, call: Call)
    requires Entered(k, c) && Ready(k, c) && Allowed(k, c, call) && Dispatch(k, c, call).Switch?
    ensures var k' := Dispatch(k, c, call).k;
            k'.cpu[c] == -1 || (0 <= k'.cpu[c] < |k'.envs| && k'.envs[k'.cpu[c]].status in {RUNNING, NOT_RUNNABLE})
  {
    hide Inv, FreeSpace, PageMapAt, PageAllocAt, EnvAlloc, SysIpcTrySend, SysPageAlloc, SysPageMap, SysPageUnmap,
      SysExofork,
      SysSetUpcall, ListOk, IdsOk, IpcOk, IdleOk, Stored;
    SendReturns(k, c, call);
  }

  /** Only yielding, destroying and receiving can give up the CPU. */
  lemma SendReturns(k: K, c: nat, call: Call)
    requires Ready(k, c)
    ensures Dispatch(k, c, call).Switch? ==> call.Yield? || call.Destroy? || call.Recv? || call.Crash?
  {
    hide FreeSpace, PageMapAt, PageAllocAt, EnvAlloc, Stored;
  }
}
