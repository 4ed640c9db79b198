/**
  The concurrent prime sieve (user/primes.c) on one-slot IPC (kern/syscall.c).

  Process 0 is the generator; process k >= 1 is the k-th stage.  Any process may take the next
  step.  `got` and `out` record what each process has received and sent.
*/
module Sieve {
  import Kernel
  import Errors
  import IpcLog
  import Smp
  import opened Arith

  /** env_ipc_recving and env_ipc_value. */
  datatype Slot = Slot(recving: bool, value: nat)

  datatype Proc =
    | Gen(next: nat)
    | Top
    | TopWait
    | HavePrime(p: nat)
    | Loop(p: nat)
    | LoopWait(p: nat)
    | Have(p: nat, i: nat)
    | Sending(p: nat, i: nat)

  datatype V = V(procs: seq<Proc>, slots: seq<Slot>, got: seq<seq<nat>>, out: seq<seq<nat>>)

  // ----- the program -----

  /** sys_ipc_try_send without a page: succeeds iff the target is receiving. */
  function TrySend(v: V, k: nat, msg: nat, then': Proc): V
    requires k + 1 < |v.slots| && k < |v.procs| && k < |v.out|
  {
    if v.slots[k + 1].recving
    then v.(slots := v.slots[k + 1 := Slot(false, msg)], out := v.out[k := v.out[k] + [msg]],
            procs := v.procs[k := then'])
    else v
  }

  /** One step of process k. */
  function Step(v: V, k: nat): V
    requires Shaped(v) && k < |v.procs|
  {
    match v.procs[k]
    case Gen(n) => if n < Kernel.INT_LIMIT then TrySend(v, k, n, Gen(n + 1)) else v
    case Top => v.(procs := v.procs[k := TopWait], slots := v.slots[k := v.slots[k].(recving := true)])
    case TopWait =>
      if v.slots[k].recving then v
      else v.(procs := v.procs[k := HavePrime(v.slots[k].value)], got := v.got[k := v.got[k] + [v.slots[k].value]])
    case HavePrime(p) =>
      V(v.procs[k := Loop(p)] + [Top], v.slots + [Slot(false, 0)], v.got + [[]], v.out + [[]])
    case Loop(p) => v.(procs := v.procs[k := LoopWait(p)], slots := v.slots[k := v.slots[k].(recving := true)])
    case LoopWait(p) =>
      if v.slots[k].recving then v
      else v.(procs := v.procs[k := Have(p, v.slots[k].value)], got := v.got[k := v.got[k] + [v.slots[k].value]])
    case Have(p, i) => v.(procs := v.procs[k := if p != 0 && i % p == 0 then Loop(p) else Sending(p, i)])
    case Sending(p, i) => TrySend(v, k, i, Loop(p))
  }

  /** Enough structure for Step: the generator is first, only the last stage has not forked yet. */
  predicate Shaped(v: V) {
    && |v.procs| == |v.slots| == |v.got| == |v.out| >= 2
    && (forall k :: 0 <= k < |v.procs| ==>
          if k == 0 then v.procs[k].Gen?
          else if k == |v.procs| - 1 then v.procs[k].Top? || v.procs[k].TopWait? || v.procs[k].HavePrime?
          else v.procs[k].Loop? || v.procs[k].LoopWait? || v.procs[k].Have? || v.procs[k].Sending?)
  }

  const START: V := V([Gen(2), Top], [Slot(false, 0), Slot(false, 0)], [[], []], [[], []])

  lemma StepShaped(v: V, k: nat)
    requires Shaped(v) && k < |v.procs|
    ensures Shaped(Step(v, k))
  {
  }

  /** The state after the processes in `sched` step in that order (entries naming no process are skipped). */
  function Exec(sched: seq<nat>): (v: V)
    ensures Shaped(v)
    decreases |sched|
  {
    if sched == [] then START
    else
      var v := Exec(sched[..|sched| - 1]);
      var k := sched[|sched| - 1];
      if k < |v.procs| then StepShaped(v, k); Step(v, k) else v
  }

  // ----- channels -----

  function Filter(xs: seq<nat>, p: nat): seq<nat> {
    if xs == [] then []
    else
      var last := xs[|xs| - 1];
      Filter(xs[..|xs| - 1], p) + if p != 0 && last % p == 0 then [] else [last]
  }

  function Ints(n: nat): seq<nat>
    requires n >= 2
  {
    seq(n - 2, i => i + 2)
  }

  /** A message delivered to k and not yet read. */
  predicate InFlight(v: V, k: nat)
    requires Shaped(v) && k < |v.procs|
  {
    (v.procs[k].TopWait? || v.procs[k].LoopWait?) && !v.slots[k].recving
  }

  /** Exactly once, in order: everything sent to k was received by k, but for one message in its slot. */
  predicate ChannelOk(v: V, k: nat)
    requires Shaped(v) && 1 <= k < |v.procs|
  {
    && v.out[k - 1] == v.got[k] + (if InFlight(v, k) then [v.slots[k].value] else [])
    && (v.slots[k].recving ==> v.procs[k].TopWait? || v.procs[k].LoopWait?)
  }

  /** What a process has sent is the filtered image of what it has received. */
  predicate StageOk(v: V, k: nat)
    requires Shaped(v) && k < |v.procs|
  {
    match v.procs[k]
    case Gen(n) => n >= 2 && v.out[k] == Ints(n)
    case Top => v.got[k] == [] && v.out[k] == []
    case TopWait => v.got[k] == [] && v.out[k] == []
    case HavePrime(p) => v.got[k] == [p] && v.out[k] == []
    case Loop(p) => v.got[k] != [] && v.got[k][0] == p && v.out[k] == Filter(v.got[k][1..], p)
    case LoopWait(p) => v.got[k] != [] && v.got[k][0] == p && v.out[k] == Filter(v.got[k][1..], p)
    case Have(p, i) =>
      && |v.got[k]| >= 2 && v.got[k][0] == p && v.got[k][|v.got[k]| - 1] == i
      && v.out[k] == Filter(v.got[k][1..|v.got[k]| - 1], p)
    case Sending(p, i) =>
      && |v.got[k]| >= 2 && v.got[k][0] == p && v.got[k][|v.got[k]| - 1] == i
      && v.out[k] == Filter(v.got[k][1..|v.got[k]| - 1], p) && !(p != 0 && i % p == 0)
  }

  ghost predicate Inv(v: V) {
    && Shaped(v)
    && (forall k: nat :: k < |v.procs| ==> StageOk(v, k))
    && (forall k: nat :: 1 <= k < |v.procs| ==> ChannelOk(v, k))
  }

  lemma StepStages(v: V, k: nat, j: nat)
    requires Shaped(v) && k < |v.procs| && j < |v.procs| && StageOk(v, j) && StageOk(v, k)
    ensures Shaped(Step(v, k)) && j < |Step(v, k).procs| && StageOk(Step(v, k), j)
  {
    StepShaped(v, k);
    var v' := Step(v, k);
    if j == k {
      var g := v.got[k];
      if v.procs[k].TopWait? && !v.slots[k].recving {
        assert v'.got[k] == [v.slots[k].value];
      } else if v.procs[k].HavePrime? {
        assert g[1..] == [];
      } else if v.procs[k].LoopWait? && !v.slots[k].recving {
        var g' := v'.got[k];
        assert g'[1..|g'| - 1] == g[1..];
      } else if v.procs[k].Have? || v.procs[k].Sending? {
        var xs := g[1..];
        assert xs[..|xs| - 1] == g[1..|g| - 1];
      }
    }
  }

  lemma StepChannels(v: V, k: nat, j: nat)
    requires Shaped(v) && k < |v.procs| && 1 <= j < |v.procs| && ChannelOk(v, j)
    ensures Shaped(Step(v, k)) && j < |Step(v, k).procs| && ChannelOk(Step(v, k), j)
  {
    StepShaped(v, k);
  }

  lemma StepNewborn(v: V, k: nat)
    requires Inv(v) && k < |v.procs| && v.procs[k].HavePrime?
    ensures var v' := Step(v, k); var n := |v.procs|;
            Shaped(v') && |v'.procs| == n + 1 && StageOk(v', n) && ChannelOk(v', n)
  {
    StepShaped(v, k);
    assert StageOk(v, k);
  }

  lemma StepInv(v: V, k: nat)
    requires Inv(v) && k < |v.procs|
    ensures Inv(Step(v, k))
  {
    StepShaped(v, k);
    var v' := Step(v, k);
    hide Step, StageOk, ChannelOk, Shaped;
    StepGrows(v, k);
    forall j: nat | j < |v'.procs|
      ensures StageOk(v', j)
    {
      if j < |v.procs| {
        StepStages(v, k, j);
      } else {
        StepNewborn(v, k);
      }
    }
    forall j: nat | 1 <= j < |v'.procs|
      ensures ChannelOk(v', j)
    {
      if j < |v.procs| {
        StepChannels(v, k, j);
      } else {
        StepNewborn(v, k);
      }
    }
  }

  lemma StepGrows(v: V, k: nat)
    requires Shaped(v) && k < |v.procs|
    ensures |Step(v, k).procs| == |v.procs| + if v.procs[k].HavePrime? then 1 else 0
  {
  }

  lemma {:induction false} ExecInv(sched: seq<nat>)
    ensures Inv(Exec(sched))
    decreases |sched|
  {
    if sched != [] {
      var v := Exec(sched[..|sched| - 1]);
      ExecInv(sched[..|sched| - 1]);
      var k := sched[|sched| - 1];
      if k < |v.procs| {
        StepInv(v, k);
      }
    }
  }

  // ----- primes -----

  ghost predicate Prime(n: nat) {
    n >= 2 && forall d: nat :: 2 <= d < n ==> n % d != 0
  }

  /** ps lists the first |ps| primes in order. */
  ghost predicate FirstPrimes(ps: seq<nat>) {
    && (forall i :: 0 <= i < |ps| ==> Prime(ps[i]))
    && (forall i, j :: 0 <= i < j < |ps| ==> ps[i] < ps[j])
    && (forall q: nat :: ps != [] && Prime(q) && q <= ps[|ps| - 1] ==> q in ps)
  }

  predicate Indivisible(ps: seq<nat>, x: nat) {
    forall i :: 0 <= i < |ps| ==> ps[i] != 0 && x % ps[i] != 0
  }

  /** The integers from 2 up to n-1 that no element of ps divides, in order. */
  function Sieved(ps: seq<nat>, n: nat): seq<nat>
    requires n >= 2
  {
    if n == 2 then [] else Sieved(ps, n - 1) + if Indivisible(ps, n - 1) then [n - 1] else []
  }

  /** The least integer from 2 that none of the first primes divides is the next prime. */
  lemma NextPrime(ps: seq<nat>, x: nat)
    requires FirstPrimes(ps) && x >= 2 && Indivisible(ps, x)
    requires forall y: nat :: 2 <= y < x ==> !Indivisible(ps, y)
    ensures FirstPrimes(ps + [x])
  {
    forall d: nat | 2 <= d < x
      ensures x % d != 0
    {
      assert !Indivisible(ps, d);
      var i :| 0 <= i < |ps| && (ps[i] == 0 || d % ps[i] == 0);
      assert Prime(ps[i]);
      if x % d == 0 {
        ModTrans(x, d, ps[i]);
      }
    }
    assert Prime(x);
    assert x !in ps;
    forall q: nat | Prime(q) && q <= x
      ensures q in ps + [x]
    {
      if q < x {
        assert !Indivisible(ps, q);
        var i :| 0 <= i < |ps| && (ps[i] == 0 || q % ps[i] == 0);
        assert Prime(ps[i]);
        SmallestDivisor(q, ps[i]);
      }
    }
    forall i | 0 <= i < |ps|
      ensures ps[i] < x
    {
      assert ps[i] <= ps[|ps| - 1];
      assert ps[i] != x;
    }
  }

  lemma SmallestDivisor(q: nat, p: nat)
    requires Prime(q) && Prime(p) && q % p == 0
    ensures p == q
  {
  }

  // ----- lists -----

  lemma {:induction false} FilterConcat(xs: seq<nat>, ys: seq<nat>, p: nat)
    ensures Filter(xs + ys, p) == Filter(xs, p) + Filter(ys, p)
    decreases |ys|
  {
    if ys == [] {
      assert xs + ys == xs;
    } else {
      var ys0 := ys[..|ys| - 1];
      FilterConcat(xs, ys0, p);
      assert (xs + ys)[..|xs + ys| - 1] == xs + ys0;
    }
  }

  lemma FilterPrefix(xs: seq<nat>, ys: seq<nat>, p: nat)
    requires xs <= ys
    ensures Filter(xs, p) <= Filter(ys, p)
  {
    assert ys == xs + ys[|xs|..];
    FilterConcat(xs, ys[|xs|..], p);
  }

  lemma {:induction false} SievedNone(n: nat)
    requires n >= 2
    ensures Sieved([], n) == Ints(n)
  {
    if n > 2 {
      SievedNone(n - 1);
    }
  }

  lemma FilterSnoc(xs: seq<nat>, x: nat, p: nat)
    ensures Filter(xs + [x], p) == Filter(xs, p) + if p != 0 && x % p == 0 then [] else [x]
  {
    assert (xs + [x])[..|xs|] == xs;
  }

  lemma {:induction false} FilterSieved(ps: seq<nat>, p: nat, n: nat)
    requires n >= 2 && p != 0
    ensures Filter(Sieved(ps, n), p) == Sieved(ps + [p], n)
  {
    hide Indivisible, Filter;
    if n == 2 {
      FilterNone(p);
    } else {
      FilterSieved(ps, p, n - 1);
      IndivisibleSnoc(ps, p, n - 1);
      FilterSnoc(Sieved(ps, n - 1), n - 1, p);
      assert Sieved(ps, n - 1) + [] == Sieved(ps, n - 1);
    }
  }

  lemma FilterNone(p: nat)
    ensures Filter([], p) == []
  {
  }

  lemma IndivisibleSnoc(ps: seq<nat>, p: nat, x: nat)
    requires p != 0
    ensures Indivisible(ps + [p], x) <==> Indivisible(ps, x) && x % p != 0
  {
    var qs := ps + [p];
    if Indivisible(qs, x) {
      assert qs[|ps|] == p;
      assert forall i :: 0 <= i < |ps| ==> qs[i] == ps[i];
    }
  }

  /** The first surviving integer is the least one. */
  lemma {:induction false} SievedFirst(ps: seq<nat>, n: nat)
    requires n >= 2
    ensures Sieved(ps, n) == [] ==> forall y: nat :: 2 <= y < n ==> !Indivisible(ps, y)
    ensures Sieved(ps, n) != [] ==>
              var x := Sieved(ps, n)[0];
              && 2 <= x < n && Indivisible(ps, x)
              && (forall y: nat :: 2 <= y < x ==> !Indivisible(ps, y))
  {
    if n > 2 {
      SievedFirst(ps, n - 1);
    }
  }

  // ----- the chain -----

  /** The first values received by stages 1 .. k-1. */
  function Heads(v: V, k: nat): seq<nat>
    requires Shaped(v) && 1 <= k < |v.procs|
    requires forall j :: 1 <= j < k ==> v.got[j] != []
  {
    seq(k - 1, j requires 0 <= j < k - 1 => v.got[j + 1][0])
  }

  lemma ForkedHasHead(v: V, j: nat)
    requires Inv(v) && 1 <= j < |v.procs| - 1
    ensures v.got[j] != []
  {
    assert StageOk(v, j);
  }

  lemma ForkedHaveHeads(v: V, k: nat)
    requires Inv(v) && 1 <= k < |v.procs|
    ensures forall j :: 1 <= j < k ==> v.got[j] != []
  {
    forall j | 1 <= j < k
      ensures v.got[j] != []
    {
      ForkedHasHead(v, j);
    }
  }

  /** A stage that has forked has sent a filtered prefix of what it received after its prime. */
  lemma SentPrefix(v: V, k: nat)
    requires Inv(v) && 1 <= k < |v.procs| - 1
    ensures v.got[k] != [] && v.out[k] <= Filter(v.got[k][1..], v.got[k][0])
  {
    assert StageOk(v, k);
    var g := v.got[k];
    if v.procs[k].Have? || v.procs[k].Sending? {
      FilterPrefix(g[1..|g| - 1], g[1..], g[0]);
    }
  }

  lemma FirstStage(v: V)
    requires Inv(v)
    ensures v.procs[0].Gen? && v.procs[0].next >= 2 && v.got[1] <= Sieved([], v.procs[0].next)
  {
    assert StageOk(v, 0) && ChannelOk(v, 1);
    SievedNone(v.procs[0].next);
  }

  lemma ReceivedPrefix(v: V, k: nat)
    requires Inv(v) && 1 <= k < |v.procs|
    ensures v.got[k] <= v.out[k - 1]
  {
    assert ChannelOk(v, k);
  }

  lemma {:induction false} StageInputs(v: V, k: nat)
    requires Inv(v) && 1 <= k < |v.procs|
    ensures forall j :: 1 <= j < k ==> v.got[j] != []
    ensures v.procs[0].Gen? && v.procs[0].next >= 2
    ensures FirstPrimes(Heads(v, k)) && v.got[k] <= Sieved(Heads(v, k), v.procs[0].next)
    decreases k
  {
    hide Inv, Sieved;
    InvShaped(v);
    ForkedHaveHeads(v, k);
    FirstStage(v);
    if k == 1 {
      assert Heads(v, 1) == [];
    } else {
      StageInputs(v, k - 1);
      SentPrefix(v, k - 1);
      ReceivedPrefix(v, k);
      assert Heads(v, k) == Heads(v, k - 1) + [v.got[k - 1][0]];
      PassedOn(Heads(v, k - 1), v.got[k - 1], v.out[k - 1], v.procs[0].next);
    }
  }

  lemma InvShaped(v: V)
    requires Inv(v)
    ensures Shaped(v)
  {
  }

  /** What a stage with inputs g passes on is a prefix of what the next prime leaves over. */
  lemma PassedOn(ps: seq<nat>, g: seq<nat>, sent: seq<nat>, n: nat)
    requires n >= 2 && FirstPrimes(ps) && g != [] && g <= Sieved(ps, n) && sent <= Filter(g[1..], g[0])
    ensures FirstPrimes(ps + [g[0]]) && sent <= Sieved(ps + [g[0]], n)
  {
    hide Sieved, Filter, FirstPrimes;
    NextStage(ps, g, n);
    TailPrefix(g, Sieved(ps, n));
    FilterPrefix(g[1..], Sieved(ps, n)[1..], g[0]);
  }

  lemma TailPrefix(xs: seq<nat>, ys: seq<nat>)
    requires xs <= ys && xs != []
    ensures xs[1..] <= ys[1..]
  {
  }

  lemma FilterSelf(p: nat)
    requires p > 0
    ensures Filter([p], p) == []
  {
    assert [p][..0] == [];
  }

  /** One stage further: its head is the next prime, and it passes on what that prime does not divide. */
  lemma NextStage(ps: seq<nat>, g: seq<nat>, n: nat)
    requires n >= 2 && FirstPrimes(ps) && g != [] && g <= Sieved(ps, n)
    ensures FirstPrimes(ps + [g[0]])
    ensures Filter(Sieved(ps, n)[1..], g[0]) == Sieved(ps + [g[0]], n)
  {
    hide Sieved, Filter, FirstPrimes;
    var all, p := Sieved(ps, n), g[0];
    assert p == all[0];
    SievedFirst(ps, n);
    NextPrime(ps, p);
    FilterSieved(ps, p, n);
    assert all == [p] + all[1..];
    FilterConcat([p], all[1..], p);
    FilterSelf(p);
  }

  /**
    Under every schedule, the values stage k has received are, in order, a prefix of the
    integers from 2 that none of the first k-1 primes divides, and its first one is the
    k-th prime.
  */
  lemma SieveCorrect(sched: seq<nat>, k: nat)
    requires 1 <= k < |Exec(sched).procs|
    ensures var v := Exec(sched);
            && (forall j :: 1 <= j < k ==> v.got[j] != [])
            && v.procs[0].Gen? && 2 <= v.procs[0].next
            && FirstPrimes(Heads(v, k)) && |Heads(v, k)| == k - 1
            && v.got[k] <= Sieved(Heads(v, k), v.procs[0].next)
            && (v.got[k] != [] ==> FirstPrimes(Heads(v, k) + [v.got[k][0]]))
  {
    var v := Exec(sched);
    ExecInv(sched);
    StageInputs(v, k);
    if v.got[k] != [] {
      NextStage(Heads(v, k), v.got[k], v.procs[0].next);
    }
  }

  /** The slot used here is the kernel's: with no page, sys_ipc_try_send is TrySend's test and store. */
  lemma KernelSlot(k: Kernel.K, c: nat, envid: int, e: nat, msg: int)
    requires Kernel.Ready(k, c) && Kernel.EnvId2Env(k, c, envid, false) == Kernel.Found(e)
    ensures var o := Kernel.SysIpcTrySend(k, c, envid, msg, Kernel.IPC_NO_PAGE, {});
            && o.Return?
            && (k.envs[e].recving ==> o.r == 0 && !o.k.envs[e].recving && o.k.envs[e].value == msg)
            && (!k.envs[e].recving ==> o.r == -Errors.E_IPC_NOT_RECV && o.k == k)
  {
  }

  // ----- the channels are the kernel's -----

  function Values(ms: seq<IpcLog.Msg>): (xs: seq<int>)
    ensures |xs| == |ms|
  {
    seq(|ms|, i requires 0 <= i < |ms| => ms[i].value)
  }

  /** A message delivered to slot e whose ipc_recv has not returned yet. */
  ghost predicate Undelivered(l: IpcLog.L, e: nat)
    requires e < |l.at| && e < |l.s.k.envs|
  {
    !l.at[e].Out? && !l.s.k.envs[e].recving
  }

  /**
    What ChannelOk says of two stages holds of every live environment of every run of the kernel: the values
    successfully sent to it are those its ipc_recv returned, in order, and the one in its slot if it has one; and
    it is receiving only inside ipc_recv.
  */
  lemma KernelChannel(ls: seq<IpcLog.L>, vs: seq<IpcLog.Event>, i: nat, e: nat)
    requires IpcLog.IsLogRun(ls, vs) && i < |ls| && e < |ls[i].s.k.envs| && ls[i].s.k.envs[e].status != Kernel.FREE
    ensures |ls[i].sent| == |ls[i].got| == |ls[i].at| == |ls[i].s.k.envs|
    ensures Values(ls[i].sent[e]) ==
              Values(ls[i].got[e]) + (if Undelivered(ls[i], e) then [ls[i].s.k.envs[e].value] else [])
    ensures ls[i].s.k.envs[e].recving ==> ls[i].at[e].Inside?
  {
    hide IpcLog.IsLogRun, Smp.SysInv;
    IpcLog.LogRunOk(ls, vs, i);
    assert IpcLog.SlotOk(ls[i].s.k.envs[e], ls[i].sent[e], ls[i].got[e], ls[i].at[e]);
  }
}
