/**
  Environment identifiers over whole runs (kern/env.c): the identifiers of a slot form one cycle
  of length 2^19 - 1, live identifiers are distinct, and a stale one is not resolved before its turn
  comes round again.
*/
module EnvIds {
  import opened Pmap
  import opened Kernel
  import opened KernelInv
  import opened Smp
  import IpcLog

  /** How many identifiers a slot has. */
  const CYCLE: nat := 0x7_FFFF

  /** The identifier of a slot after j more allocations there. */
  function Later(id: int, slot: nat, n: nat, j: nat): int
    requires n > 0
  {
    if j == 0 then id else NextId(Later(id, slot, n, j - 1), slot, n)
  }

  /** The place of an identifier in its slot's cycle. */
  function Place(id: int, slot: nat): int {
    (id - slot) / GENERATION - 1
  }

  ghost predicate Issued(id: int, slot: nat, n: nat) {
    0 < n <= GENERATION && GENERATION % n == 0 && slot < n && IdOk(id, slot) && id > 0
  }

  /** Identifiers of a slot and their places determine each other. */
  lemma PlaceExact(id: int, slot: nat, n: nat)
    requires Issued(id, slot, n)
    ensures 0 <= Place(id, slot) < CYCLE && id == (Place(id, slot) + 1) * GENERATION + slot
  {
  }

  lemma NextPlace(id: int, slot: nat, n: nat)
    requires Issued(id, slot, n)
    ensures Issued(NextId(id, slot, n), slot, n)
    ensures Place(NextId(id, slot, n), slot) == if Place(id, slot) + 1 == CYCLE then 0 else Place(id, slot) + 1
  {
    hide NextId;
    NextIdOk(id, slot, n);
    PlaceExact(id, slot, n);
  }

  lemma CycleStep(a: nat)
    ensures (a + 1) % CYCLE == if a % CYCLE + 1 == CYCLE then 0 else a % CYCLE + 1
  {
  }

  lemma {:induction false} LaterPlace(id: int, slot: nat, n: nat, j: nat)
    requires n > 0 && Issued(id, slot, n)
    ensures Issued(Later(id, slot, n, j), slot, n)
    ensures Place(Later(id, slot, n, j), slot) == (Place(id, slot) + j) % CYCLE
  {
    hide NextId, IdOk, Place, Issued;
    PlaceExact(id, slot, n);
    if j > 0 {
      LaterPlace(id, slot, n, j - 1);
      NextPlace(Later(id, slot, n, j - 1), slot, n);
      CycleStep(Place(id, slot) + j - 1);
    }
  }

  /** An identifier comes back after exactly the multiples of 2^19 - 1 allocations in its slot. */
  lemma Recurs(id: int, slot: nat, n: nat, j: nat)
    requires Issued(id, slot, n)
    ensures Later(id, slot, n, j) == id <==> j % CYCLE == 0
  {
    hide Later, IdOk;
    LaterPlace(id, slot, n, j);
    PlaceExact(id, slot, n);
    PlaceExact(Later(id, slot, n, j), slot, n);
    hide Place;
  }

  /** Live identifiers are pairwise distinct, positive, and name their slot. */
  lemma LiveDistinct(k: K, e: nat, f: nat)
    requires IdsOk(k) && e < |k.envs| && f < |k.envs| && k.envs[e].status != FREE && k.envs[f].status != FREE
    ensures k.envs[e].id > 0 && k.envs[e].id % |k.envs| == e
    ensures k.envs[e].id == k.envs[f].id ==> e == f
  {
    ModShift(k.envs[e].id - e, e, |k.envs|);
    ModShift(k.envs[f].id - f, f, |k.envs|);
  }

  /** envid2env resolves a positive identifier exactly to the live environment that carries it. */
  lemma ResolvesExactly(k: K, c: nat, id: int, e: nat)
    requires IdsOk(k) && c < |k.cpu| && 0 <= k.cpu[c] < |k.envs| && id > 0
    ensures EnvId2Env(k, c, id, false) == Found(e) <==> e < |k.envs| && k.envs[e].status != FREE && k.envs[e].id == id
  {
    if e < |k.envs| && k.envs[e].status != FREE && k.envs[e].id == id {
      LiveDistinct(k, e, e);
    }
  }

  // ----- over runs -----

  /** A step creates an environment in slot e. */
  predicate Born(k: K, k': K, e: nat) {
    e < |k.envs| && e < |k'.envs| && k.envs[e].status == FREE && k'.envs[e].status != FREE
  }

  /** The identifier of slot e moves only when an environment is created there. */
  ghost predicate IdMoves(k: K, k': K, e: nat) {
    && 0 < |k.envs| == |k'.envs| && e < |k.envs|
    && k'.envs[e].id == if Born(k, k', e) then NextId(k.envs[e].id, e, |k.envs|) else k.envs[e].id
  }

  lemma ExoforkIds(k: K, c: nat, e: nat)
    requires Entered(k, c) && Ready(k, c) && e < |k.envs|
    ensures IdMoves(k, SysExofork(k, c).k, e)
  {
    hide Inv, IpcOk, IdleOk, CpuOk, ListOk, NextId, SetupVm;
    if k.free != [] && SetupVm(k.pm, k.free[0], k.kdir).1 {
      ExoforkForm(k, c);
      FreeSlot(k);
    }
  }

  lemma DispatchIds(k: K, c: nat, call: Call, e: nat)
    requires Entered(k, c) && Ready(k, c) && Allowed(k, c, call) && e < |k.envs|
    ensures IdMoves(k, Dispatch(k, c, call).k, e)
  {
    hide Inv, FreeSpace, PageMapAt, PageAllocAt, PageRemove, SysExofork, NextId, ListOk, IpcOk, IdleOk, CpuOk, Allowed;
    if call.Exofork? {
      ExoforkIds(k, c, e);
    } else {
      OtherCallsIds(k, c, call, e);
    }
  }

  lemma OtherCallsIds(k: K, c: nat, call: Call, e: nat)
    requires Entered(k, c) && Ready(k, c) && Allowed(k, c, call) && e < |k.envs| && !call.Exofork?
    ensures IdMoves(k, Dispatch(k, c, call).k, e)
  {
    hide KInv, FreeSpace, PageMapAt, PageAllocAt, PageRemove, SysExofork, NextId, Allowed, EnvId2Env, SendablePage,
      Stored;
    if call.TrySend? {
      SendIds(k, c, call, e);
    } else if call.Stores? {
      StoredEnvs(k, k.cpu[c], call);
    }
  }

  lemma StoredEnvs(k: K, i: nat, call: Call)
    requires call.Stores?
    ensures Stored(k, i, call.words).envs == k.envs
  {
  }

  lemma SendIds(k: K, c: nat, call: Call, e: nat)
    requires Entered(k, c) && Ready(k, c) && e < |k.envs| && call.TrySend?
    ensures IdMoves(k, Dispatch(k, c, call).k, e)
  {
    hide KInv, PageMapAt, SendablePage, Pte, NextId;
  }

  lemma OffBodyIds(s: S, s': S, c: nat, tf: Tf, call: Call, e: nat)
    requires SysInv(s) && Next(s, s', c, tf, call) && !s.phase[c].Body? && e < |s.k.envs|
    ensures IdMoves(s.k, s'.k, e)
  {
    IpcLog.OffBodyIpc(s, s', c, tf, call);
    hide SysInv, SchedYield, EnvRun, FreeSpace, NextId, Stored;
    if call.Stores? && s.phase[c].User? && s.k.cpu[c] >= 0 {
      StoredEnvs(s.k, s.k.cpu[c], call);
    }
    match s.phase[c]
    case Leave => EnvRunFrames(s.k, c, s.k.cpu[c]);
    case Yielding => YieldFrames(s.k, c);
    case _ =>
  }

  lemma StepIds(s: S, s': S, c: nat, tf: Tf, call: Call, e: nat)
    requires SysInv(s) && Next(s, s', c, tf, call) && e < |s.k.envs|
    ensures IdMoves(s.k, s'.k, e)
  {
    hide Inv, KInv, Dispatch, Allowed, LockOk, PhaseOk, NextId;
    if s.phase[c].Body? {
      assert HolderOk(s.k, c, s.phase[c]);
      DispatchIds(s.k, c, call, e);
    } else {
      OffBodyIds(s, s', c, tf, call, e);
    }
  }

  /** Environments created in slot e between states i and j of a run. */
  ghost function Births(ss: seq<S>, e: nat, i: nat, j: nat): nat
    requires i <= j < |ss|
  {
    if i == j then 0 else Births(ss, e, i, j - 1) + if Born(ss[j - 1].k, ss[j].k, e) then 1 else 0
  }

  lemma {:induction false} RunIds(ss: seq<S>, ls: seq<Label>, e: nat, i: nat, j: nat)
    requires IsRun(ss, ls) && i <= j < |ss| && e < |ss[i].k.envs|
    ensures 0 < |ss[j].k.envs| == |ss[i].k.envs|
    ensures ss[j].k.envs[e].id == Later(ss[i].k.envs[e].id, e, |ss[i].k.envs|, Births(ss, e, i, j))
  {
    hide Next, Init, SysInv, NextId, Born;
    if i < j {
      RunIds(ss, ls, e, i, j - 1);
      RunOk(ss, ls, j - 1);
      StepIds(ss[j - 1], ss[j], ls[j - 1].c, ls[j - 1].tf, ls[j - 1].call, e);
    }
  }

  lemma SysIds(s: S)
    requires SysInv(s)
    ensures IdsOk(s.k)
  {
    if s.lock.locked {
      var h :| 0 <= h < |s.phase| && Critical(s.phase[h]);
      assert HolderOk(s.k, h, s.phase[h]);
    }
  }

  /**
    In every run, the identifier a live environment has in one state resolves in a later one exactly if
    the number of environments created in its slot in between is a multiple of 2^19 - 1 and the
    slot is live; so a stale identifier is refused for the next 2^19 - 2 creations.
  */
  lemma StaleRefused(ss: seq<S>, ls: seq<Label>, e: nat, i: nat, j: nat, c: nat)
    requires IsRun(ss, ls) && i <= j < |ss| && e < |ss[i].k.envs| && ss[i].k.envs[e].status != FREE
    requires c < |ss[j].k.cpu| && 0 <= ss[j].k.cpu[c] < |ss[j].k.envs|
    ensures var id := ss[i].k.envs[e].id;
            EnvId2Env(ss[j].k, c, id, false) ==
              if Births(ss, e, i, j) % CYCLE == 0 && |ss[j].k.envs| > e && ss[j].k.envs[e].status != FREE
              then Found(e) else BadEnv
  {
    hide Next, Init, SysInv, NextId, Later, IsRun, Births;
    RunOk(ss, ls, i);
    SysIds(ss[i]);
    RunOk(ss, ls, j);
    SysIds(ss[j]);
    RunIds(ss, ls, e, i, j);
    var k, k' := ss[i].k, ss[j].k;
    var id := k.envs[e].id;
    Recurs(id, e, |k.envs|, Births(ss, e, i, j));
    LiveDistinct(k, e, e);
  }
}
