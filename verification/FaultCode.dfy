/**
  The code that builds a page-fault frame (kern/trap.c) and the one that leaves it (lib/pfentry.S),
  on one machine state, against the frame model.
*/
module FaultCode {
  import opened Mmu
  import opened FaultFrame
  import T = Translate
  import P = Pmap

  datatype Outcome = Resumed | Destroyed | Panicked

  /** What user_mem_assert is asked for. */
  const CODE_PERM: Perm := {PTE_P, PTE_U}
  const STACK_PERM: Perm := {PTE_P, PTE_U, PTE_W}

  /** A check of PGSIZE bytes looks at their first page only. */
  lemma CodeCheck(s: P.Pm, e: nat, va: nat)
    ensures T.AllGranted(s, e, va, T.Probes(va, PGSIZE), CODE_PERM) <==> T.Grants(s, e, va, CODE_PERM)
  {
    assert T.Probes(va, PGSIZE) == 1 && T.Probe(va, 0) == va;
  }

  /** A write of several words replaces what a later, lower write leaves alone. */
  lemma {:induction false} StoreWordsSplit(m: Mem, a: nat, v: seq<Word>, w: seq<Word>)
    requires |m| == ADDR_LIMIT && a + 4 * |v| + 4 * |w| <= ADDR_LIMIT
    ensures StoreWords(StoreWords(m, a + 4 * |v|, w), a, v) == StoreWords(m, a, v + w)
    decreases |v|
  {
    hide Store;
    if v == [] {
      assert v + w == w;
    } else {
      assert (v + w)[1..] == v[1..] + w;
      StoreWordsSplit(m, a + 4, v[1..], w);
    }
  }

  /** The pieces that are pushed make up the frame. */
  lemma FrameParts(c: Cpu, oesp: Word, va: Word, err: Word, ws: seq<Word>)
    requires ws == if OnX(c.esp) then [0] else []
    ensures var r := c.regs; var block := [r.edi, r.esi, r.ebp, oesp, r.ebx, r.edx, r.ecx, r.eax];
            [va] + ([err] + (block + ([c.eip] + ([c.eflags] + ([c.esp] + ws))))) == FrameWords(c, oesp, va, err)
  {
  }

  class Machine {
    var cpu: Cpu
    var mem: Mem

    ghost function State(): M
      reads this
    {
      M(cpu, mem)
    }

    constructor (x: M)
      ensures State() == x
    {
      cpu, mem := x.cpu, x.mem;
    }

    /** push: one word below the moving stack pointer. */
    method Push(esp: nat, w: Word, ghost m0: Mem, ghost ws: seq<Word>) returns (esp': nat)
      requires 4 <= esp && esp + 4 * |ws| <= ADDR_LIMIT == |m0| && mem == StoreWords(m0, esp, ws)
      modifies this`mem
      ensures esp' == esp - 4 && mem == StoreWords(m0, esp', [w] + ws)
    {
      esp' := esp - 4;
      mem := Store(mem, esp', w);
      assert ([w] + ws)[1..] == ws;
    }

    /** page_fault_handler in environment e of memory state s: the checks, the frame, and the new stack and
        instruction pointers.  Of the upcall the kernel checks the page it starts in; of the exception stack, that the
        user may write all bytes of a first frame. */
    method PageFault(s: P.Pm, e: nat, upcall: Word, va: Word, err: Word, oesp: Word) returns (o: Outcome)
      requires |mem| == ADDR_LIMIT
      modifies this
      ensures o ==
                (if upcall == 0 || !T.Grants(s, e, upcall, CODE_PERM)
                    || !T.Accessible(s, e, TOP - FRAME, FRAME, STACK_PERM) then Destroyed
                 else if Fits(old(cpu.esp)) then Resumed else Panicked)
      ensures o != Resumed ==> State() == old(State())
      ensures o == Resumed ==> cpu == old(cpu).(esp := FrameBase(old(cpu.esp)), eip := upcall)
      ensures o == Resumed ==> mem == PushFrame(old(mem), old(cpu), oesp, va, err)
      ensures o == Resumed ==> BASE <= cpu.esp && cpu.esp + FRAME <= TOP && HoldsFault(mem, cpu.esp, oesp, va, err)
      ensures o == Resumed ==> HoldsFrame(mem, cpu.esp, old(cpu))
      ensures o == Resumed && OnX(old(cpu.esp)) ==> Load(mem, old(cpu.esp) - 4) == 0
    {
      if upcall == 0 {
        return Destroyed;
      }
      hide T.Grants, T.Accessible;
      var codeOk, _ := T.UserMemCheck(s, e, upcall, PGSIZE, CODE_PERM);
      CodeCheck(s, e, upcall);
      if !codeOk {
        return Destroyed;
      }
      var stackOk, _ := T.UserMemCheck(s, e, TOP - FRAME, FRAME, STACK_PERM);
      T.CheckExact(s, e, TOP - FRAME, FRAME, STACK_PERM);
      if !stackOk {
        return Destroyed;
      }
      var esp := UXSTACKTOP;
      ghost var m0 := mem;
      hide StoreWords, HoldsFault, HoldsFrame, Load;
      if Fits(cpu.esp) {
        PushFrameFault(m0, cpu, oesp, va, err);
        PushFrameHolds(m0, cpu, oesp, va, err);
      }
      if UXSTACKTOP > cpu.esp && UXSTACKBASE <= cpu.esp {
        if UXSTACKBASE > cpu.esp - (FRAME + 4) {
          return Panicked;
        }
        esp := cpu.esp;
        esp := Push(esp, 0, m0, []);
        esp := PushState(esp, va, err, oesp, m0, [0]);
      } else {
        esp := PushState(esp, va, err, oesp, m0, []);
      }
      cpu := cpu.(esp := esp, eip := upcall);
      o := Resumed;
    }

    /** The frame itself: the pushes and the block copy of the registers. */
    method PushState(esp: nat, va: Word, err: Word, oesp: Word, ghost m0: Mem, ghost ws: seq<Word>) returns (esp': nat)
      requires FRAME <= esp && esp + 4 * |ws| <= ADDR_LIMIT == |m0| && mem == StoreWords(m0, esp, ws)
      requires ws == if OnX(cpu.esp) then [0] else []
      modifies this`mem
      ensures esp' == esp - FRAME && mem == StoreWords(m0, esp', FrameWords(cpu, oesp, va, err))
    {
      hide Store, StoreWords, FrameWords;
      var r := cpu.regs;
      esp' := Push(esp, cpu.esp, m0, ws);
      esp' := Push(esp', cpu.eflags, m0, [cpu.esp] + ws);
      esp' := Push(esp', cpu.eip, m0, [cpu.eflags] + ([cpu.esp] + ws));
      ghost var upper := [cpu.eip] + ([cpu.eflags] + ([cpu.esp] + ws));
      esp' := esp' - 32;
      var block := [r.edi, r.esi, r.ebp, oesp, r.ebx, r.edx, r.ecx, r.eax];
      mem := StoreWords(mem, esp', block);
      StoreWordsSplit(m0, esp', block, upper);
      esp' := Push(esp', err, m0, block + upper);
      esp' := Push(esp', va, m0, [err] + (block + upper));
      FrameParts(cpu, oesp, va, err, ws);
    }

    /** The return path of _pgfault_upcall, entered with the frame of a fault taken in state c on top of
        the exception stack. */
    method Return(ghost c: Cpu)
      requires |mem| == ADDR_LIMIT && Fits(c.esp) && GoodEsp(c.esp) && At(0, State(), c)
      modifies this
      ensures cpu == c && Kept(old(mem), mem, c.esp, 1)
    {
      hide Load, Store, HoldsRegs, HoldsFrame, At;
      WriteReturnAddress(c);
      ghost var m1 := mem;
      RestoreRegisters(c);
      LeaveFrame(c);
      KeptTrans(old(mem), m1, mem, c.esp, 1);
      AtLast(State(), c);
    }

    method WriteReturnAddress(ghost c: Cpu)
      requires |mem| == ADDR_LIMIT && Fits(c.esp) && GoodEsp(c.esp) && At(0, State(), c)
      modifies this
      ensures |mem| == ADDR_LIMIT && At(5, State(), c) && Kept(old(mem), mem, c.esp, 1)
    {
      hide Load, Store, HoldsRegs, HoldsFrame, At, Kept;
      ghost var m0 := mem;
      ReadOnlyAt(0, State(), c);
      cpu := cpu.(regs := cpu.regs.(eax := Ld(mem, cpu.esp + 48)), eip := CODE + 1);
      ReadOnlyAt(1, State(), c);
      cpu := cpu.(
        regs := cpu.regs.(eax := Wrap(cpu.regs.eax - 4)), eflags := AluFlags(Wrap(cpu.regs.eax - 4)), eip := CODE + 2);
      ReadOnlyAt(2, State(), c);
      cpu := cpu.(regs := cpu.regs.(ebp := Ld(mem, cpu.esp + 40)), eip := CODE + 3);
      ReturnAddressAt(State(), c);
      mem := St(mem, cpu.regs.eax, cpu.regs.ebp);
      cpu := cpu.(eip := CODE + 4);
      ghost var m1 := mem;
      SavedStackAt(State(), c);
      mem := St(mem, cpu.esp + 48, cpu.regs.eax);
      cpu := cpu.(eip := CODE + 5);
      KeptTrans(m0, m1, mem, c.esp, 1);
    }

    method RestoreRegisters(ghost c: Cpu)
      requires |mem| == ADDR_LIMIT && Fits(c.esp) && GoodEsp(c.esp) && At(5, State(), c)
      modifies this
      ensures mem == old(mem) && At(8, State(), c)
    {
      hide Load, Store, HoldsRegs, HoldsFrame, At;
      ReadOnlyAt(5, State(), c);
      cpu := cpu.(esp := Wrap(cpu.esp + 4), eflags := AluFlags(Wrap(cpu.esp + 4)), eip := CODE + 6);
      ReadOnlyAt(6, State(), c);
      cpu := cpu.(esp := Wrap(cpu.esp + 4), eflags := AluFlags(Wrap(cpu.esp + 4)), eip := CODE + 7);
      ReadOnlyAt(7, State(), c);
      cpu := cpu.(
        regs := Regs(
          Ld(mem, cpu.esp), Ld(mem, cpu.esp + 4), Ld(mem, cpu.esp + 8), Ld(mem, cpu.esp + 16),
          Ld(mem, cpu.esp + 20), Ld(mem, cpu.esp + 24), Ld(mem, cpu.esp + 28)),
        esp := Wrap(cpu.esp + 32), eip := CODE + 8);
    }

    method LeaveFrame(ghost c: Cpu)
      requires |mem| == ADDR_LIMIT && Fits(c.esp) && GoodEsp(c.esp) && At(8, State(), c)
      modifies this
      ensures mem == old(mem) && At(LAST, State(), c)
    {
      hide Load, Store, HoldsRegs, HoldsFrame, At;
      ReadOnlyAt(8, State(), c);
      cpu := cpu.(esp := Wrap(cpu.esp + 4), eflags := AluFlags(Wrap(cpu.esp + 4)), eip := CODE + 9);
      ReadOnlyAt(9, State(), c);
      cpu := cpu.(eflags := Ld(mem, cpu.esp), esp := Wrap(cpu.esp + 4), eip := CODE + 10);
      ReadOnlyAt(10, State(), c);
      cpu := cpu.(esp := Ld(mem, cpu.esp), eip := CODE + 11);
      ReadOnlyAt(11, State(), c);
      cpu := cpu.(eip := Ld(mem, cpu.esp), esp := Wrap(cpu.esp + 4));
    }
  }
}
