/**
  Page-fault frames on the user exception stack (kern/trap.c) and the return path of
  lib/pfentry.S, with faults nested to any depth at any instruction boundary.
*/
module FaultFrame {
  import opened Mmu

  type Byte = b: int | 0 <= b < 256
  type Word = w: int | 0 <= w < 0x1_0000_0000

  /** User memory, one byte per address. */
  type Mem = seq<Byte>

  datatype Regs = Regs(edi: Word, esi: Word, ebp: Word, ebx: Word, edx: Word, ecx: Word, eax: Word)

  datatype Cpu = Cpu(regs: Regs, eip: Word, eflags: Word, esp: Word)

  datatype M = M(cpu: Cpu, mem: Mem)

  const FRAME: nat := 52
  const BASE: nat := UXSTACKBASE
  const TOP: nat := UXSTACKTOP

  // ----- memory words -----

  function Load(m: Mem, a: nat): Word
    requires |m| == ADDR_LIMIT && a + 4 <= ADDR_LIMIT
  {
    var b0: int, b1: int, b2: int, b3: int := m[a], m[a + 1], m[a + 2], m[a + 3];
    b0 + 0x100 * b1 + 0x1_0000 * b2 + 0x100_0000 * b3
  }

  function Store(m: Mem, a: nat, w: Word): (r: Mem)
    requires |m| == ADDR_LIMIT && a + 4 <= ADDR_LIMIT
    ensures |r| == ADDR_LIMIT
  {
    m[a := w % 0x100][a + 1 := w / 0x100 % 0x100][a + 2 := w / 0x1_0000 % 0x100][a + 3 := w / 0x100_0000]
  }

  lemma LoadSame(m: Mem, a: nat, w: Word)
    requires |m| == ADDR_LIMIT && a + 4 <= ADDR_LIMIT
    ensures Load(Store(m, a, w), a) == w
  {
    var r := Store(m, a, w);
    assert r[a] == w % 0x100 && r[a + 1] == w / 0x100 % 0x100;
    assert r[a + 2] == w / 0x1_0000 % 0x100 && r[a + 3] == w / 0x100_0000;
    hide Store;
    Bytes(w);
  }

  /** A word is the sum of its four bytes. */
  lemma Bytes(w: Word)
    ensures w % 0x100 + 0x100 * (w / 0x100 % 0x100)
              + 0x1_0000 * (w / 0x1_0000 % 0x100) + 0x100_0000 * (w / 0x100_0000) == w
  {
    var w1, w2 := w / 0x100, w / 0x1_0000;
    assert w2 == w1 / 0x100 && w / 0x100_0000 == w2 / 0x100;
    assert w == 0x100 * w1 + w % 0x100 && w1 == 0x100 * w2 + w1 % 0x100 && w2 == 0x100 * (w2 / 0x100) + w2 % 0x100;
  }

  lemma LoadOther(m: Mem, a: nat, w: Word, b: nat)
    requires |m| == ADDR_LIMIT && a + 4 <= ADDR_LIMIT && b + 4 <= ADDR_LIMIT && (a + 4 <= b || b + 4 <= a)
    ensures Load(Store(m, a, w), b) == Load(m, b)
  {
  }

  // ----- which memory a fault may change -----

  predicate OnX(esp: nat) {
    BASE <= esp < TOP
  }

  /** The page that a C handler copies through (PFTEMP). */
  predicate Temp(a: int) {
    PFTEMP <= a < PFTEMP + PGSIZE
  }

  /** Addresses that a fault taken with stack pointer esp, and everything nested in it, may change: the part of the
      exception stack that is free, the handler's copy page and, off the exception stack, d words below esp. */
  predicate Dirty(esp: nat, d: nat, a: nat) {
    Temp(a) || if OnX(esp) then BASE <= a < esp else BASE <= a < TOP || esp - 4 * d <= a < esp
  }

  ghost predicate Kept(m: Mem, m': Mem, esp: nat, d: nat) {
    |m| == |m'| == ADDR_LIMIT && forall a :: 0 <= a < ADDR_LIMIT && !Dirty(esp, d, a) ==> m'[a] == m[a]
  }

  lemma KeptLoad(m: Mem, m': Mem, esp: nat, d: nat, a: nat)
    requires Kept(m, m', esp, d) && a + 4 <= ADDR_LIMIT
    requires forall b :: a <= b < a + 4 ==> !Dirty(esp, d, b)
    ensures Load(m', a) == Load(m, a)
  {
    assert !Dirty(esp, d, a) && !Dirty(esp, d, a + 1) && !Dirty(esp, d, a + 2) && !Dirty(esp, d, a + 3);
  }

  lemma StoreKept(m: Mem, a: nat, w: Word, esp: nat)
    requires |m| == ADDR_LIMIT && a + 4 <= ADDR_LIMIT
    requires forall b :: a <= b < a + 4 ==> Dirty(esp, 1, b)
    ensures Kept(m, Store(m, a, w), esp, 1)
  {
    assert Dirty(esp, 1, a) && Dirty(esp, 1, a + 1) && Dirty(esp, 1, a + 2) && Dirty(esp, 1, a + 3);
  }

  // ----- the kernel's side -----

  /** Where the frame goes: below the scratch word on a nested fault, else at the top. */
  function FrameBase(esp: nat): int {
    (if OnX(esp) then esp - 4 else TOP) - FRAME
  }

  /** page_fault_handler's overflow test. */
  predicate Fits(esp: nat) {
    OnX(esp) ==> BASE <= esp - (FRAME + 4)
  }

  /** The UTrapframe, lowest address first, and the scratch word of a nested fault above it. */
  function FrameWords(c: Cpu, oesp: Word, va: Word, err: Word): (ws: seq<Word>)
    ensures |ws| == if OnX(c.esp) then 14 else 13
  {
    var r := c.regs;
    [va, err, r.edi, r.esi, r.ebp, oesp, r.ebx, r.edx, r.ecx, r.eax, c.eip, c.eflags, c.esp]
    + if OnX(c.esp) then [0] else []
  }

  /** Words pushed last one first, ending at address a. */
  function StoreWords(m: Mem, a: nat, ws: seq<Word>): (m': Mem)
    requires |m| == ADDR_LIMIT && a + 4 * |ws| <= ADDR_LIMIT
    ensures |m'| == ADDR_LIMIT
    decreases |ws|
  {
    if ws == [] then m else Store(StoreWords(m, a + 4, ws[1..]), a, ws[0])
  }

  lemma {:induction false} StoreWordsLoad(m: Mem, a: nat, ws: seq<Word>, i: nat)
    requires |m| == ADDR_LIMIT && a + 4 * |ws| <= ADDR_LIMIT && i < |ws|
    ensures Load(StoreWords(m, a, ws), a + 4 * i) == ws[i]
    decreases |ws|
  {
    hide Load, Store;
    var m0 := StoreWords(m, a + 4, ws[1..]);
    LoadSame(m0, a, ws[0]);
    if i > 0 {
      StoreWordsLoad(m, a + 4, ws[1..], i - 1);
      LoadOther(m0, a, ws[0], a + 4 * i);
    }
  }

  lemma {:induction false} StoreWordsKept(m: Mem, a: nat, ws: seq<Word>)
    requires |m| == ADDR_LIMIT && a + 4 * |ws| <= ADDR_LIMIT
    ensures forall b :: 0 <= b < ADDR_LIMIT && !(a <= b < a + 4 * |ws|) ==> StoreWords(m, a, ws)[b] == m[b]
    decreases |ws|
  {
    if ws != [] {
      StoreWordsKept(m, a + 4, ws[1..]);
    }
  }

  /** The memory page_fault_handler leaves. */
  function PushFrame(m: Mem, c: Cpu, oesp: Word, va: Word, err: Word): (m': Mem)
    requires |m| == ADDR_LIMIT && Fits(c.esp)
    ensures |m'| == ADDR_LIMIT
  {
    StoreWords(m, FrameBase(c.esp), FrameWords(c, oesp, va, err))
  }

  ghost predicate HoldsRegs(m: Mem, a: nat, r: Regs)
    requires |m| == ADDR_LIMIT && a + 32 <= ADDR_LIMIT
  {
    && Load(m, a) == r.edi && Load(m, a + 4) == r.esi && Load(m, a + 8) == r.ebp && Load(m, a + 16) == r.ebx
    && Load(m, a + 20) == r.edx && Load(m, a + 24) == r.ecx && Load(m, a + 28) == r.eax
  }

  /** The trap-time state in a frame at f. */
  ghost predicate HoldsFrame(m: Mem, f: nat, c: Cpu)
    requires |m| == ADDR_LIMIT && f + FRAME <= ADDR_LIMIT
  {
    HoldsRegs(m, f + 8, c.regs) && Load(m, f + 40) == c.eip && Load(m, f + 44) == c.eflags && Load(m, f + 48) == c.esp
  }

  /** What the C handler reads: the fault address and error code in the first two words, then the registers with the
      pushed esp among them, and a zero in the scratch word of a nested fault. */
  ghost predicate HoldsFault(m: Mem, f: nat, oesp: Word, va: Word, err: Word)
    requires |m| == ADDR_LIMIT && f + FRAME <= ADDR_LIMIT
  {
    Load(m, f) == va && Load(m, f + 4) == err && Load(m, f + 20) == oesp
  }

  lemma PushFrameFault(m: Mem, c: Cpu, oesp: Word, va: Word, err: Word)
    requires |m| == ADDR_LIMIT && Fits(c.esp)
    ensures var f := FrameBase(c.esp); var m' := PushFrame(m, c, oesp, va, err);
            && BASE <= f && f + FRAME <= TOP && HoldsFault(m', f, oesp, va, err)
            && (OnX(c.esp) ==> Load(m', f + FRAME) == 0)
  {
    hide Load, StoreWords;
    var f, ws := FrameBase(c.esp), FrameWords(c, oesp, va, err);
    StoreWordsLoad(m, f, ws, 0);
    StoreWordsLoad(m, f, ws, 1);
    StoreWordsLoad(m, f, ws, 5);
    if OnX(c.esp) {
      StoreWordsLoad(m, f, ws, 13);
    }
  }

  /** Frames lie inside the exception-stack page, below the scratch word, and hold the trap-time state. */
  lemma PushFrameHolds(m: Mem, c: Cpu, oesp: Word, va: Word, err: Word)
    requires |m| == ADDR_LIMIT && Fits(c.esp)
    ensures var f := FrameBase(c.esp);
            && BASE <= f && f + FRAME <= (if OnX(c.esp) then c.esp - 4 else TOP)
            && HoldsFrame(PushFrame(m, c, oesp, va, err), f, c)
            && Kept(m, PushFrame(m, c, oesp, va, err), c.esp, 0)
  {
    hide Load, StoreWords;
    var f, ws := FrameBase(c.esp), FrameWords(c, oesp, va, err);
    StoreWordsKept(m, f, ws);
    StoreWordsLoad(m, f, ws, 2);
    StoreWordsLoad(m, f, ws, 3);
    StoreWordsLoad(m, f, ws, 4);
    StoreWordsLoad(m, f, ws, 6);
    StoreWordsLoad(m, f, ws, 7);
    StoreWordsLoad(m, f, ws, 8);
    StoreWordsLoad(m, f, ws, 9);
    StoreWordsLoad(m, f, ws, 10);
    StoreWordsLoad(m, f, ws, 11);
    StoreWordsLoad(m, f, ws, 12);
  }

  // ----- _pgfault_upcall after the C handler has returned -----

  const CODE: Word := 0x80_0000
  const LAST: nat := 12

  function Ld(m: Mem, a: nat): Word
    requires |m| == ADDR_LIMIT
  {
    if a + 4 <= ADDR_LIMIT then Load(m, a) else 0
  }

  function St(m: Mem, a: nat, w: Word): (r: Mem)
    requires |m| == ADDR_LIMIT
    ensures |r| == ADDR_LIMIT
  {
    if a + 4 <= ADDR_LIMIT then Store(m, a, w) else m
  }

  function Wrap(x: int): Word {
    x % 0x1_0000_0000
  }

  /** The flags an addl or subl leaves; popf overwrites them. */
  function AluFlags(x: Word): Word {
    if x == 0 then 0x40 else 0
  }

  /** Instruction j of the return path (lib/pfentry.S:70-102). */
  function Instr(j: nat, x: M): (y: M)
    requires |x.mem| == ADDR_LIMIT
    ensures |y.mem| == ADDR_LIMIT
  {
    var c, m := x.cpu.(eip := Wrap(CODE + j + 1)), x.mem;
    var esp, r := c.esp, c.regs;
    match j
    case 0 => M(c.(regs := r.(eax := Ld(m, esp + 48))), m)
    case 1 => M(c.(regs := r.(eax := Wrap(r.eax - 4)), eflags := AluFlags(Wrap(r.eax - 4))), m)
    case 2 => M(c.(regs := r.(ebp := Ld(m, esp + 40))), m)
    case 3 => M(c, St(m, r.eax, r.ebp))
    case 4 => M(c, St(m, esp + 48, r.eax))
    case 5 => M(c.(esp := Wrap(esp + 4), eflags := AluFlags(Wrap(esp + 4))), m)
    case 6 => M(c.(esp := Wrap(esp + 4), eflags := AluFlags(Wrap(esp + 4))), m)
    case 7 =>
      M(c.(regs := Regs(Ld(m, esp), Ld(m, esp + 4), Ld(m, esp + 8), Ld(m, esp + 16), Ld(m, esp + 20),
                        Ld(m, esp + 24), Ld(m, esp + 28)),
           esp := Wrap(esp + 32)), m)
    case 8 => M(c.(esp := Wrap(esp + 4), eflags := AluFlags(Wrap(esp + 4))), m)
    case 9 => M(c.(eflags := Ld(m, esp), esp := Wrap(esp + 4)), m)
    case 10 => M(c.(esp := Ld(m, esp)), m)
    case _ => M(c.(eip := Ld(m, esp), esp := Wrap(esp + 4)), m)
  }

  // ----- faults nested at instruction boundaries -----

  /** One fault: what the kernel records, the faults its C handler takes, what the handler leaves
      behind, and the faults taken while the return path runs, each before the instruction numbered j. */
  datatype Run = Run(
    va: Word, err: Word, oesp: Word, handler: Calls, regs: Regs, eflags: Word, mem: Mem, nested: Forest)

  /** Each fault of a handler with the machine state it is taken in. */
  datatype Calls = Done | Fault(at: M, run: Run, rest: Calls)

  datatype Forest = Nil | Cons(j: nat, head: Run, tail: Forest)

  datatype Option<T> = None | Some(value: T)

  /** How many faults are taken within each other at the final ret, where the stack pointer is back on the trap-time
      stack; each of them needs one word there. */
  function Depth(r: Run): nat {
    1 + ForestDepth(r.nested)
  }

  function ForestDepth(fs: Forest): nat {
    match fs
    case Nil => 0
    case Cons(j, head, tail) =>
      var here := if j == LAST - 1 then Depth(head) else 0;
      if here < ForestDepth(tail) then ForestDepth(tail) else here
  }

  /** The word below esp exists and is neither in the frame at the top nor in the handler's copy page. */
  predicate GoodEsp(esp: nat) {
    4 <= esp && !(TOP <= esp < TOP + 4) && !(PFTEMP < esp < PFTEMP + PGSIZE + 4)
  }

  /** Fault, handler, return path; None if the kernel's overflow test panics, the stack pointer is
      not good, or the handler wrote outside its stack and its copy page. */
  ghost function Exec(x: M, r: Run): Option<M>
    requires |x.mem| == ADDR_LIMIT
    decreases r, 1
  {
    if GoodEsp(x.cpu.esp) then Deliver(x, r) else None
  }

  ghost function Deliver(x: M, r: Run): Option<M>
    requires |x.mem| == ADDR_LIMIT
    decreases r, 0
  {
    if !Fits(x.cpu.esp) then None
    else
      var f := FrameBase(x.cpu.esp);
      match Handle(PushFrame(x.mem, x.cpu, r.oesp, r.va, r.err), f, r.handler)
      case None => None
      case Some(m) =>
        if Kept(m, r.mem, f, 0) then Steps(M(Cpu(r.regs, CODE, r.eflags, f), r.mem), 0, r.nested) else None
  }

  /** The C handler, on the exception stack below f. */
  ghost function Handle(m: Mem, f: nat, hs: Calls): Option<Mem>
    requires |m| == ADDR_LIMIT
    decreases hs
  {
    if hs.Done? then Some(m)
    else if !Kept(m, hs.at.mem, f, 0) || !(BASE <= hs.at.cpu.esp <= f) then None
    else
      match Exec(hs.at, hs.run)
      case None => None
      case Some(y) => if |y.mem| == ADDR_LIMIT then Handle(y.mem, f, hs.rest) else None
  }

  ghost function Steps(x: M, j: nat, fs: Forest): Option<M>
    requires |x.mem| == ADDR_LIMIT && j <= LAST
    decreases fs, LAST - j
  {
    if j == LAST then Some(x)
    else if fs.Cons? && fs.j == j then
      match Exec(x, fs.head)
      case None => None
      case Some(y) => if |y.mem| == ADDR_LIMIT then Steps(y, j, fs.tail) else None
    else Steps(Instr(j, x), j + 1, fs)
  }

  /** The machine before instruction j of the return path of a fault taken in state c, frame at f. */
  ghost predicate At(j: nat, x: M, c: Cpu)
    requires j <= LAST && Fits(c.esp) && |x.mem| == ADDR_LIMIT
  {
    var f := FrameBase(c.esp);
    var m, r, esp := x.mem, x.cpu.regs, x.cpu.esp;
    && (j < LAST ==> x.cpu.eip == CODE + j)
    && (j <= 4 ==> esp == f && HoldsFrame(m, f, c))
    && (j == 1 ==> r.eax == c.esp)
    && (2 <= j <= 4 ==> r.eax == c.esp - 4)
    && (3 <= j <= 4 ==> r.ebp == c.eip)
    && (4 <= j <= 11 ==> c.esp >= 4 && Ld(m, c.esp - 4) == c.eip)
    && (5 <= j <= 7 ==> HoldsRegs(m, f + 8, c.regs))
    && (5 <= j <= 9 ==> Load(m, f + 44) == c.eflags)
    && (5 <= j <= 10 ==> Load(m, f + 48) == c.esp - 4)
    && (j == 5 ==> esp == f) && (j == 6 ==> esp == f + 4) && (j == 7 ==> esp == f + 8)
    && (j == 8 ==> esp == f + 40) && (j == 9 ==> esp == f + 44) && (j == 10 ==> esp == f + 48)
    && (j == 11 ==> esp == c.esp - 4)
    && (j >= 8 ==> r == c.regs)
    && (j >= 10 ==> x.cpu.eflags == c.eflags)
    && (j == LAST ==> x.cpu == c)
  }

  lemma StoreApart(m: Mem, a: nat, w: Word, f: nat, c: Cpu)
    requires |m| == ADDR_LIMIT && a + 4 <= ADDR_LIMIT && f + FRAME <= ADDR_LIMIT && (a + 4 <= f || f + FRAME <= a)
    requires HoldsFrame(m, f, c)
    ensures HoldsFrame(Store(m, a, w), f, c)
  {
    hide Load, Store;
    LoadOther(m, a, w, f + 8);
    LoadOther(m, a, w, f + 12);
    LoadOther(m, a, w, f + 16);
    LoadOther(m, a, w, f + 24);
    LoadOther(m, a, w, f + 28);
    LoadOther(m, a, w, f + 32);
    LoadOther(m, a, w, f + 36);
    LoadOther(m, a, w, f + 40);
    LoadOther(m, a, w, f + 44);
    LoadOther(m, a, w, f + 48);
  }

  /** The word the return address goes to is outside the frame. */
  lemma ScratchApart(esp: nat)
    requires Fits(esp) && GoodEsp(esp) && esp < ADDR_LIMIT
    ensures var f := FrameBase(esp); 0 <= f && (esp <= f || f + FRAME <= esp - 4)
    ensures forall b :: esp - 4 <= b < esp ==> Dirty(esp, 1, b)
  {
  }

  /** Instruction 3 writes the return address under the trap-time stack pointer. */
  lemma ReturnAddressAt(x: M, c: Cpu)
    requires Fits(c.esp) && GoodEsp(c.esp) && |x.mem| == ADDR_LIMIT && At(3, x, c)
    ensures At(4, Instr(3, x), c) && Kept(x.mem, Instr(3, x).mem, c.esp, 1)
  {
    hide Load, Store;
    ScratchApart(c.esp);
    var f := FrameBase(c.esp);
    StoreApart(x.mem, c.esp - 4, c.eip, f, c);
    LoadSame(x.mem, c.esp - 4, c.eip);
    StoreKept(x.mem, c.esp - 4, c.eip, c.esp);
  }

  /** Instruction 4 replaces the saved stack pointer. */
  lemma SavedStackAt(x: M, c: Cpu)
    requires Fits(c.esp) && GoodEsp(c.esp) && |x.mem| == ADDR_LIMIT && At(4, x, c)
    ensures At(5, Instr(4, x), c) && Kept(x.mem, Instr(4, x).mem, c.esp, 1)
  {
    hide Load, Store;
    ScratchApart(c.esp);
    var m, a := x.mem, FrameBase(c.esp) + 48;
    var w := x.cpu.regs.eax;
    LoadSame(m, a, w);
    StoreKept(m, a, w, c.esp);
    LoadOther(m, a, w, a - 40);
    LoadOther(m, a, w, a - 36);
    LoadOther(m, a, w, a - 32);
    LoadOther(m, a, w, a - 24);
    LoadOther(m, a, w, a - 20);
    LoadOther(m, a, w, a - 16);
    LoadOther(m, a, w, a - 12);
    LoadOther(m, a, w, a - 4);
    LoadOther(m, a, w, c.esp - 4);
  }

  /** The other instructions only read memory. */
  lemma ReadOnlyAt(j: nat, x: M, c: Cpu)
    requires j < LAST && j != 3 && j != 4
    requires Fits(c.esp) && 4 <= c.esp && |x.mem| == ADDR_LIMIT && At(j, x, c)
    ensures At(j + 1, Instr(j, x), c) && Instr(j, x).mem == x.mem
  {
    hide Load, Store;
  }

  lemma InstrAt(j: nat, x: M, c: Cpu)
    requires j < LAST && Fits(c.esp) && GoodEsp(c.esp) && |x.mem| == ADDR_LIMIT && At(j, x, c)
    ensures At(j + 1, Instr(j, x), c)
    ensures Kept(x.mem, Instr(j, x).mem, c.esp, 1)
  {
    hide Load, Store, Instr, At;
    if j == 3 {
      ReturnAddressAt(x, c);
    } else if j == 4 {
      SavedStackAt(x, c);
    } else {
      ReadOnlyAt(j, x, c);
    }
  }

  /** Words of the trap-time stack that a fault before instruction j, needing d of them, leaves to the one it
      interrupts. */
  function Below(j: nat, d: nat): nat {
    if j == LAST - 1 then d + 1 else 1
  }

  /** What At reads of memory lies outside what a fault taken there may change. */
  lemma ReadsKept(j: nat, x: M, c: Cpu, d: nat)
    requires j < LAST && Fits(c.esp) && (GoodEsp(c.esp) || c.esp == TOP) && |x.mem| == ADDR_LIMIT && At(j, x, c)
    ensures 0 <= FrameBase(c.esp)
    ensures j <= 10 ==>
              x.cpu.esp < TOP && (forall b :: x.cpu.esp <= b < FrameBase(c.esp) + FRAME ==> !Dirty(x.cpu.esp, d, b))
    ensures 4 <= j ==> (forall b :: c.esp - 4 <= b < c.esp ==> !Dirty(x.cpu.esp, d, b))
    ensures forall b :: 0 <= b && !Dirty(c.esp, Below(j, d), b) ==> !Dirty(x.cpu.esp, d, b)
  {
    hide Load, Ld, HoldsRegs, HoldsFrame;
    if c.esp != TOP {
      ScratchApart(c.esp);
    }
  }

  /** A nested fault that gives everything back is invisible to the return path it interrupted. */
  lemma NestedAt(j: nat, x: M, y: M, c: Cpu, d: nat)
    requires j < LAST && Fits(c.esp) && (GoodEsp(c.esp) || c.esp == TOP) && |x.mem| == ADDR_LIMIT && At(j, x, c)
    requires y.cpu == x.cpu && Kept(x.mem, y.mem, x.cpu.esp, d)
    ensures At(j, y, c) && Kept(x.mem, y.mem, c.esp, Below(j, d))
  {
    hide Load, Store;
    ReadsKept(j, x, c, d);
    var f, e := FrameBase(c.esp), x.cpu.esp;
    forall a: nat | e <= a <= f + FRAME - 4 && j <= 10
      ensures Load(y.mem, a) == Load(x.mem, a)
    {
      KeptLoad(x.mem, y.mem, e, d, a);
    }
    if 4 <= j {
      KeptLoad(x.mem, y.mem, e, d, c.esp - 4);
    }
  }

  lemma KeptTrans(m0: Mem, m1: Mem, m2: Mem, esp: nat, d: nat)
    requires Kept(m0, m1, esp, d) && Kept(m1, m2, esp, d)
    ensures Kept(m0, m2, esp, d)
  {
  }

  lemma KeptWiden(m: Mem, m': Mem, e: nat, d: nat, esp: nat, d': nat)
    requires Kept(m, m', e, d) && forall a: nat :: Dirty(e, d, a) ==> Dirty(esp, d', a)
    ensures Kept(m, m', esp, d')
  {
  }

  /** However deeply faults nest, a fault returns with every register, the flags, eip and esp as they were, and with
      memory changed only on the free exception stack and, off it, in one word below esp for each fault taken at the
      final ret of another. */
  lemma {:induction false} RoundTrip(x: M, r: Run)
    requires |x.mem| == ADDR_LIMIT && Exec(x, r).Some?
    ensures var y := Exec(x, r).value; y.cpu == x.cpu && Kept(x.mem, y.mem, x.cpu.esp, Depth(r))
    decreases r, 1
  {
    hide Load, Store, StoreWords, Instr, HoldsFrame;
    var c, y := x.cpu, Exec(x, r).value;
    Delivered(x, r);
    StepsReturn(M(Cpu(r.regs, CODE, r.eflags, FrameBase(c.esp)), r.mem), 0, r.nested, c);
    KeptWiden(x.mem, r.mem, c.esp, 0, c.esp, Depth(r));
    KeptTrans(x.mem, r.mem, y.mem, c.esp, Depth(r));
  }

  /** The return path starts with the trap-time state still in the frame. */
  lemma {:induction false} Delivered(x: M, r: Run)
    requires |x.mem| == ADDR_LIMIT && Deliver(x, r).Some?
    ensures Fits(x.cpu.esp) && Kept(x.mem, r.mem, x.cpu.esp, 0)
    ensures At(0, M(Cpu(r.regs, CODE, r.eflags, FrameBase(x.cpu.esp)), r.mem), x.cpu)
    decreases r, 0
  {
    hide Load, Store, StoreWords, Instr, HoldsFrame;
    var c := x.cpu;
    var f := FrameBase(c.esp);
    var m0 := PushFrame(x.mem, c, r.oesp, r.va, r.err);
    PushFrameHolds(x.mem, c, r.oesp, r.va, r.err);
    HandlerKeeps(m0, f, r.handler);
    var m1 := Handle(m0, f, r.handler).value;
    KeptTrans(m0, m1, r.mem, f, 0);
    KeptFrame(m0, r.mem, f, c);
    KeptWiden(m0, r.mem, f, 0, c.esp, 0);
    KeptTrans(x.mem, m0, r.mem, c.esp, 0);
  }

  lemma KeptFrame(m: Mem, m': Mem, f: nat, c: Cpu)
    requires Kept(m, m', f, 0) && BASE <= f && f + FRAME <= TOP && HoldsFrame(m, f, c)
    ensures HoldsFrame(m', f, c)
  {
    hide Load, Store;
    forall a: nat | f <= a <= f + FRAME - 4
      ensures Load(m', a) == Load(m, a)
    {
      KeptLoad(m, m', f, 0, a);
    }
  }

  lemma {:induction false} HandlerKeeps(m: Mem, f: nat, hs: Calls)
    requires |m| == ADDR_LIMIT && BASE <= f < TOP && Handle(m, f, hs).Some?
    ensures Kept(m, Handle(m, f, hs).value, f, 0)
    decreases hs
  {
    hide Load, Store;
    if hs.Fault? {
      var y := Exec(hs.at, hs.run).value;
      RoundTrip(hs.at, hs.run);
      KeptWiden(hs.at.mem, y.mem, hs.at.cpu.esp, Depth(hs.run), f, 0);
      KeptTrans(m, hs.at.mem, y.mem, f, 0);
      HandlerKeeps(y.mem, f, hs.rest);
      KeptTrans(m, y.mem, Handle(m, f, hs).value, f, 0);
    }
  }

  /** At every fault the handler takes, and after each of them, it still finds its frame. */
  ghost predicate FrameAtCalls(f: nat, hs: Calls, c: Cpu, oesp: Word, va: Word, err: Word)
    requires f + FRAME <= ADDR_LIMIT
  {
    hs.Fault? ==>
      && |hs.at.mem| == ADDR_LIMIT && HoldsFault(hs.at.mem, f, oesp, va, err) && HoldsFrame(hs.at.mem, f, c)
      && Exec(hs.at, hs.run).Some?
      && var y := Exec(hs.at, hs.run).value;
         && |y.mem| == ADDR_LIMIT && HoldsFault(y.mem, f, oesp, va, err) && HoldsFrame(y.mem, f, c)
         && FrameAtCalls(f, hs.rest, c, oesp, va, err)
  }

  lemma KeptFault(m: Mem, m': Mem, f: nat, oesp: Word, va: Word, err: Word)
    requires Kept(m, m', f, 0) && BASE <= f && f + FRAME <= TOP && HoldsFault(m, f, oesp, va, err)
    ensures HoldsFault(m', f, oesp, va, err)
  {
    hide Load, Store;
    KeptLoad(m, m', f, 0, f);
    KeptLoad(m, m', f, 0, f + 4);
    KeptLoad(m, m', f, 0, f + 20);
  }

  lemma {:induction false} HandlerSees(m: Mem, f: nat, hs: Calls, c: Cpu, oesp: Word, va: Word, err: Word)
    requires |m| == ADDR_LIMIT && BASE <= f && f + FRAME <= TOP && Handle(m, f, hs).Some?
    requires HoldsFault(m, f, oesp, va, err) && HoldsFrame(m, f, c)
    ensures FrameAtCalls(f, hs, c, oesp, va, err)
    decreases hs
  {
    hide Load, Store, HoldsFault, HoldsFrame;
    if hs.Fault? {
      var y := Exec(hs.at, hs.run).value;
      KeptFault(m, hs.at.mem, f, oesp, va, err);
      KeptFrame(m, hs.at.mem, f, c);
      RoundTrip(hs.at, hs.run);
      KeptWiden(hs.at.mem, y.mem, hs.at.cpu.esp, Depth(hs.run), f, 0);
      KeptFault(hs.at.mem, y.mem, f, oesp, va, err);
      KeptFrame(hs.at.mem, y.mem, f, c);
      HandlerSees(y.mem, f, hs.rest, c, oesp, va, err);
    }
  }

  /** From the kernel's push to the return path, whatever faults are nested in the handler, the frame names the
      fault. */
  lemma FaultReported(x: M, r: Run)
    requires |x.mem| == ADDR_LIMIT && Deliver(x, r).Some?
    ensures var f := FrameBase(x.cpu.esp);
            && BASE <= f && f + FRAME <= TOP
            && HoldsFault(PushFrame(x.mem, x.cpu, r.oesp, r.va, r.err), f, r.oesp, r.va, r.err)
            && FrameAtCalls(f, r.handler, x.cpu, r.oesp, r.va, r.err)
            && |r.mem| == ADDR_LIMIT && HoldsFault(r.mem, f, r.oesp, r.va, r.err)
  {
    hide Load, Store, StoreWords, Instr, HoldsFrame, HoldsFault;
    var c := x.cpu;
    var f := FrameBase(c.esp);
    var m0 := PushFrame(x.mem, c, r.oesp, r.va, r.err);
    PushFrameHolds(x.mem, c, r.oesp, r.va, r.err);
    PushFrameFault(x.mem, c, r.oesp, r.va, r.err);
    HandlerSees(m0, f, r.handler, c, r.oesp, r.va, r.err);
    HandlerKeeps(m0, f, r.handler);
    var m1 := Handle(m0, f, r.handler).value;
    KeptTrans(m0, m1, r.mem, f, 0);
    KeptFault(m0, r.mem, f, r.oesp, r.va, r.err);
  }

  lemma {:induction false} StepsReturn(x: M, j: nat, fs: Forest, c: Cpu)
    requires j <= LAST && Fits(c.esp) && GoodEsp(c.esp) && |x.mem| == ADDR_LIMIT && At(j, x, c)
    requires Steps(x, j, fs).Some?
    ensures var y := Steps(x, j, fs).value; y.cpu == c && Kept(x.mem, y.mem, c.esp, 1 + ForestDepth(fs))
    decreases fs, LAST - j
  {
    hide Load, Store, Instr;
    var d := 1 + ForestDepth(fs);
    if j == LAST {
    } else if fs.Cons? && fs.j == j {
      var y := Exec(x, fs.head).value;
      RoundTrip(x, fs.head);
      NestedAt(j, x, y, c, Depth(fs.head));
      StepsReturn(y, j, fs.tail, c);
      var z := Steps(x, j, fs).value;
      KeptWiden(x.mem, y.mem, c.esp, Below(j, Depth(fs.head)), c.esp, d);
      KeptWiden(y.mem, z.mem, c.esp, 1 + ForestDepth(fs.tail), c.esp, d);
      KeptTrans(x.mem, y.mem, z.mem, c.esp, d);
    } else {
      InstrAt(j, x, c);
      StepsReturn(Instr(j, x), j + 1, fs, c);
      KeptWiden(x.mem, Instr(j, x).mem, c.esp, 1, c.esp, d);
      KeptTrans(x.mem, Instr(j, x).mem, Steps(x, j, fs).value.mem, c.esp, d);
    }
  }

  // ----- the one stack pointer that does not come back -----

  lemma AtLast(x: M, c: Cpu)
    requires Fits(c.esp) && |x.mem| == ADDR_LIMIT && At(LAST, x, c)
    ensures x.cpu == c
  {
  }

  /** From instruction 5 on the return path only reads, also with the stack pointer at the top. */
  lemma {:induction false} LateReturn(x: M, j: nat, fs: Forest, c: Cpu)
    requires 5 <= j <= LAST && c.esp == TOP && |x.mem| == ADDR_LIMIT && At(j, x, c) && Steps(x, j, fs).Some?
    ensures Steps(x, j, fs).value.cpu == c
    decreases fs, LAST - j
  {
    hide Load, Store, Instr, At;
    if j == LAST {
      AtLast(x, c);
    } else if fs.Cons? && fs.j == j {
      var y := Exec(x, fs.head).value;
      RoundTrip(x, fs.head);
      NestedAt(j, x, y, c, Depth(fs.head));
      LateReturn(y, j, fs.tail, c);
    } else {
      ReadOnlyAt(j, x, c);
      LateReturn(Instr(j, x), j + 1, fs, c);
    }
  }

  /** Before instruction 4 with the stack pointer at the very top of the exception stack: the return address lies
      where the saved stack pointer was. */
  ghost predicate AtTop4(x: M, c: Cpu)
    requires |x.mem| == ADDR_LIMIT
  {
    var f := FrameBase(TOP);
    && x.cpu.eip == CODE + 4 && x.cpu.esp == f && x.cpu.regs.eax == TOP - 4
    && HoldsRegs(x.mem, f + 8, c.regs) && Load(x.mem, f + 44) == c.eflags
  }

  lemma Top3(x: M, c: Cpu)
    requires c.esp == TOP && |x.mem| == ADDR_LIMIT && At(3, x, c)
    ensures AtTop4(Instr(3, x), c)
  {
    hide Load, Store;
    var f := FrameBase(TOP);
    forall b: nat | f <= b <= f + 44
      ensures Load(Store(x.mem, f + 48, c.eip), b) == Load(x.mem, b)
    {
      LoadOther(x.mem, f + 48, c.eip, b);
    }
  }

  /** Instruction 4 overwrites the return address that instruction 3 stored. */
  lemma Top4(x: M, c: Cpu)
    requires c.esp == TOP && |x.mem| == ADDR_LIMIT && AtTop4(x, c)
    ensures At(5, Instr(4, x), c.(eip := TOP - 4))
  {
    hide Load, Store;
    var f := FrameBase(TOP);
    LoadSame(x.mem, f + 48, TOP - 4);
    forall b: nat | f <= b <= f + 44
      ensures Load(Store(x.mem, f + 48, TOP - 4), b) == Load(x.mem, b)
    {
      LoadOther(x.mem, f + 48, TOP - 4, b);
    }
  }

  lemma NestedTop4(x: M, y: M, c: Cpu, d: nat)
    requires |x.mem| == ADDR_LIMIT && AtTop4(x, c) && y.cpu == x.cpu && Kept(x.mem, y.mem, x.cpu.esp, d)
    ensures AtTop4(y, c)
  {
    hide Load, Store;
    var f := FrameBase(TOP);
    forall a: nat | f <= a <= f + 48
      ensures Load(y.mem, a) == Load(x.mem, a)
    {
      KeptLoad(x.mem, y.mem, f, d, a);
    }
  }

  lemma {:induction false} TopFrom4(x: M, fs: Forest, c: Cpu)
    requires c.esp == TOP && |x.mem| == ADDR_LIMIT && AtTop4(x, c) && Steps(x, 4, fs).Some?
    ensures Steps(x, 4, fs).value.cpu == c.(eip := TOP - 4)
    decreases fs
  {
    hide Load, Store, Instr, At, AtTop4;
    if fs.Cons? && fs.j == 4 {
      var y := Exec(x, fs.head).value;
      RoundTrip(x, fs.head);
      NestedTop4(x, y, c, Depth(fs.head));
      TopFrom4(y, fs.tail, c);
    } else {
      Top4(x, c);
      LateReturn(Instr(4, x), 5, fs, c.(eip := TOP - 4));
    }
  }

  lemma {:induction false} TopSteps(x: M, j: nat, fs: Forest, c: Cpu)
    requires j <= 3 && c.esp == TOP && |x.mem| == ADDR_LIMIT && At(j, x, c) && Steps(x, j, fs).Some?
    ensures Steps(x, j, fs).value.cpu == c.(eip := TOP - 4)
    decreases fs, LAST - j
  {
    hide Load, Store, Instr, At, AtTop4;
    if fs.Cons? && fs.j == j {
      var y := Exec(x, fs.head).value;
      RoundTrip(x, fs.head);
      NestedAt(j, x, y, c, Depth(fs.head));
      TopSteps(y, j, fs.tail, c);
    } else if j == 3 {
      Top3(x, c);
      TopFrom4(Instr(3, x), fs, c);
    } else {
      ReadOnlyAt(j, x, c);
      TopSteps(Instr(j, x), j + 1, fs, c);
    }
  }

  /** With the stack pointer at the very top, the return goes to TOP - 4, whatever faults are nested in it. */
  lemma TopReturn(x: M, r: Run)
    requires |x.mem| == ADDR_LIMIT && x.cpu.esp == TOP && Deliver(x, r).Some?
    ensures Deliver(x, r).value.cpu == x.cpu.(eip := TOP - 4)
  {
    hide Load, Store, StoreWords, Instr, HoldsFrame, At;
    Delivered(x, r);
    TopSteps(M(Cpu(r.regs, CODE, r.eflags, FrameBase(TOP)), r.mem), 0, r.nested, x.cpu);
  }

  /** That is the one exception: the faulting code resumes where it was exactly when its stack pointer is not TOP, or it
      was at TOP - 4 already. */
  lemma ReturnsIff(x: M, r: Run)
    requires |x.mem| == ADDR_LIMIT && (GoodEsp(x.cpu.esp) || x.cpu.esp == TOP) && Deliver(x, r).Some?
    ensures Deliver(x, r).value.cpu == x.cpu <==> (x.cpu.esp != TOP || x.cpu.eip == TOP - 4)
  {
    hide Load, Store, StoreWords, Instr, HoldsFrame;
    if x.cpu.esp == TOP {
      TopReturn(x, r);
    } else {
      RoundTrip(x, r);
    }
  }
}
