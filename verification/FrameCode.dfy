/**
 * The code at the two ends of a function: the prologue opens a frame and saves
 * registers at its top, the epilogue puts everything back.
 */
module FrameCode {
  import opened BackendRegisters

  const RA := General(1)
  const SP := General(2)
  const T2 := General(7)
  const S0 := General(8)

  /** The position of a register in the ordered sets of the back end. */
  function Key(r: Register): nat {
    match r
    case General(n) => n
    case Float(n) => 32 + n
  }

  predicate IsRegister(r: Register) {
    r.index < 32
  }

  /** Frame code. Stores and loads move doublewords, for both register files. */
  datatype Instruction =
    | AddImmediate(dst: Register, src: Register, imm: int)
    | Add(dst: Register, left: Register, right: Register)
    | LoadImmediate(dst: Register, imm: int)
    | Store(base: Register, src: Register, imm: int)
    | Load(dst: Register, base: Register, imm: int)

  /** An instruction of a block: frame code, or one that the function had before. */
  datatype BlockItem = Frame(i: Instruction) | Own(id: nat)

  function Framed(code: seq<Instruction>): (r: seq<BlockItem>)
    ensures |r| == |code|
  {
    seq(|code|, i requires 0 <= i < |code| => Frame(code[i]))
  }

  // ---- The machine ----

  /** A byte of memory, as part `part` of a doubleword. */
  datatype Byte = Byte(value: int, part: nat)

  datatype Machine = Machine(regs: Register -> int, memory: int -> Byte)

  function SetRegister(regs: Register -> int, r: Register, value: int): Register -> int {
    x => if x == r then value else regs(x)
  }

  function Written(memory: int -> Byte, at: int, value: int): int -> Byte {
    x => if at <= x < at + 8 then Byte(value, x - at) else memory(x)
  }

  /** All eight bytes of `value` are at this address, none overwritten by a neighbour. */
  ghost predicate Holds(memory: int -> Byte, at: int, value: int) {
    forall k :: at <= k < at + 8 ==> memory(k) == Byte(value, k - at)
  }

  /** A load of eight bytes that belong together; any other mixture reads as zero here. */
  ghost function Read(memory: int -> Byte, at: int): int {
    if Holds(memory, at, memory(at).value) then memory(at).value else 0
  }

  ghost function Exec(i: Instruction, m: Machine): Machine {
    match i
    case AddImmediate(dst, src, imm) => m.(regs := SetRegister(m.regs, dst, m.regs(src) + imm))
    case Add(dst, left, right) => m.(regs := SetRegister(m.regs, dst, m.regs(left) + m.regs(right)))
    case LoadImmediate(dst, imm) => m.(regs := SetRegister(m.regs, dst, imm))
    case Store(base, src, imm) => m.(memory := Written(m.memory, m.regs(base) + imm, m.regs(src)))
    case Load(dst, base, imm) => m.(regs := SetRegister(m.regs, dst, Read(m.memory, m.regs(base) + imm)))
  }

  ghost function Run(code: seq<Instruction>, m: Machine): Machine {
    if code == [] then m else Run(code[1..], Exec(code[0], m))
  }

  lemma {:induction false} RunAppends(a: seq<Instruction>, b: seq<Instruction>, m: Machine)
    ensures Run(a + b, m) == Run(b, Run(a, m))
    decreases |a|
  {
    if a == [] {
      assert a + b == b;
    } else {
      assert (a + b)[1..] == a[1..] + b;
      RunAppends(a[1..], b, Exec(a[0], m));
    }
  }

  // ---- Immediates ----

  /** Every immediate of an arithmetic or memory instruction has room in twelve bits. */
  predicate Encodable(i: Instruction) {
    match i
    case AddImmediate(_, _, imm) => ItypeImmediate(imm)
    case Store(_, _, imm) => ItypeImmediate(imm)
    case Load(_, _, imm) => ItypeImmediate(imm)
    case Add(_, _, _) => true
    case LoadImmediate(_, _) => true
  }

  ghost predicate AllEncodable(code: seq<Instruction>) {
    forall i :: 0 <= i < |code| ==> Encodable(code[i])
  }

  // ---- The code ----

  /** `dst := sp + amount`. */
  function FromSp(dst: Register, amount: int): seq<Instruction> {
    if ItypeImmediate(amount) then [AddImmediate(dst, SP, amount)]
    else [LoadImmediate(T2, amount), Add(dst, SP, T2)]
  }

  function SaveAt(r: Register, offset: int): seq<Instruction> {
    if ItypeImmediate(offset) then [Store(SP, r, offset)]
    else [LoadImmediate(T2, offset), Add(T2, SP, T2), Store(T2, r, 0)]
  }

  function RestoreAt(r: Register, offset: int): seq<Instruction> {
    if ItypeImmediate(offset) then [Load(r, SP, offset)]
    else [LoadImmediate(T2, offset), Add(T2, SP, T2), Load(r, T2, 0)]
  }

  /** Where the saved register number `i` goes; the return address is above all of them. */
  function Slot(size: int, i: nat): int {
    size - 16 - 8 * i
  }

  ghost function Saves(saved: seq<Register>, size: int, n: nat): seq<Instruction>
    requires n <= |saved|
  {
    if n == 0 then [] else SaveAt(saved[n - 1], Slot(size, n - 1)) + Saves(saved, size, n - 1)
  }

  ghost function Restores(saved: seq<Register>, size: int, n: nat): seq<Instruction>
    requires n <= |saved|
  {
    if n == 0 then [] else Restores(saved, size, n - 1) + RestoreAt(saved[n - 1], Slot(size, n - 1))
  }

  ghost function Prologue(saved: seq<Register>, size: int): seq<Instruction> {
    FromSp(SP, -size) + (SaveAt(RA, size - 8) + (Saves(saved, size, |saved|) + FromSp(S0, size)))
  }

  ghost function Epilogue(saved: seq<Register>, size: int): seq<Instruction> {
    Restores(saved, size, |saved|) + (RestoreAt(RA, size - 8) + FromSp(SP, size))
  }

  // ---- The layout of the frame ----

  /** The size of a frame with `locals` bytes of local data and `count` saved registers. */
  function FrameSize(locals: nat, count: nat): nat {
    (locals + 8 * (1 + count) + 15) / 16 * 16
  }

  /** The saved doublewords lie above the locals and inside the frame, do not overlap, and keep the
      alignment of the stack pointer; the frame is the smallest that has room for them. */
  lemma SlotsAreDisjoint(locals: nat, count: nat, i: nat, j: nat)
    requires i < j < count
    ensures var size := FrameSize(locals, count);
      && size % 16 == 0
      && locals <= Slot(size, j) && Slot(size, j) + 8 <= Slot(size, i)
      && Slot(size, i) + 8 <= size - 8
      && Slot(size, i) % 8 == 0 && Slot(size, j) % 8 == 0
      && size < locals + 8 * (1 + count) + 16
  {
  }

  lemma LowestSlotAboveLocals(locals: nat, count: nat)
    ensures FrameSize(locals, count) % 16 == 0
    ensures locals <= FrameSize(locals, count) - 8 - 8 * count
  {
  }

  /** The value of an unsigned 64-bit size kept in a signed 32-bit variable. */
  function ToInt32(n: nat): int {
    var low := n % 0x1_0000_0000;
    if low < 0x8000_0000 then low else low - 0x1_0000_0000
  }

  /** The size survives that conversion exactly when it is below two gibibytes. */
  lemma SizeFitsExactlyWhenSmall(n: nat)
    ensures ToInt32(n) == n <==> n < 0x8000_0000
  {
  }

  // ---- What the pieces do ----

  ghost predicate SameButT2(m: Machine, n: Machine) {
    forall r :: r != T2 ==> n.regs(r) == m.regs(r)
  }

  ghost predicate SameOutside(m: int -> Byte, n: int -> Byte, from: int, to: int) {
    forall a :: !(from <= a < to) ==> n(a) == m(a)
  }

  lemma RunOne(i: Instruction, m: Machine)
    ensures Run([i], m) == Exec(i, m)
  {
  }

  lemma RunTwo(i: Instruction, j: Instruction, m: Machine)
    ensures Run([i, j], m) == Exec(j, Exec(i, m))
  {
    assert [i, j][1..] == [j];
    RunOne(j, Exec(i, m));
  }

  lemma RunThree(i: Instruction, j: Instruction, k: Instruction, m: Machine)
    ensures Run([i, j, k], m) == Exec(k, Exec(j, Exec(i, m)))
  {
    assert [i, j, k][1..] == [j, k];
    RunTwo(j, k, Exec(i, m));
  }

  lemma FromSpRuns(dst: Register, amount: int, m: Machine)
    requires dst != T2
    ensures var n := Run(FromSp(dst, amount), m);
      && n.memory == m.memory
      && n.regs(dst) == m.regs(SP) + amount
      && forall r :: r != T2 && r != dst ==> n.regs(r) == m.regs(r)
  {
    hide Run;
    if ItypeImmediate(amount) {
      RunOne(AddImmediate(dst, SP, amount), m);
    } else {
      RunTwo(LoadImmediate(T2, amount), Add(dst, SP, T2), m);
    }
  }

  lemma SaveAtRuns(r: Register, offset: int, m: Machine)
    requires r != T2
    ensures var n := Run(SaveAt(r, offset), m);
      SameButT2(m, n) && n.memory == Written(m.memory, m.regs(SP) + offset, m.regs(r))
  {
    hide Run;
    if ItypeImmediate(offset) {
      RunOne(Store(SP, r, offset), m);
    } else {
      RunThree(LoadImmediate(T2, offset), Add(T2, SP, T2), Store(T2, r, 0), m);
    }
  }

  lemma RestoreAtRuns(r: Register, offset: int, m: Machine)
    requires r != T2
    ensures var n := Run(RestoreAt(r, offset), m);
      && n.memory == m.memory
      && n.regs(r) == Read(m.memory, m.regs(SP) + offset)
      && forall x :: x != T2 && x != r ==> n.regs(x) == m.regs(x)
  {
    hide Run, Read;
    if ItypeImmediate(offset) {
      RunOne(Load(r, SP, offset), m);
    } else {
      RunThree(LoadImmediate(T2, offset), Add(T2, SP, T2), Load(r, T2, 0), m);
    }
  }

  lemma ReadHeld(memory: int -> Byte, at: int, value: int)
    requires Holds(memory, at, value)
    ensures Read(memory, at) == value
  {
  }

  ghost predicate NoT2(saved: seq<Register>) {
    forall i :: 0 <= i < |saved| ==> saved[i] != T2
  }

  /** The registers `0..n` are in their slots. */
  ghost predicate InSlots(memory: int -> Byte, sp: int, saved: seq<Register>, size: int, n: nat, value: Register -> int)
    requires n <= |saved|
  {
    forall i: nat :: i < n ==> Holds(memory, sp + Slot(size, i), value(saved[i]))
  }

  lemma {:induction false} SavesRun(saved: seq<Register>, size: int, n: nat, m: Machine)
    requires n <= |saved| && NoT2(saved)
    ensures var k := Run(Saves(saved, size, n), m);
      && SameButT2(m, k)
      && InSlots(k.memory, m.regs(SP), saved, size, n, m.regs)
      && SameOutside(m.memory, k.memory, m.regs(SP) + size - 8 - 8 * n, m.regs(SP) + size - 8)
  {
    if n > 0 {
      var first, rest := SaveAt(saved[n - 1], Slot(size, n - 1)), Saves(saved, size, n - 1);
      RunAppends(first, rest, m);
      SaveAtRuns(saved[n - 1], Slot(size, n - 1), m);
      var middle := Run(first, m);
      SavesRun(saved, size, n - 1, middle);
      SavedOneMore(saved, size, n, m, middle, Run(rest, middle));
    }
  }

  lemma SavedOneMore(saved: seq<Register>, size: int, n: nat, m: Machine, middle: Machine, k: Machine)
    requires 0 < n <= |saved| && NoT2(saved)
    requires SameButT2(m, middle) && middle.memory == Written(m.memory, m.regs(SP) + Slot(size, n - 1),
        m.regs(saved[n - 1]))
    requires SameButT2(middle, k) && InSlots(k.memory, middle.regs(SP), saved, size, n - 1, middle.regs)
    requires SameOutside(middle.memory, k.memory, middle.regs(SP) + size - 8 - 8 * (n - 1), middle.regs(SP) + size - 8)
    ensures SameButT2(m, k)
    ensures InSlots(k.memory, m.regs(SP), saved, size, n, m.regs)
    ensures SameOutside(m.memory, k.memory, m.regs(SP) + size - 8 - 8 * n, m.regs(SP) + size - 8)
  {
    var sp := m.regs(SP);
    forall i: nat | i < n ensures Holds(k.memory, sp + Slot(size, i), m.regs(saved[i])) {
      if i < n - 1 {
        assert Holds(k.memory, sp + Slot(size, i), middle.regs(saved[i]));
      } else {
        assert sp + Slot(size, i) + 8 == sp + size - 8 - 8 * (n - 1);
        assert forall x :: sp + Slot(size, i) <= x < sp + Slot(size, i) + 8 ==> k.memory(x) == middle.memory(x);
      }
    }
  }

  /** What the prologue leaves: the frame below the old stack pointer, the frame pointer at it, every
      other register as it was, and the saved values at the top of the frame. */
  ghost predicate Opened(m: Machine, k: Machine, saved: seq<Register>, size: int) {
    && k.regs(SP) == m.regs(SP) - size
    && k.regs(S0) == m.regs(SP)
    && (forall r :: r != SP && r != S0 && r != T2 ==> k.regs(r) == m.regs(r))
    && Guarded(m, k, saved, size)
    && SameOutside(m.memory, k.memory, m.regs(SP) - 8 * (1 + |saved|), m.regs(SP))
  }

  /** The stack pointer is at the bottom of the frame and the save area holds what the caller had. */
  ghost predicate Guarded(m: Machine, k: Machine, saved: seq<Register>, size: int) {
    && k.regs(SP) == m.regs(SP) - size
    && Holds(k.memory, m.regs(SP) - 8, m.regs(RA))
    && InSlots(k.memory, m.regs(SP) - size, saved, size, |saved|, AtSaving(m, size))
  }

  /** What is saved for a register; the stack pointer has been lowered by then. */
  function AtSaving(m: Machine, size: int): Register -> int {
    SetRegister(m.regs, SP, m.regs(SP) - size)
  }

  lemma PrologueOpens(saved: seq<Register>, size: int, m: Machine)
    requires NoT2(saved)
    ensures Opened(m, Run(Prologue(saved, size), m), saved, size)
  {
    hide Run, Saves;
    var lower, top, saves, point := FromSp(SP, -size), SaveAt(RA, size - 8), Saves(saved, size, |saved|),
        FromSp(S0, size);
    RunAppends(lower, top + (saves + point), m);
    var m1 := Run(lower, m);
    FromSpRuns(SP, -size, m);
    RunAppends(top, saves + point, m1);
    var m2 := Run(top, m1);
    SaveAtRuns(RA, size - 8, m1);
    RunAppends(saves, point, m2);
    var m3 := Run(saves, m2);
    SavesRun(saved, size, |saved|, m2);
    FromSpRuns(S0, size, m3);
    TopIsKept(saved, size, m, m1, m2, m3);
    SlotsAreKept(saved, size, m, m1, m2, m3);
  }

  lemma TopIsKept(saved: seq<Register>, size: int, m: Machine, m1: Machine, m2: Machine, m3: Machine)
    requires m1.regs(SP) == m.regs(SP) - size && m1.regs(RA) == m.regs(RA) && m1.memory == m.memory
    requires m2.memory == Written(m1.memory, m1.regs(SP) + (size - 8), m1.regs(RA))
    requires SameOutside(m2.memory, m3.memory, m.regs(SP) - 8 - 8 * |saved|, m.regs(SP) - 8)
    ensures Holds(m3.memory, m.regs(SP) - 8, m.regs(RA))
    ensures SameOutside(m.memory, m3.memory, m.regs(SP) - 8 * (1 + |saved|), m.regs(SP))
  {
  }

  lemma SlotsAreKept(saved: seq<Register>, size: int, m: Machine, m1: Machine, m2: Machine, m3: Machine)
    requires m1.regs(SP) == m.regs(SP) - size
    requires forall r :: r != T2 && r != SP ==> m1.regs(r) == m.regs(r)
    requires SameButT2(m1, m2) && NoT2(saved)
    requires InSlots(m3.memory, m2.regs(SP), saved, size, |saved|, m2.regs)
    ensures InSlots(m3.memory, m.regs(SP) - size, saved, size, |saved|, AtSaving(m, size))
  {
    forall i: nat | i < |saved| ensures Holds(m3.memory, m.regs(SP) - size + Slot(size, i),
        AtSaving(m, size)(saved[i])) {
      assert Holds(m3.memory, m2.regs(SP) + Slot(size, i), m2.regs(saved[i]));
    }
  }

  /** The first `n` registers have their values back; no other register has changed. */
  ghost predicate PutBack(m: Machine, k: Machine, l: Machine, saved: seq<Register>, size: int, n: nat)
    requires n <= |saved|
  {
    && l.memory == k.memory
    && l.regs(SP) == k.regs(SP)
    && (forall i: nat :: i < n ==> l.regs(saved[i]) == AtSaving(m, size)(saved[i]))
    && (forall r :: r != T2 && r !in saved[..n] ==> l.regs(r) == k.regs(r))
  }

  lemma {:induction false} RestoresRun(saved: seq<Register>, size: int, n: nat, m: Machine, k: Machine)
    requires n <= |saved| && NoT2(saved) && Guarded(m, k, saved, size)
    ensures PutBack(m, k, Run(Restores(saved, size, n), k), saved, size, n)
  {
    if n > 0 {
      var before, last := Restores(saved, size, n - 1), RestoreAt(saved[n - 1], Slot(size, n - 1));
      RunAppends(before, last, k);
      RestoresRun(saved, size, n - 1, m, k);
      var middle := Run(before, k);
      RestoreAtRuns(saved[n - 1], Slot(size, n - 1), middle);
      RestoredOneMore(saved, size, n, m, k, middle, Run(last, middle));
    }
  }

  lemma RestoredOneMore(saved: seq<Register>, size: int, n: nat, m: Machine, k: Machine, middle: Machine, l: Machine)
    requires 0 < n <= |saved| && NoT2(saved) && Guarded(m, k, saved, size)
    requires PutBack(m, k, middle, saved, size, n - 1)
    requires l.memory == middle.memory && l.regs(saved[n - 1]) == Read(middle.memory,
        middle.regs(SP) + Slot(size, n - 1))
    requires forall x :: x != T2 && x != saved[n - 1] ==> l.regs(x) == middle.regs(x)
    ensures PutBack(m, k, l, saved, size, n)
  {
    hide Holds, Read;
    var value := AtSaving(m, size)(saved[n - 1]);
    assert Holds(k.memory, m.regs(SP) - size + Slot(size, n - 1), value);
    ReadHeld(k.memory, m.regs(SP) - size + Slot(size, n - 1), value);
    assert l.regs(saved[n - 1]) == value;
    assert saved[..n] == saved[..n - 1] + [saved[n - 1]];
  }

  /** What the epilogue leaves: the stack pointer, the return address and every saved register as the
      caller had them, memory and every other register as the body left them. */
  ghost predicate Closed(m: Machine, k: Machine, l: Machine, saved: seq<Register>) {
    && l.memory == k.memory
    && l.regs(SP) == m.regs(SP)
    && l.regs(RA) == m.regs(RA)
    && (forall i :: 0 <= i < |saved| ==> l.regs(saved[i]) == m.regs(saved[i]))
    && (forall r :: r != SP && r != RA && r != T2 && r !in saved ==> l.regs(r) == k.regs(r))
  }

  lemma EpilogueCloses(saved: seq<Register>, size: int, m: Machine, k: Machine)
    requires NoT2(saved) && Guarded(m, k, saved, size)
    ensures Closed(m, k, Run(Epilogue(saved, size), k), saved)
  {
    hide Run, Restores, Read, Holds;
    var all, top, raise := Restores(saved, size, |saved|), RestoreAt(RA, size - 8), FromSp(SP, size);
    RunAppends(all, top + raise, k);
    RestoresRun(saved, size, |saved|, m, k);
    var k1 := Run(all, k);
    RunAppends(top, raise, k1);
    RestoreAtRuns(RA, size - 8, k1);
    var k2 := Run(top, k1);
    ReadHeld(k.memory, m.regs(SP) - 8, m.regs(RA));
    FromSpRuns(SP, size, k2);
    assert saved[..|saved|] == saved;
  }

  /** A body that leaves the stack pointer and the save area alone. */
  ghost predicate BodyKeeps(k: Machine, l: Machine, size: int, count: nat) {
    && l.regs(SP) == k.regs(SP)
    && forall a :: k.regs(SP) + size - 8 * (1 + count) <= a < k.regs(SP) + size ==> l.memory(a) == k.memory(a)
  }

  lemma BodyKeepsGuarded(m: Machine, k: Machine, l: Machine, saved: seq<Register>, size: int)
    requires Guarded(m, k, saved, size) && BodyKeeps(k, l, size, |saved|)
    ensures Guarded(m, l, saved, size)
  {
    forall i: nat | i < |saved| ensures Holds(l.memory, m.regs(SP) - size + Slot(size, i),
        AtSaving(m, size)(saved[i])) {
      assert Holds(k.memory, m.regs(SP) - size + Slot(size, i), AtSaving(m, size)(saved[i]));
    }
  }

  /** Prologue, then any body that keeps the stack pointer and the save area, then epilogue: the caller
      gets its stack pointer, return address, frame pointer and saved registers back, whatever else the
      body did to registers, and nothing in memory above the frame is touched by the frame code. */
  lemma FrameDiscipline(saved: seq<Register>, size: int, m: Machine, l: Machine)
    requires NoT2(saved) && S0 in saved
    requires BodyKeeps(Run(Prologue(saved, size), m), l, size, |saved|)
    ensures Opened(m, Run(Prologue(saved, size), m), saved, size)
    ensures Closed(m, l, Run(Epilogue(saved, size), l), saved)
    ensures Run(Epilogue(saved, size), l).regs(S0) == m.regs(S0)
  {
    hide *;
    var k := Run(Prologue(saved, size), m);
    PrologueOpens(saved, size, m);
    OpenedIsGuarded(m, k, saved, size);
    BodyKeepsGuarded(m, k, l, saved, size);
    EpilogueCloses(saved, size, m, l);
    ClosedRestores(m, l, Run(Epilogue(saved, size), l), saved, S0);
  }

  lemma OpenedIsGuarded(m: Machine, k: Machine, saved: seq<Register>, size: int)
    requires Opened(m, k, saved, size)
    ensures Guarded(m, k, saved, size)
  {
  }

  lemma ClosedRestores(m: Machine, k: Machine, l: Machine, saved: seq<Register>, r: Register)
    requires Closed(m, k, l, saved) && r in saved
    ensures l.regs(r) == m.regs(r)
  {
    var i :| 0 <= i < |saved| && saved[i] == r;
    assert l.regs(saved[i]) == m.regs(saved[i]);
  }

  lemma {:induction false} SavesEncodable(saved: seq<Register>, size: int, n: nat)
    requires n <= |saved|
    ensures AllEncodable(Saves(saved, size, n)) && AllEncodable(Restores(saved, size, n))
  {
    if n > 0 {
      SavesEncodable(saved, size, n - 1);
    }
  }

  /** Frames of any size: no instruction needs an immediate of more than twelve bits. */
  lemma FrameCodeEncodable(saved: seq<Register>, size: int)
    ensures AllEncodable(Prologue(saved, size)) && AllEncodable(Epilogue(saved, size))
  {
    SavesEncodable(saved, size, |saved|);
  }

  // ---- By register number ----

  /** x10 to x17 and f10 to f17 pass arguments, the first two of each results. */
  predicate PassesArgument(r: Register) {
    10 <= r.index <= 17
  }

  predicate PassesResult(r: Register) {
    10 <= r.index <= 11
  }

  /** What a call leaves as it was: x2, x8, x9, x18 to x27, f8, f9 and f18 to f27. */
  predicate KeptByCalls(r: Register) {
    match r
    case General(n) => n == 2 || n == 8 || n == 9 || 18 <= n <= 27
    case Float(n) => n == 8 || n == 9 || 18 <= n <= 27
  }

  /** The prologue writes x2, x7 and x8, so every argument is there after it, whatever the frame size. */
  lemma ArgumentsArrive(saved: seq<Register>, size: int, m: Machine)
    requires AllCalleeSaved(saved)
    ensures var k := Run(Prologue(saved, size), m);
      && (forall r :: r != General(2) && r != General(7) && r != General(8) ==> k.regs(r) == m.regs(r))
      && (forall r :: PassesArgument(r) ==> k.regs(r) == m.regs(r))
  {
    CalleeSavedIsNotT2(saved);
    PrologueOpens(saved, size, m);
    hide Run, Prologue, Guarded, SameOutside;
  }

  /** The epilogue writes x1, x2, x7 and saved registers, so the results are what the body left. */
  lemma ResultsLeave(saved: seq<Register>, size: int, m: Machine, l: Machine)
    requires AllCalleeSaved(saved) && Guarded(m, l, saved, size)
    ensures var n := Run(Epilogue(saved, size), l);
      && (forall r :: r != General(1) && r != General(2) && r != General(7) && r !in saved ==> n.regs(r) == l.regs(r))
      && (forall r :: PassesResult(r) ==> n.regs(r) == l.regs(r))
  {
    CalleeSavedIsNotT2(saved);
    EpilogueCloses(saved, size, m, l);
    hide Run, Epilogue, Guarded;
    forall r | PassesResult(r) ensures r !in saved {
      assert !CalleeSaved(r);
    }
  }

  /** A whole call: the arguments arrive, the results leave, and if the body changes registers that calls
      keep only where they are recorded, the caller finds all of these as it left them. */
  lemma CallKeepsRegisters(saved: seq<Register>, size: int, m: Machine, l: Machine)
    requires AllCalleeSaved(saved) && General(8) in saved
    requires BodyKeeps(Run(Prologue(saved, size), m), l, size, |saved|)
    requires forall r :: KeptByCalls(r) && r !in saved ==> l.regs(r) == Run(Prologue(saved, size), m).regs(r)
    ensures forall r :: PassesArgument(r) ==> Run(Prologue(saved, size), m).regs(r) == m.regs(r)
    ensures forall r :: PassesResult(r) ==> Run(Epilogue(saved, size), l).regs(r) == l.regs(r)
    ensures forall r :: KeptByCalls(r) ==> Run(Epilogue(saved, size), l).regs(r) == m.regs(r)
    ensures Run(Epilogue(saved, size), l).regs(General(1)) == m.regs(General(1))
  {
    var k := Run(Prologue(saved, size), m);
    CalleeSavedIsNotT2(saved);
    ArgumentsArrive(saved, size, m);
    PrologueOpens(saved, size, m);
    OpenedIsGuarded(m, k, saved, size);
    BodyKeepsGuarded(m, k, l, saved, size);
    ResultsLeave(saved, size, m, l);
    FrameDiscipline(saved, size, m, l);
    hide Run, Prologue, Epilogue, Guarded, BodyKeeps;
    forall r | KeptByCalls(r) ensures Run(Epilogue(saved, size), l).regs(r) == m.regs(r) {
      if r in saved {
        ClosedRestores(m, l, Run(Epilogue(saved, size), l), saved, r);
      }
    }
  }

  // ---- Emission ----

  /** A set of registers, listed in the order in which the source walks it. */
  ghost predicate Ordered(saved: seq<Register>) {
    forall i, j :: 0 <= i < j < |saved| ==> Key(saved[i]) < Key(saved[j])
  }

  ghost predicate AllCalleeSaved(saved: seq<Register>) {
    forall i :: 0 <= i < |saved| ==> CalleeSaved(saved[i])
  }

  lemma KeysDistinguish(a: Register, b: Register)
    requires CalleeSaved(a) && CalleeSaved(b) && Key(a) == Key(b)
    ensures a == b
  {
  }

  lemma CalleeSavedIsNotT2(saved: seq<Register>)
    requires AllCalleeSaved(saved)
    ensures NoT2(saved)
  {
  }

  /** The function with `code` at the front of its entry block. */
  ghost function WithFront(blocks: seq<seq<BlockItem>>, code: seq<Instruction>): seq<seq<BlockItem>>
    requires blocks != []
  {
    blocks[0 := Framed(code) + blocks[0]]
  }

  /** The function with `code` just before the last instruction of its exit block. */
  ghost function WithEnd(blocks: seq<seq<BlockItem>>, code: seq<Instruction>): (r: seq<seq<BlockItem>>)
    requires blocks != [] && blocks[|blocks| - 1] != []
    ensures r != [] && r[|r| - 1] != []
  {
    var exit := blocks[|blocks| - 1];
    blocks[|blocks| - 1 := exit[..|exit| - 1] + Framed(code) + exit[|exit| - 1..]]
  }

  lemma FramedAppends(a: seq<Instruction>, b: seq<Instruction>)
    ensures Framed(a + b) == Framed(a) + Framed(b)
  {
  }

  lemma FrontOne(blocks: seq<seq<BlockItem>>, i: Instruction)
    requires blocks != []
    ensures blocks[0 := [Frame(i)] + blocks[0]] == WithFront(blocks, [i])
  {
    assert Framed([i]) == [Frame(i)];
  }

  lemma FrontTwo(blocks: seq<seq<BlockItem>>, i: Instruction, j: Instruction)
    requires blocks != []
    ensures blocks[0 := [Frame(i)] + ([Frame(j)] + blocks[0])] == WithFront(blocks, [i, j])
  {
    assert [Frame(i)] + ([Frame(j)] + blocks[0]) == Framed([i, j]) + blocks[0];
  }

  lemma FrontThree(blocks: seq<seq<BlockItem>>, i: Instruction, j: Instruction, k: Instruction)
    requires blocks != []
    ensures blocks[0 := [Frame(i)] + ([Frame(j)] + ([Frame(k)] + blocks[0]))] == WithFront(blocks, [i, j, k])
  {
    assert [Frame(i)] + ([Frame(j)] + ([Frame(k)] + blocks[0])) == Framed([i, j, k]) + blocks[0];
  }

  lemma FrontAppends(blocks: seq<seq<BlockItem>>, a: seq<Instruction>, b: seq<Instruction>)
    requires blocks != []
    ensures WithFront(blocks, b) != []
    ensures WithFront(WithFront(blocks, b), a) == WithFront(blocks, a + b)
  {
    FramedAppends(a, b);
    assert Framed(a) + (Framed(b) + blocks[0]) == Framed(a) + Framed(b) + blocks[0];
  }

  lemma EndNothing(blocks: seq<seq<BlockItem>>)
    requires blocks != [] && blocks[|blocks| - 1] != []
    ensures WithEnd(blocks, []) == blocks
  {
    var exit := blocks[|blocks| - 1];
    assert exit[..|exit| - 1] + Framed([]) + exit[|exit| - 1..] == exit;
  }

  lemma EndAppends(blocks: seq<seq<BlockItem>>, a: seq<Instruction>, b: seq<Instruction>)
    requires blocks != [] && blocks[|blocks| - 1] != []
    ensures WithEnd(WithEnd(blocks, a), b) == WithEnd(blocks, a + b)
  {
    FramedAppends(a, b);
    var exit := blocks[|blocks| - 1];
    var once := exit[..|exit| - 1] + Framed(a) + exit[|exit| - 1..];
    assert once[..|once| - 1] == exit[..|exit| - 1] + Framed(a);
    assert once[|once| - 1..] == exit[|exit| - 1..];
    assert exit[..|exit| - 1] + Framed(a) + Framed(b) == exit[..|exit| - 1] + (Framed(a) + Framed(b));
  }

  lemma SavesStart(saved: seq<Register>, size: int, rest: seq<Instruction>)
    ensures Saves(saved, size, 0) + rest == rest
  {
  }

  lemma FrontKeepsLength(blocks: seq<seq<BlockItem>>, code: seq<Instruction>)
    requires blocks != []
    ensures |WithFront(blocks, code)| == |blocks|
  {
  }

  lemma SavesOneMore(saved: seq<Register>, size: int, n: nat, rest: seq<Instruction>)
    requires n < |saved|
    ensures SaveAt(saved[n], Slot(size, n)) + (Saves(saved, size, n) + rest) == Saves(saved, size, n + 1) + rest
  {
  }

  lemma PrologueParts(saved: seq<Register>, size: int)
    ensures FromSp(SP, -size) + (SaveAt(RA, size - 8) + (Saves(saved, size, |saved|) + FromSp(S0,
        size))) == Prologue(saved, size)
  {
  }

  lemma RestoresStart(saved: seq<Register>, size: int)
    ensures Restores(saved, size, 0) == []
  {
  }

  lemma RestoresOneMore(saved: seq<Register>, size: int, n: nat)
    requires n < |saved|
    ensures Restores(saved, size, n) + RestoreAt(saved[n], Slot(size, n)) == Restores(saved, size, n + 1)
  {
  }

  lemma EpilogueParts(saved: seq<Register>, size: int)
    ensures Restores(saved, size, |saved|) + RestoreAt(RA, size - 8) + FromSp(SP, size) == Epilogue(saved, size)
  {
    var a, b, c := Restores(saved, size, |saved|), RestoreAt(RA, size - 8), FromSp(SP, size);
    assert a + b + c == a + (b + c);
  }

  lemma Inserted(saved: seq<Register>, at: nat, r: Register)
    requires at <= |saved| && Ordered(saved) && AllCalleeSaved(saved) && CalleeSaved(r)
    requires forall i :: 0 <= i < at ==> Key(saved[i]) < Key(r)
    requires forall i :: at <= i < |saved| ==> Key(r) < Key(saved[i])
    ensures var longer := saved[..at] + [r] + saved[at..];
      && Ordered(longer) && AllCalleeSaved(longer)
      && (set x | x in longer) == (set x | x in saved) + {r}
  {
    InsertedMembers(saved, at, r);
    var longer := saved[..at] + [r] + saved[at..];
    hide Key, CalleeSaved;
    assert forall i :: 0 <= i < |longer| ==> longer[i] == if i < at then saved[i] else if i == at then r
        else saved[i - 1];
  }

  lemma InsertedMembers(saved: seq<Register>, at: nat, r: Register)
    requires at <= |saved|
    ensures (set x | x in saved[..at] + [r] + saved[at..]) == (set x | x in saved) + {r}
  {
    var left, right := (set x | x in saved[..at] + [r] + saved[at..]), (set x | x in saved) + {r};
    assert saved == saved[..at] + saved[at..];
    forall x ensures x in left <==> x in right {
      assert x in saved <==> x in saved[..at] || x in saved[at..];
    }
  }

  /** A function of the back end: its blocks in layout order, and what it knows about its frame. */
  class FunctionFrame {
    var blocks: seq<seq<BlockItem>>
    var stackFrameSize: nat
    var alignFrameSize: int
    var saved: seq<Register>

    ghost predicate Valid()
      reads this
    {
      && blocks != []
      && blocks[|blocks| - 1] != []
      && Ordered(saved)
      && AllCalleeSaved(saved)
    }

    constructor (blocks: seq<seq<BlockItem>>, locals: nat)
      requires blocks != [] && blocks[|blocks| - 1] != []
      ensures Valid() && this.blocks == blocks && stackFrameSize == locals && saved == []
    {
      this.blocks := blocks;
      stackFrameSize := locals;
      alignFrameSize := 0;
      saved := [];
    }

    method AddSavedRegister(r: Register)
      requires Valid()
      modifies this`saved
      ensures Valid()
      ensures (set x | x in saved) == (set x | x in old(saved)) + (if CalleeSaved(r) then {r} else {})
      ensures |saved| == |old(saved)| + (if CalleeSaved(r) && r !in old(saved) then 1 else 0)
    {
      if !CalleeSaved(r) { return; }
      var at := 0;
      while at < |saved| && Key(saved[at]) < Key(r)
        invariant 0 <= at <= |saved|
        invariant forall i :: 0 <= i < at ==> Key(saved[i]) < Key(r)
      {
        at := at + 1;
      }
      if at < |saved| && Key(saved[at]) == Key(r) {
        KeysDistinguish(saved[at], r);
        return;
      }
      assert forall i :: at <= i < |saved| ==> Key(r) < Key(saved[i]);
      ghost var before := saved;
      saved := saved[..at] + [r] + saved[at..];
      Inserted(before, at, r);
    }

    method AddFront(i: Instruction)
      requires Valid()
      modifies this`blocks
      ensures Valid()
      ensures blocks == old(blocks)[0 := [Frame(i)] + old(blocks)[0]]
    {
      blocks := blocks[0 := [Frame(i)] + blocks[0]];
    }

    method InsertBeforeLast(i: Instruction)
      requires Valid()
      modifies this`blocks
      ensures Valid()
      ensures blocks == WithEnd(old(blocks), [i])
    {
      var exit := |blocks| - 1;
      var n := |blocks[exit]| - 1;
      assert Framed([i]) == [Frame(i)];
      blocks := blocks[exit := blocks[exit][..n] + [Frame(i)] + blocks[exit][n..]];
    }

    /** Prepends `dst := sp + amount`. */
    method AddFromSp(dst: Register, amount: int)
      requires Valid()
      modifies this`blocks
      ensures Valid() && blocks == WithFront(old(blocks), FromSp(dst, amount))
    {
      hide WithFront;
      if ItypeImmediate(amount) {
        AddFront(AddImmediate(dst, SP, amount));
        FrontOne(old(blocks), AddImmediate(dst, SP, amount));
      } else {
        AddFront(Add(dst, SP, T2));
        AddFront(LoadImmediate(T2, amount));
        FrontTwo(old(blocks), LoadImmediate(T2, amount), Add(dst, SP, T2));
      }
    }

    method AddSave(r: Register, offset: int)
      requires Valid()
      modifies this`blocks
      ensures Valid() && blocks == WithFront(old(blocks), SaveAt(r, offset))
    {
      hide WithFront;
      if ItypeImmediate(offset) {
        AddFront(Store(SP, r, offset));
        FrontOne(old(blocks), Store(SP, r, offset));
      } else {
        AddFront(Store(T2, r, 0));
        AddFront(Add(T2, SP, T2));
        AddFront(LoadImmediate(T2, offset));
        FrontThree(old(blocks), LoadImmediate(T2, offset), Add(T2, SP, T2), Store(T2, r, 0));
      }
    }

    /** Saves every register of the set, the first of them highest. */
    method AddSaves(size: int, ghost rest: seq<Instruction>, ghost start: seq<seq<BlockItem>>)
      requires Valid() && start != [] && blocks == WithFront(start, rest)
      modifies this`blocks
      ensures Valid()
      ensures blocks == WithFront(start, Saves(saved, size, |saved|) + rest)
    {
      hide WithFront, Saves, SaveAt, FromSp, Ordered, AllCalleeSaved;
      var position := size - 16;
      SavesStart(saved, size, rest);
      for i := 0 to |saved|
        invariant Valid()
        invariant position == Slot(size, i)
        invariant blocks == WithFront(start, Saves(saved, size, i) + rest)
        modifies this`blocks
      {
        AddSave(saved[i], position);
        FrontAppends(start, SaveAt(saved[i], position), Saves(saved, size, i) + rest);
        SavesOneMore(saved, size, i, rest);
        position := position - 8;
      }
    }

    /** Opens the frame: everything goes to the front of the entry block, last instruction first. */
    method EmitPrologue()
      requires Valid()
      requires FrameSize(stackFrameSize, |saved| + (if S0 in saved then 0 else 1)) < 0x8000_0000
      modifies this
      ensures Valid() && S0 in saved
      ensures (set x | x in saved) == (set x | x in old(saved)) + {S0}
      ensures stackFrameSize == old(stackFrameSize) + 8 * (1 + |saved|)
      ensures stackFrameSize + alignFrameSize == FrameSize(old(stackFrameSize), |saved|)
      ensures blocks == WithFront(old(blocks), Prologue(saved, FrameSize(old(stackFrameSize), |saved|)))
    {
      hide WithFront, Saves, SaveAt, FromSp, Prologue, Ordered, AllCalleeSaved, Slot;
      AddSavedRegister(S0);
      stackFrameSize := stackFrameSize + 8 * (1 + |saved|);
      var aligned := ToInt32((stackFrameSize + 15) / 16 * 16);
      SizeFitsExactlyWhenSmall((stackFrameSize + 15) / 16 * 16);
      alignFrameSize := aligned - stackFrameSize;
      AddFromSp(S0, aligned);
      AddSaves(aligned, FromSp(S0, aligned), old(blocks));
      var position := aligned - 8;
      AddSave(RA, position);
      AddFromSp(SP, -aligned);
      ghost var saves := Saves(saved, aligned, |saved|) + FromSp(S0, aligned);
      FrontAppends(old(blocks), SaveAt(RA, position), saves);
      FrontAppends(old(blocks), FromSp(SP, -aligned), SaveAt(RA, position) + saves);
      PrologueParts(saved, aligned);
    }

    /** Both ends of the function, around a frame of one size. */
    method EmitFrame()
      requires Valid()
      requires FrameSize(stackFrameSize, |saved| + (if S0 in saved then 0 else 1)) < 0x8000_0000
      modifies this
      ensures Valid() && S0 in saved && NoT2(saved)
      ensures (set x | x in saved) == (set x | x in old(saved)) + {S0}
      ensures var size := FrameSize(old(stackFrameSize), |saved|);
        && old(stackFrameSize) <= size - 8 * (1 + |saved|) && size % 16 == 0
        && WithFront(old(blocks), Prologue(saved, size))[|old(blocks)| - 1] != []
        && blocks == WithEnd(WithFront(old(blocks), Prologue(saved, size)), Epilogue(saved, size))
    {
      hide WithFront, WithEnd, Prologue, Epilogue, Ordered, AllCalleeSaved, FrameSize;
      EmitPrologue();
      ghost var size := FrameSize(old(stackFrameSize), |saved|);
      LowestSlotAboveLocals(old(stackFrameSize), |saved|);
      CalleeSavedIsNotT2(saved);
      FrontKeepsLength(old(blocks), Prologue(saved, size));
      EmitEpilogue(size);
    }

    method InsertRestore(r: Register, offset: int)
      requires Valid()
      modifies this`blocks
      ensures Valid() && blocks == WithEnd(old(blocks), RestoreAt(r, offset))
    {
      hide WithEnd;
      ghost var start := blocks;
      if ItypeImmediate(offset) {
        InsertBeforeLast(Load(r, SP, offset));
      } else {
        InsertBeforeLast(LoadImmediate(T2, offset));
        InsertBeforeLast(Add(T2, SP, T2));
        EndAppends(start, [LoadImmediate(T2, offset)], [Add(T2, SP, T2)]);
        InsertBeforeLast(Load(r, T2, 0));
        EndAppends(start, [LoadImmediate(T2, offset)] + [Add(T2, SP, T2)], [Load(r, T2, 0)]);
        assert [LoadImmediate(T2, offset)] + [Add(T2, SP, T2)] + [Load(r, T2, 0)] == RestoreAt(r, offset);
      }
    }

    method InsertFromSp(dst: Register, amount: int)
      requires Valid()
      modifies this`blocks
      ensures Valid() && blocks == WithEnd(old(blocks), FromSp(dst, amount))
    {
      hide WithEnd;
      ghost var start := blocks;
      if ItypeImmediate(amount) {
        InsertBeforeLast(AddImmediate(dst, SP, amount));
      } else {
        InsertBeforeLast(LoadImmediate(T2, amount));
        InsertBeforeLast(Add(dst, SP, T2));
        EndAppends(start, [LoadImmediate(T2, amount)], [Add(dst, SP, T2)]);
        assert [LoadImmediate(T2, amount)] + [Add(dst, SP, T2)] == FromSp(dst, amount);
      }
    }

    /** Closes the frame that the prologue opened: everything goes before the last instruction of the exit block. */
    method EmitEpilogue(ghost size: int)
      requires Valid() && stackFrameSize + alignFrameSize == size
      modifies this`blocks
      ensures Valid()
      ensures blocks == WithEnd(old(blocks), Epilogue(saved, size))
    {
      hide WithEnd, Restores, Epilogue;
      ghost var start := blocks;
      var aligned := stackFrameSize + alignFrameSize;
      var position := aligned - 16;
      RestoresStart(saved, aligned);
      EndNothing(start);
      for i := 0 to |saved|
        invariant Valid() && position == Slot(aligned, i)
        invariant blocks == WithEnd(start, Restores(saved, aligned, i))
      {
        InsertRestore(saved[i], position);
        EndAppends(start, Restores(saved, aligned, i), RestoreAt(saved[i], position));
        RestoresOneMore(saved, aligned, i);
        position := position - 8;
      }
      ghost var all := Restores(saved, aligned, |saved|);
      InsertRestore(RA, aligned - 8);
      EndAppends(start, all, RestoreAt(RA, aligned - 8));
      InsertFromSp(SP, aligned);
      EndAppends(start, all + RestoreAt(RA, aligned - 8), FromSp(SP, aligned));
      EpilogueParts(saved, aligned);
    }
  }
}
