/** The interpreter of src/cpu.ts on values: the whole machine state as a
    datatype, and `perform`, `loop`, `updateTimers`, `reset`, `loadFonts`,
    `loadProgram` and the key-wait hook as functions of it. The class in
    cpu.dfy is proved to compute exactly these functions. */
module Semantics {
  import opened Bits
  import opened Display
  import opened Input
  import opened Isa

  const MemorySize: int := 4096
  const Registers: int := 16
  /** VF, the flag register. */
  const Flag: Nibble := 0xF
  /** Where programs are loaded and execution starts. */
  const ProgramStart: nat := 0x200

  /** The sixteen 4x5 hexadecimal glyphs that `loadFonts` writes from address 0. */
  const Fonts: seq<Byte> := [
    0xF0, 0x90, 0x90, 0x90, 0xF0, 0x20, 0x60, 0x20, 0x20, 0x70,
    0xF0, 0x10, 0xF0, 0x80, 0xF0, 0xF0, 0x10, 0xF0, 0x10, 0xF0,
    0x90, 0x90, 0xF0, 0x10, 0x10, 0xF0, 0x80, 0xF0, 0x10, 0xF0,
    0xF0, 0x80, 0xF0, 0x90, 0xF0, 0xF0, 0x10, 0x20, 0x40, 0x40,
    0xF0, 0x90, 0xF0, 0x90, 0xF0, 0xF0, 0x90, 0xF0, 0x10, 0xF0,
    0xF0, 0x90, 0xF0, 0x90, 0x90, 0xE0, 0x90, 0xE0, 0x90, 0xE0,
    0xF0, 0x80, 0x80, 0x80, 0xF0, 0xE0, 0x90, 0x90, 0x90, 0xE0,
    0xF0, 0x80, 0xF0, 0x80, 0xF0, 0xF0, 0x80, 0xF0, 0x80, 0x80]

  /** The value `Math.floor(Math.random() * 0xFF)` that CXNN masks: 0 to 254. */
  type RandomDraw = r: int | 0 <= r < 0xFF

  /** Everything `perform` and `loop` read or write: the CPU's own fields,
      the screen's bitmap and the keyboard's state. */
  datatype Machine = Machine(
    pc: nat,
    v: seq<Byte>,
    i: nat,
    memory: seq<Byte>,
    stack: seq<nat>,
    delayTimer: Byte,
    soundTimer: Byte,
    paused: bool,
    bitMap: seq<int>,
    keys: KeyState)

  /** The shape every reachable machine has. A pending key wait always names
      a register, because only FX0A installs one. */
  ghost predicate Valid(m: Machine)
  {
    |m.v| == Registers && |m.memory| == MemorySize && IsBitmap(m.bitMap) &&
    (m.keys.pending.Some? ==> m.keys.pending.value < Registers)
  }

  /** Why `perform` did not complete. */
  datatype Fault =
    | EmptyStack      // 00EE with nothing to pop: the source sets `pc` to `undefined`
    | MissingHandler  // 8XY_, EX__ or FX__ without an entry: calling `undefined` throws
    | WrongReceiver   // 8XY7 with V[X] > V[Y]: `this.v` is read on the dispatch table, which throws

  /** The machine after one instruction, and the fault that stopped it, if any.
      A faulting instruction leaves the machine as it was once `pc` was advanced. */
  datatype Outcome = Outcome(m: Machine, fault: Option<Fault>)

  function Ok(m: Machine): Outcome
  {
    Outcome(m, None)
  }

  /** `memory[addr]`: an index past the end reads `undefined`, which every use
      in the source (`<<`, `|`, `&`, a store into a `Uint8Array`) turns into 0. */
  function Read(mem: seq<Byte>, addr: nat): Byte
  {
    if addr < |mem| then mem[addr] else 0
  }

  /** `memory[addr] = b`: a store past the end of a `Uint8Array` is dropped. */
  function Write(mem: seq<Byte>, addr: nat, b: Byte): (r: seq<Byte>)
    ensures |r| == |mem|
  {
    if addr < |mem| then mem[addr := b] else mem
  }

  /** The opcode at `pc`: `memory[pc] << 8 | memory[pc + 1]`. */
  function Fetch(m: Machine): (op: Word)
    ensures m.pc + 1 < |m.memory| ==> op == m.memory[m.pc] as int * 0x100 + m.memory[m.pc + 1] as int
    ensures m.pc >= |m.memory| ==> op == 0
  {
    Read(m.memory, m.pc) * 0x100 + Read(m.memory, m.pc + 1)
  }

  /** The skip instructions: `pc += 2` when the condition holds. */
  function SkipIf(m: Machine, cond: bool): Machine
  {
    if cond then m.(pc := m.pc + 2) else m
  }

  /** The 8XY_ instructions on the registers, statement by statement: VF is
      written before V[X]. 8XY4 takes its sum before that write; 8XY5 and
      8XY7 read V[X] and V[Y] again after it, and 8XY6 and 8XYE read V[X]
      again. */
  function Arith(v: seq<Byte>, instr: Instr): (r: Option<seq<Byte>>)
    requires |v| == Registers
    ensures r.Some? ==> |r.value| == Registers
    ensures r.None? <==> instr.SubReverse? && v[instr.x] > v[instr.y]
    ensures r.Some? && ArithOp(instr) ==>
      forall j :: 0 <= j < Registers && j != instr.x && j != Flag ==> r.value[j] == v[j]
    ensures r.Some? && !ArithOp(instr) ==> r.value == v
  {
    match instr
    case Move(x, y) => Some(v[x := v[y]])
    case OrReg(x, y) => Some(v[x := Or(v[x], v[y])])
    case AndReg(x, y) => Some(v[x := And(v[x], v[y])])
    case XorReg(x, y) => Some(v[x := Xor(v[x], v[y])])
    case AddReg(x, y) =>
      var sum := v[x] as int + v[y] as int;
      var v1 := v[Flag := if sum > 0xFF then 1 else 0];
      Some(v1[x := ToUint8(sum)])
    case SubReg(x, y) =>
      var v1 := v[Flag := if v[x] > v[y] then 1 else 0];
      Some(v1[x := ToUint8(v1[x] - v1[y])])
    case ShiftRight(x) =>
      var v1 := v[Flag := And(v[x], 0x01)];
      Some(v1[x := v1[x] / 2])
    case SubReverse(x, y) =>
      if v[x] > v[y] then None
      else
        var v1 := v[Flag := 1];
        Some(v1[x := ToUint8(v1[y] - v1[x])])
    case ShiftLeft(x) =>
      var v1 := v[Flag := And(v[x], 0x80)];
      Some(v1[x := ToUint8(v1[x] * 2)])
    case _ => Some(v)
  }

  /** The registers and bitmap while DXYN draws. */
  datatype Canvas = Canvas(v: seq<Byte>, bitMap: seq<int>)

  ghost predicate CanvasOk(c: Canvas)
  {
    |c.v| == Registers && IsBitmap(c.bitMap)
  }

  /** The registers a drawing leaves: every register but VF as it was, and
      VF as it was or 1. */
  ghost predicate OnlyFlagSet(before: seq<Byte>, after: seq<Byte>)
  {
    |before| == Registers && (after == before || after == before[Flag := 1])
  }

  /** One step of the DXYN inner loop: if bit `col` (from the left) of sprite
      row `row` is set, `setPixel` at (V[X] + col, V[Y] + row), reading V[X]
      and V[Y] afresh, and a collision sets VF to 1. */
  function DrawPixel(c: Canvas, mem: seq<Byte>, base: nat, x: Nibble, y: Nibble, row: nat, col: nat): (r: Canvas)
    requires CanvasOk(c)
    ensures CanvasOk(r) && OnlyFlagSet(c.v, r.v)
  {
    if Bit7(Read(mem, base + row) * Pow2(col)) then
      var p := XorPixel(c.bitMap, c.v[x] + col, c.v[y] + row);
      Canvas(if p.collided then c.v[Flag := 1] else c.v, p.bitMap)
    else c
  }

  /** The first `cols` pixels of sprite row `row`. */
  function DrawRow(c: Canvas, mem: seq<Byte>, base: nat, x: Nibble, y: Nibble, row: nat, cols: nat): (r: Canvas)
    requires CanvasOk(c)
    ensures CanvasOk(r) && OnlyFlagSet(c.v, r.v)
    decreases cols
  {
    if cols == 0 then c
    else DrawPixel(DrawRow(c, mem, base, x, y, row, cols - 1), mem, base, x, y, row, cols - 1)
  }

  /** The first `rows` rows of the sprite at `memory[base..]`, each 8 pixels wide. */
  function DrawSprite(c: Canvas, mem: seq<Byte>, base: nat, x: Nibble, y: Nibble, rows: nat): (r: Canvas)
    requires CanvasOk(c)
    ensures CanvasOk(r)
    decreases rows
  {
    if rows == 0 then c
    else DrawRow(DrawSprite(c, mem, base, x, y, rows - 1), mem, base, x, y, rows - 1, 8)
  }

  /** A whole sprite, like each of its pixels, sets VF at most. */
  lemma {:induction false} DrawSpriteSetsOnlyFlag(c: Canvas, mem: seq<Byte>, base: nat, x: Nibble, y: Nibble, rows: nat)
    requires CanvasOk(c)
    ensures OnlyFlagSet(c.v, DrawSprite(c, mem, base, x, y, rows).v)
  {
    if rows > 0 {
      DrawSpriteSetsOnlyFlag(c, mem, base, x, y, rows - 1);
      assert c.v[Flag := 1][Flag := 1] == c.v[Flag := 1];
    }
  }

  /** FX55 after `count` iterations: `memory[base + k] = v[k]` for k < count. */
  function StoreRange(mem: seq<Byte>, base: nat, v: seq<Byte>, count: nat): (r: seq<Byte>)
    requires count <= |v|
    ensures |r| == |mem|
    decreases count
  {
    if count == 0 then mem
    else Write(StoreRange(mem, base, v, count - 1), base + count - 1, v[count - 1])
  }

  /** FX65 after `count` iterations: `v[k] = memory[base + k]` for k < count. */
  function LoadRange(v: seq<Byte>, mem: seq<Byte>, base: nat, count: nat): (r: seq<Byte>)
    requires count <= |v|
    ensures |r| == |v|
    decreases count
  {
    if count == 0 then v
    else LoadRange(v, mem, base, count - 1)[count - 1 := Read(mem, base + count - 1)]
  }

  /** FX33: hundreds, tens and ones of V[X] at I, I + 1 and I + 2. The source
      stores `V[X] / 100` and `V[X] % 100 / 10` into the byte array, which
      truncates them, so the digits are integer quotients. */
  function StoreDecimalDigits(mem: seq<Byte>, base: nat, val: Byte): (r: seq<Byte>)
    ensures |r| == |mem|
  {
    Write(Write(Write(mem, base, val / 100), base + 1, val % 100 / 10), base + 2, val % 10)
  }

  /** The 8XY_ handlers. */
  predicate ArithOp(instr: Instr)
  {
    instr.Move? || instr.OrReg? || instr.AndReg? || instr.XorReg? || instr.AddReg? ||
    instr.SubReg? || instr.ShiftRight? || instr.SubReverse? || instr.ShiftLeft?
  }

  /** The EX__ handlers. */
  predicate KeyOp(instr: Instr)
  {
    instr.SkipPressed? || instr.SkipNotPressed?
  }

  /** The FX__ handlers. */
  predicate MiscOp(instr: Instr)
  {
    instr.ReadDelay? || instr.WaitKey? || instr.SetDelay? || instr.SetSound? || instr.AddIndex? ||
    instr.FontGlyph? || instr.StoreDecimal? || instr.StoreRegs? || instr.LoadRegs?
  }

  /** The semantics of one decoded instruction on a machine whose `pc` has
      already been advanced past it; `rnd` is the random draw CXNN masks.
      The handlers are grouped as the dispatch tables of `perform` group them. */
  function Execute(m: Machine, instr: Instr, rnd: RandomDraw): (r: Outcome)
    requires Valid(m)
    ensures Valid(r.m)
  {
    if instr.NoHandler? then Outcome(m, Some(MissingHandler))
    else if ArithOp(instr) then ExecuteArith(m, instr)
    else if instr.Draw? then Ok(ExecuteDraw(m, instr.x, instr.y, instr.n))
    else if KeyOp(instr) then Ok(ExecuteKey(m, instr))
    else if MiscOp(instr) then Ok(ExecuteMisc(m, instr))
    else ExecuteFlow(m, instr, rnd)
  }

  /** The handlers of the outer table other than 0x8000, 0xD000, 0xE000 and 0xF000. */
  function ExecuteFlow(m: Machine, instr: Instr, rnd: RandomDraw): (r: Outcome)
    requires Valid(m)
    ensures Valid(r.m)
  {
    match instr
    case Sys(_) => Ok(m)
    case ClearScreen => Ok(m.(bitMap := Blank()))
    case Return =>
      if m.stack == [] then Outcome(m, Some(EmptyStack))
      else Ok(m.(pc := m.stack[|m.stack| - 1], stack := m.stack[..|m.stack| - 1]))
    case Jump(nnn) => Ok(m.(pc := nnn))
    case Call(nnn) => Ok(m.(stack := m.stack + [m.pc], pc := nnn))
    case SkipEqImm(x, nn) => Ok(SkipIf(m, m.v[x] == nn))
    case SkipNeImm(x, nn) => Ok(SkipIf(m, m.v[x] != nn))
    case SkipEqReg(x, y) => Ok(SkipIf(m, m.v[x] == m.v[y]))
    case LoadImm(x, nn) => Ok(m.(v := m.v[x := nn]))
    case AddImm(x, nn) => Ok(m.(v := m.v[x := ToUint8(m.v[x] + nn)]))
    case SkipNeReg(x, y) => Ok(SkipIf(m, m.v[x] != m.v[y]))
    case LoadIndex(nnn) => Ok(m.(i := nnn))
    case JumpOffset(nnn) => Ok(m.(pc := nnn + m.v[0]))
    case Random(x, nn) => Ok(m.(v := m.v[x := And(rnd, nn)]))
    case _ => Ok(m)
  }

  /** The 8XY_ instructions on a machine. */
  function ExecuteArith(m: Machine, instr: Instr): (r: Outcome)
    requires Valid(m)
    ensures Valid(r.m)
  {
    match Arith(m.v, instr)
    case None => Outcome(m, Some(WrongReceiver))
    case Some(v') => Ok(m.(v := v'))
  }

  /** DXYN: VF is cleared, then the N-row sprite at I is drawn. */
  function ExecuteDraw(m: Machine, x: Nibble, y: Nibble, n: Nibble): (r: Machine)
    requires Valid(m)
    ensures Valid(r)
    ensures r == m.(v := r.v, bitMap := r.bitMap)
    ensures r.v == m.v[Flag := 0] || r.v == m.v[Flag := 1]
  {
    var c0 := Canvas(m.v[Flag := 0], m.bitMap);
    var c := DrawSprite(c0, m.memory, m.i, x, y, n);
    DrawSpriteSetsOnlyFlag(c0, m.memory, m.i, x, y, n);
    assert c0.v[Flag := 1] == m.v[Flag := 1];
    m.(v := c.v, bitMap := c.bitMap)
  }

  /** The EX__ table: skip on the state of the key whose code is in V[X]. */
  function ExecuteKey(m: Machine, instr: Instr): (r: Machine)
    requires Valid(m)
    ensures Valid(r)
  {
    match instr
    case SkipPressed(x) => SkipIf(m, Pressed(StandardMapping, m.keys.pressed, m.v[x]))
    case SkipNotPressed(x) => SkipIf(m, !Pressed(StandardMapping, m.keys.pressed, m.v[x]))
    case _ => m
  }

  /** The FX__ table. */
  function ExecuteMisc(m: Machine, instr: Instr): (r: Machine)
    requires Valid(m)
    ensures Valid(r)
  {
    match instr
    case ReadDelay(x) => m.(v := m.v[x := m.delayTimer])
    case WaitKey(x) => m.(paused := true, keys := m.keys.(pending := Some(x as nat)))
    case SetDelay(x) => m.(delayTimer := m.v[x])
    case SetSound(x) => m.(soundTimer := m.v[x])
    case AddIndex(x) => m.(i := m.i + m.v[x])
    case FontGlyph(x) => m.(i := m.v[x] as int * 5)
    case StoreDecimal(x) => m.(memory := StoreDecimalDigits(m.memory, m.i, m.v[x]))
    case StoreRegs(x) => m.(memory := StoreRange(m.memory, m.i, m.v, x + 1))
    case LoadRegs(x) => m.(v := LoadRange(m.v, m.memory, m.i, x + 1))
    case _ => m
  }

  /** `perform(opcode)`: advance `pc` by 2, then run the handler. */
  function Perform(m: Machine, op: Word, rnd: RandomDraw): (r: Outcome)
    requires Valid(m)
    ensures Valid(r.m)
  {
    Execute(m.(pc := m.pc + 2), Decode(op), rnd)
  }

  /** The batch loop of `loop` after the iterations that drew `rands`:
      each iteration fetches and performs one instruction unless the machine
      is paused; a fault ends the batch. `executed` counts the instructions
      performed. */
  datatype RunOutcome = RunOutcome(m: Machine, fault: Option<Fault>, executed: nat)

  /** One iteration of the batch loop, after the iterations summed up in `before`. */
  function Step(before: RunOutcome, rnd: RandomDraw): (r: RunOutcome)
    requires Valid(before.m)
    ensures Valid(r.m)
    ensures before.fault.Some? || before.m.paused ==> r == before
    ensures r.executed <= before.executed + 1
  {
    if before.fault.Some? || before.m.paused then before
    else
      var o := Perform(before.m, Fetch(before.m), rnd);
      RunOutcome(o.m, o.fault, before.executed + 1)
  }

  function Run(m: Machine, rands: seq<RandomDraw>): (r: RunOutcome)
    requires Valid(m)
    ensures Valid(r.m)
    decreases |rands|
  {
    if rands == [] then RunOutcome(m, None, 0)
    else Step(Run(m, rands[..|rands| - 1]), rands[|rands| - 1])
  }

  /** `updateTimers`: both timers count down by one and stop at 0. */
  function UpdateTimers(m: Machine): (r: Machine)
    ensures r == m.(delayTimer := r.delayTimer, soundTimer := r.soundTimer)
    ensures r.delayTimer <= m.delayTimer <= r.delayTimer + 1 && (r.delayTimer == m.delayTimer <==> m.delayTimer == 0)
    ensures r.soundTimer <= m.soundTimer <= r.soundTimer + 1 && (r.soundTimer == m.soundTimer <==> m.soundTimer == 0)
  {
    m.(delayTimer := if m.delayTimer > 0 then m.delayTimer - 1 else 0,
       soundTimer := if m.soundTimer > 0 then m.soundTimer - 1 else 0)
  }

  /** What one `loop` call ends in: either it ran to the end, updated the
      timers if not paused and asked the speaker to play (`tone`) or stop,
      or an instruction faulted and the rest of `loop` did not run. */
  datatype TickOutcome = Ticked(m: Machine, tone: bool) | Halted(m: Machine, fault: Fault)

  /** `loop()` with `|rands|` as its `cycle`. */
  function Tick(m: Machine, rands: seq<RandomDraw>): (r: TickOutcome)
    requires Valid(m)
    ensures Valid(r.m)
  {
    var run := Run(m, rands);
    if run.fault.Some? then Halted(run.m, run.fault.value)
    else
      var after := if run.m.paused then run.m else UpdateTimers(run.m);
      Ticked(after, after.soundTimer > 0)
  }

  /** `loadFonts`: the glyphs overwrite the start of memory. */
  function WithFonts(mem: seq<Byte>): (r: seq<Byte>)
    requires |mem| >= |Fonts|
    ensures |r| == |mem|
    ensures r[..|Fonts|] == Fonts && r[|Fonts|..] == mem[|Fonts|..]
  {
    Fonts + mem[|Fonts|..]
  }

  /** `loadProgram`: the program's bytes from `ProgramStart` on, without any
      length check; bytes that fall past the end of memory are dropped. */
  function WithProgram(mem: seq<Byte>, program: seq<Byte>): (r: seq<Byte>)
    ensures |r| == |mem|
  {
    seq(|mem|, a requires 0 <= a < |mem| =>
      if ProgramStart <= a < ProgramStart + |program| then program[a - ProgramStart] else mem[a])
  }

  /** All-zero memory and registers, as `new Uint8Array(n)` creates them. */
  function Zeros(n: nat): (r: seq<Byte>)
    ensures |r| == n
  {
    seq(n, _ => 0)
  }

  /** A freshly constructed CPU: fonts are not loaded until `reset`. */
  function Initial(): (m: Machine)
    ensures Valid(m)
  {
    Machine(ProgramStart, Zeros(Registers), 0, Zeros(MemorySize), [], 0, 0, false, Blank(), KeyState(map[], None))
  }

  /** `reset`: everything back to zero, fonts loaded, the screen and the key
      dictionary cleared; the keyboard's pending hook is not touched. */
  function Reset(m: Machine): (r: Machine)
    ensures Valid(m) ==> Valid(r)
    ensures forall a :: 0 <= a < |r.memory| && a >= |Fonts| ==> r.memory[a] == 0
    ensures forall k :: 0 <= k < |r.v| ==> r.v[k] == 0
    ensures forall value :: !Pressed(StandardMapping, r.keys.pressed, value)
    ensures r.keys.pending == m.keys.pending && !r.paused
  {
    Machine(ProgramStart, Zeros(Registers), 0, WithFonts(Zeros(MemorySize)), [], 0, 0, false, Blank(), Cleared(m.keys))
  }

  /** The host's `keyDown` on the CPU's keyboard: the key state changes as
      `keyDown` says, and a delivered code runs the hook FX0A installed,
      which stores the code in the captured register and resumes execution. */
  function PressKey(m: Machine, key: string): (r: Machine)
    requires Valid(m)
    ensures Valid(r)
  {
    var res := AfterKeyDown(StandardMapping, m.keys, key);
    match res.delivered
    case None => m.(keys := res.state)
    case Some(d) => m.(keys := res.state, v := m.v[d.target := ToUint8(d.code)], paused := false)
  }
}
