/** The CPU object of src/cpu.ts: registers and memory in byte arrays,
    the remaining fields updated in place, and one method per operation.
    Each method is proved to leave the object in the state that module
    Semantics computes for it: the dispatch methods and the handler of each
    opcode against `Execute` and its per-table cases, the lifecycle methods
    against the functions of the same name. The properties of the
    interpreter are proved about those functions. */
module Emulator {
  import opened Bits
  import opened Display
  import opened Input
  import opened Isa
  import opened Semantics
  import opened Properties

  /** What `loop` hands to the outside world when it returns: whether the
      speaker is told to play (true) or to stop, or the fault that ended it. */
  datatype TickReport = Finished(tone: bool) | Aborted(fault: Fault)

  class CPU {
    var pc: nat
    var stack: seq<nat>
    const screen: Screen
    const input: Keyboard
    var v: array<Byte>
    var memory: array<Byte>
    var i: nat
    var delayTimer: Byte
    var soundTimer: Byte
    var paused: bool
    /** Instructions per `loop` call. */
    var cycle: nat

    ghost predicate Valid()
      reads this, screen, input
    {
      v.Length == Registers && memory.Length == MemorySize && v != memory &&
      screen.Valid() && input.Valid() && input.mapping == StandardMapping &&
      (input.pending.Some? ==> input.pending.value < Registers)
    }

    /** The abstract value of the CPU and the two objects it owns. */
    ghost function State(): (m: Machine)
      reads this, v, memory, screen, input
      ensures Valid() ==> Semantics.Valid(m)
    {
      Machine(pc, v[..], i, memory[..], stack, delayTimer, soundTimer, paused, screen.bitMap, input.State())
    }

    constructor ()
      ensures Valid() && State() == Initial() && cycle == 10
      ensures fresh(v) && fresh(memory) && fresh(screen) && fresh(input)
    {
      pc := ProgramStart;
      stack := [];
      screen := new Screen();
      input := new Keyboard.Standard();
      v := new Byte[Registers](_ => 0);
      memory := new Byte[MemorySize](_ => 0);
      i := 0;
      delayTimer := 0;
      soundTimer := 0;
      paused := false;
      cycle := 10;
      new;
      assert v[..] == Zeros(Registers);
      assert memory[..] == Zeros(MemorySize);
    }

    method Reset()
      requires Valid()
      modifies this, screen, input
      ensures Valid() && fresh(v) && fresh(memory) && cycle == old(cycle)
      ensures State() == Semantics.Reset(old(State()))
    {
      pc := ProgramStart;
      stack := [];
      v := new Byte[Registers](_ => 0);
      i := 0;
      memory := new Byte[MemorySize](_ => 0);
      delayTimer := 0;
      soundTimer := 0;
      screen.Clear();
      input.Clear();
      assert memory[..] == Zeros(MemorySize);
      LoadFonts();
      paused := false;
      assert v[..] == Zeros(Registers);
      assert input.State() == Cleared(old(input.State()));
    }

    method LoadFonts()
      requires memory.Length == MemorySize
      modifies memory
      ensures memory[..] == WithFonts(old(memory[..]))
    {
      var fonts := Fonts;
      for k := 0 to |fonts|
        invariant forall a :: 0 <= a < k ==> memory[a] == fonts[a]
        invariant forall a :: k <= a < memory.Length ==> memory[a] == old(memory[a])
      {
        memory[k] := fonts[k];
      }
      assert memory[..] == WithFonts(old(memory[..]));
    }

    method LoadProgram(program: seq<Byte>)
      modifies memory
      ensures memory[..] == WithProgram(old(memory[..]), program)
    {
      for k := 0 to |program|
        invariant forall a :: 0 <= a < memory.Length ==>
          memory[a] == if ProgramStart <= a < ProgramStart + k then program[a - ProgramStart] else old(memory[a])
      {
        if ProgramStart + k < memory.Length {
          memory[ProgramStart + k] := program[k];
        }
      }
      assert memory[..] == WithProgram(old(memory[..]), program);
    }

    /** `loop`: up to `cycle` instructions, then the timers unless paused,
        then the speaker. `rands[k]` is the random draw of iteration k. */
    method Loop(rands: seq<RandomDraw>) returns (report: TickReport)
      requires Valid() && |rands| == cycle
      modifies this, v, memory, screen, input
      ensures Valid() && v == old(v) && memory == old(memory) && cycle == old(cycle)
      ensures Tick(old(State()), rands) ==
        match report
        case Finished(tone) => Ticked(State(), tone)
        case Aborted(fault) => Halted(State(), fault)
    {
      var fault := RunBatch(rands);
      if fault.Some? {
        report := Aborted(fault.value);
        return;
      }
      if !paused {
        UpdateTimers();
      }
      var tone := PlaySound();
      report := Finished(tone);
    }

    /** The `for` loop of `loop`; an instruction that throws ends it. */
    method RunBatch(rands: seq<RandomDraw>) returns (fault: Option<Fault>)
      requires Valid() && |rands| == cycle
      modifies this, v, memory, screen, input
      ensures Valid() && v == old(v) && memory == old(memory) && cycle == old(cycle)
      ensures Run(old(State()), rands).m == State() && Run(old(State()), rands).fault == fault
    {
      ghost var start := State();
      ghost var executed := 0;
      fault := None;
      var k := 0;
      while k < cycle && fault.None?
        invariant 0 <= k <= cycle
        invariant Valid() && v == old(v) && memory == old(memory) && cycle == old(cycle)
        invariant Run(start, rands[..k]) == RunOutcome(State(), fault, executed)
      {
        RunPrefix(start, rands, k);
        fault, executed := Iterate(rands[k], executed);
        k := k + 1;
      }
      if k < cycle {
        RunSticks(start, rands[..k], rands[k..]);
        assert rands[..k] + rands[k..] == rands;
      } else {
        assert rands[..k] == rands;
      }
    }

    /** One iteration of the batch loop: nothing while paused, otherwise the
        next instruction. */
    method Iterate(rnd: RandomDraw, ghost executed: nat) returns (fault: Option<Fault>, ghost count: nat)
      requires Valid()
      modifies this, v, memory, screen, input
      ensures Valid() && v == old(v) && memory == old(memory) && cycle == old(cycle)
      ensures Step(RunOutcome(old(State()), None, executed), rnd) == RunOutcome(State(), fault, count)
    {
      fault, count := None, executed;
      if !paused {
        fault := FetchAndPerform(rnd);
        count := executed + 1;
      }
    }

    /** The body of the batch loop: the opcode is the byte at `pc` shifted
        left by 8, or-ed with the byte after it. */
    method FetchAndPerform(rnd: RandomDraw) returns (fault: Option<Fault>)
      requires Valid()
      modifies this, v, memory, screen, input
      ensures Valid() && v == old(v) && memory == old(memory) && cycle == old(cycle)
      ensures Outcome(State(), fault) == Semantics.Execute(old(State()).(pc := old(pc) + 2), Decode(Fetch(old(State()))), rnd)
    {
      var hi: int := if pc < memory.Length then memory[pc] else 0;
      var lo: int := if pc + 1 < memory.Length then memory[pc + 1] else 0;
      var opcode := hi * 0x100 + lo;
      assert opcode == Fetch(State());
      fault := Perform(opcode, rnd);
    }

    /** `perform(opcode)`. */
    method Perform(opcode: Word, rnd: RandomDraw) returns (fault: Option<Fault>)
      requires Valid()
      modifies this, v, memory, screen, input
      ensures Valid() && v == old(v) && memory == old(memory) && cycle == old(cycle)
      ensures Outcome(State(), fault) == Semantics.Execute(old(State()).(pc := old(pc) + 2), Decode(opcode), rnd)
    {
      pc := pc + 2;
      assert State() == old(State()).(pc := old(pc) + 2);
      fault := Execute(Decode(opcode), rnd);
    }

    /** The outer dispatch table: the handler of a decoded instruction. */
    method Execute(instr: Instr, rnd: RandomDraw) returns (fault: Option<Fault>)
      requires Valid()
      modifies this, v, memory, screen, input
      ensures Valid() && v == old(v) && memory == old(memory) && cycle == old(cycle)
      ensures Outcome(State(), fault) == Semantics.Execute(old(State()), instr, rnd)
    {
      if instr.NoHandler? {
        fault := Some(MissingHandler);
      } else if ArithOp(instr) {
        fault := ExecuteArith(instr);
      } else if instr.Draw? {
        Draw(instr.x, instr.y, instr.n);
        fault := None;
      } else if KeyOp(instr) {
        ExecuteKey(instr);
        fault := None;
      } else if MiscOp(instr) {
        ExecuteMisc(instr);
        fault := None;
      } else {
        fault := ExecuteFlow(instr, rnd);
      }
    }

    /** The handlers of the outer table other than 0x8000, 0xD000, 0xE000
        and 0xF000. */
    method ExecuteFlow(instr: Instr, rnd: RandomDraw) returns (fault: Option<Fault>)
      requires Valid() && !instr.NoHandler? && !ArithOp(instr) && !instr.Draw? && !KeyOp(instr) && !MiscOp(instr)
      modifies this, v, screen
      ensures Valid() && v == old(v) && memory == old(memory) && cycle == old(cycle)
      ensures Outcome(State(), fault) == Semantics.ExecuteFlow(old(State()), instr, rnd)
    {
      fault := None;
      match instr
      case Sys(_) =>
      case ClearScreen => screen.Clear();
      case Return => fault := Return();
      case Jump(nnn) => Jump(nnn);
      case Call(nnn) => Call(nnn);
      case SkipEqImm(x, nn) => SkipEqImm(x, nn);
      case SkipNeImm(x, nn) => SkipNeImm(x, nn);
      case SkipEqReg(x, y) => SkipEqReg(x, y);
      case LoadImm(x, nn) => LoadImm(x, nn);
      case AddImm(x, nn) => AddImm(x, nn);
      case SkipNeReg(x, y) => SkipNeReg(x, y);
      case LoadIndex(nnn) => LoadIndex(nnn);
      case JumpOffset(nnn) => JumpOffset(nnn);
      case Random(x, nn) => Random(x, nn, rnd);
    }

    /** 00EE: pop the return address; with nothing to pop, fault. */
    method Return() returns (fault: Option<Fault>)
      requires Valid()
      modifies this
      ensures Valid() && v == old(v) && memory == old(memory) && cycle == old(cycle)
      ensures Outcome(State(), fault) == Semantics.ExecuteFlow(old(State()), Isa.Return, 0)
    {
      fault := None;
      if stack == [] {
        fault := Some(EmptyStack);
      } else {
        pc := stack[|stack| - 1];
        stack := stack[..|stack| - 1];
      }
    }

    /** 1NNN. */
    method Jump(nnn: Addr)
      requires Valid()
      modifies this
      ensures Valid() && v == old(v) && memory == old(memory) && cycle == old(cycle)
      ensures Ok(State()) == Semantics.ExecuteFlow(old(State()), Isa.Jump(nnn), 0)
    {
      pc := nnn;
    }

    /** 2NNN: push the return address, then jump. */
    method Call(nnn: Addr)
      requires Valid()
      modifies this
      ensures Valid() && v == old(v) && memory == old(memory) && cycle == old(cycle)
      ensures Ok(State()) == Semantics.ExecuteFlow(old(State()), Isa.Call(nnn), 0)
    {
      stack := stack + [pc];
      pc := nnn;
    }

    /** 3XNN. */
    method SkipEqImm(x: Nibble, nn: Byte)
      requires Valid()
      modifies this
      ensures Valid() && v == old(v) && memory == old(memory) && cycle == old(cycle)
      ensures Ok(State()) == Semantics.ExecuteFlow(old(State()), Isa.SkipEqImm(x, nn), 0)
    {
      if v[x] == nn {
        pc := pc + 2;
      }
    }

    /** 4XNN. */
    method SkipNeImm(x: Nibble, nn: Byte)
      requires Valid()
      modifies this
      ensures Valid() && v == old(v) && memory == old(memory) && cycle == old(cycle)
      ensures Ok(State()) == Semantics.ExecuteFlow(old(State()), Isa.SkipNeImm(x, nn), 0)
    {
      if v[x] != nn {
        pc := pc + 2;
      }
    }

    /** 5XY0. */
    method SkipEqReg(x: Nibble, y: Nibble)
      requires Valid()
      modifies this
      ensures Valid() && v == old(v) && memory == old(memory) && cycle == old(cycle)
      ensures Ok(State()) == Semantics.ExecuteFlow(old(State()), Isa.SkipEqReg(x, y), 0)
    {
      if v[x] == v[y] {
        pc := pc + 2;
      }
    }

    /** 6XNN. */
    method LoadImm(x: Nibble, nn: Byte)
      requires Valid()
      modifies v
      ensures Valid() && Ok(State()) == Semantics.ExecuteFlow(old(State()), Isa.LoadImm(x, nn), 0)
    {
      v[x] := nn;
    }

    /** 7XNN: the store wraps modulo 256 and VF is left alone. */
    method AddImm(x: Nibble, nn: Byte)
      requires Valid()
      modifies v
      ensures Valid() && Ok(State()) == Semantics.ExecuteFlow(old(State()), Isa.AddImm(x, nn), 0)
    {
      v[x] := ToUint8(v[x] as int + nn);
    }

    /** 9XY0. */
    method SkipNeReg(x: Nibble, y: Nibble)
      requires Valid()
      modifies this
      ensures Valid() && v == old(v) && memory == old(memory) && cycle == old(cycle)
      ensures Ok(State()) == Semantics.ExecuteFlow(old(State()), Isa.SkipNeReg(x, y), 0)
    {
      if v[x] != v[y] {
        pc := pc + 2;
      }
    }

    /** ANNN. */
    method LoadIndex(nnn: Addr)
      requires Valid()
      modifies this
      ensures Valid() && v == old(v) && memory == old(memory) && cycle == old(cycle)
      ensures Ok(State()) == Semantics.ExecuteFlow(old(State()), Isa.LoadIndex(nnn), 0)
    {
      i := nnn;
    }

    /** BNNN. */
    method JumpOffset(nnn: Addr)
      requires Valid()
      modifies this
      ensures Valid() && v == old(v) && memory == old(memory) && cycle == old(cycle)
      ensures Ok(State()) == Semantics.ExecuteFlow(old(State()), Isa.JumpOffset(nnn), 0)
    {
      pc := nnn + v[0];
    }

    /** CXNN, with `rnd` in place of the draw from `Math.random`. */
    method Random(x: Nibble, nn: Byte, rnd: RandomDraw)
      requires Valid()
      modifies v
      ensures Valid() && Ok(State()) == Semantics.ExecuteFlow(old(State()), Isa.Random(x, nn), rnd)
    {
      v[x] := And(rnd, nn);
    }

    /** The 0x8000 table. */
    method ExecuteArith(instr: Instr) returns (fault: Option<Fault>)
      requires Valid() && ArithOp(instr)
      modifies v
      ensures Valid() && Outcome(State(), fault) == Semantics.ExecuteArith(old(State()), instr)
    {
      fault := None;
      if instr.Move? || instr.OrReg? || instr.AndReg? || instr.XorReg? {
        Logic(instr);
      } else if instr.ShiftRight? || instr.ShiftLeft? {
        Shift(instr);
      } else if instr.SubReverse? && v[instr.x] > v[instr.y] {
        fault := Some(WrongReceiver);
      } else {
        FlagArith(instr);
      }
    }

    /** 8XY0 to 8XY3: V[X] only. */
    method Logic(instr: Instr)
      requires Valid() && (instr.Move? || instr.OrReg? || instr.AndReg? || instr.XorReg?)
      modifies v
      ensures Arith(old(v[..]), instr) == Some(v[..])
    {
      match instr
      case Move(x, y) => v[x] := v[y];
      case OrReg(x, y) => v[x] := Or(v[x], v[y]);
      case AndReg(x, y) => v[x] := And(v[x], v[y]);
      case XorReg(x, y) => v[x] := Xor(v[x], v[y]);
    }

    /** 8XY4, 8XY5 and 8XY7: VF first, then V[X]. 8XY4 stores the sum taken
        before the flag write; 8XY5 and 8XY7 subtract the registers as they
        are after it. */
    method FlagArith(instr: Instr)
      requires Valid()
      requires instr.AddReg? || instr.SubReg? || (instr.SubReverse? && v[instr.x] <= v[instr.y])
      modifies v
      ensures Arith(old(v[..]), instr) == Some(v[..])
    {
      match instr
      case AddReg(x, y) =>
        var sum := v[x] as int + v[y] as int;
        v[Flag] := if sum > 0xFF then 1 else 0;
        v[x] := ToUint8(sum);
      case SubReg(x, y) =>
        v[Flag] := if v[x] > v[y] then 1 else 0;
        v[x] := ToUint8(v[x] as int - v[y] as int);
      case SubReverse(x, y) =>
        v[Flag] := 1;
        v[x] := ToUint8(v[y] as int - v[x] as int);
    }

    /** 8XY6 and 8XYE: VF takes the bit shifted out, then V[X] is shifted. */
    method Shift(instr: Instr)
      requires Valid() && (instr.ShiftRight? || instr.ShiftLeft?)
      modifies v
      ensures Arith(old(v[..]), instr) == Some(v[..])
    {
      match instr
      case ShiftRight(x) =>
        v[Flag] := And(v[x], 0x01);
        v[x] := v[x] / 2;
      case ShiftLeft(x) =>
        v[Flag] := And(v[x], 0x80);
        v[x] := ToUint8(v[x] as int * 2);
    }

    /** DXYN: VF := 0, then for each sprite row and each of its 8 bits from
        the left, `setPixel` where the bit is set; a collision sets VF. */
    method Draw(x: Nibble, y: Nibble, n: Nibble)
      requires Valid()
      modifies v, screen
      ensures Valid() && State() == Semantics.ExecuteDraw(old(State()), x, y, n)
    {
      v[Flag] := 0;
      assert v[..] == old(v[..])[Flag := 0];
      DrawRows(x, y, n);
    }

    /** The row loop of DXYN. */
    method DrawRows(x: Nibble, y: Nibble, n: Nibble)
      requires Valid()
      modifies v, screen
      ensures Valid()
      ensures Canvas(v[..], screen.bitMap) == DrawSprite(Canvas(old(v[..]), old(screen.bitMap)), memory[..], i, x, y, n)
    {
      ghost var start := Canvas(v[..], screen.bitMap);
      for row := 0 to n
        invariant Valid()
        invariant Canvas(v[..], screen.bitMap) == DrawSprite(start, memory[..], i, x, y, row)
      {
        DrawSpriteRow(x, y, row);
      }
    }

    /** One row of the DXYN loop: the byte at I + row, shifted left once per
        column, is tested at bit 7. */
    method DrawSpriteRow(x: Nibble, y: Nibble, row: nat)
      requires Valid()
      modifies v, screen
      ensures Valid()
      ensures Canvas(v[..], screen.bitMap) ==
        DrawRow(Canvas(old(v[..]), old(screen.bitMap)), memory[..], i, x, y, row, 8)
    {
      var sprite: nat := if i + row < memory.Length then memory[i + row] else 0;
      ghost var rowStart := Canvas(v[..], screen.bitMap);
      for col := 0 to 8
        invariant Valid()
        invariant sprite == Read(memory[..], i + row) * Pow2(col)
        invariant Canvas(v[..], screen.bitMap) == DrawRow(rowStart, memory[..], i, x, y, row, col)
      {
        ShiftOnceMore(Read(memory[..], i + row), col);
        if Bit7(sprite) {
          PlotSpritePixel(x, y, row, col);
        }
        sprite := sprite * 2;
      }
    }

    /** The body of the DXYN inner loop for a set bit. */
    method PlotSpritePixel(x: Nibble, y: Nibble, row: nat, col: nat)
      requires Valid() && Bit7(Read(memory[..], i + row) * Pow2(col))
      modifies v, screen
      ensures Valid()
      ensures Canvas(v[..], screen.bitMap) ==
        DrawPixel(Canvas(old(v[..]), old(screen.bitMap)), memory[..], i, x, y, row, col)
    {
      var collided := screen.SetPixel(v[x] + col, v[y] + row);
      if collided {
        v[Flag] := 1;
      }
    }

    /** The 0xE000 table. */
    method ExecuteKey(instr: Instr)
      requires Valid() && KeyOp(instr)
      modifies this
      ensures Valid() && v == old(v) && memory == old(memory) && cycle == old(cycle)
      ensures State() == Semantics.ExecuteKey(old(State()), instr)
    {
      match instr
      case SkipPressed(x) => SkipPressed(x);
      case SkipNotPressed(x) => SkipNotPressed(x);
    }

    /** EX9E: skip if the key whose code is V[X] is held. */
    method SkipPressed(x: Nibble)
      requires Valid()
      modifies this
      ensures Valid() && v == old(v) && memory == old(memory) && cycle == old(cycle)
      ensures State() == Semantics.ExecuteKey(old(State()), Isa.SkipPressed(x))
    {
      var pressed := input.IsKeyPressed(v[x]);
      if pressed {
        pc := pc + 2;
      }
    }

    /** EXA1: skip if the key whose code is V[X] is not held. */
    method SkipNotPressed(x: Nibble)
      requires Valid()
      modifies this
      ensures Valid() && v == old(v) && memory == old(memory) && cycle == old(cycle)
      ensures State() == Semantics.ExecuteKey(old(State()), Isa.SkipNotPressed(x))
    {
      var pressed := input.IsKeyPressed(v[x]);
      if !pressed {
        pc := pc + 2;
      }
    }

    /** The 0xF000 table: one handler per entry. */
    method ExecuteMisc(instr: Instr)
      requires Valid() && MiscOp(instr)
      modifies this, v, memory, input
      ensures Valid() && v == old(v) && memory == old(memory) && cycle == old(cycle)
      ensures State() == Semantics.ExecuteMisc(old(State()), instr)
    {
      match instr
      case ReadDelay(x) => ReadDelay(x);
      case WaitKey(x) => WaitKey(x);
      case SetDelay(x) => SetDelay(x);
      case SetSound(x) => SetSound(x);
      case AddIndex(x) => AddIndex(x);
      case FontGlyph(x) => FontGlyph(x);
      case StoreDecimal(x) => StoreDecimal(x);
      case StoreRegs(x) => StoreRegs(x);
      case LoadRegs(x) => LoadRegs(x);
    }

    /** FX07. */
    method ReadDelay(x: Nibble)
      requires Valid()
      modifies v
      ensures Valid() && State() == Semantics.ExecuteMisc(old(State()), Isa.ReadDelay(x))
    {
      v[x] := delayTimer;
    }

    /** FX0A: pause, and have the keyboard's next mapped key land in V[X]. */
    method WaitKey(x: Nibble)
      requires Valid()
      modifies this, input
      ensures v == old(v) && memory == old(memory) && cycle == old(cycle)
      ensures Valid() && State() == Semantics.ExecuteMisc(old(State()), Isa.WaitKey(x))
    {
      paused := true;
      input.pending := Some(x as nat);
    }

    /** FX15. */
    method SetDelay(x: Nibble)
      requires Valid()
      modifies this
      ensures v == old(v) && memory == old(memory) && cycle == old(cycle)
      ensures Valid() && State() == Semantics.ExecuteMisc(old(State()), Isa.SetDelay(x))
    {
      delayTimer := v[x];
    }

    /** FX18. */
    method SetSound(x: Nibble)
      requires Valid()
      modifies this
      ensures v == old(v) && memory == old(memory) && cycle == old(cycle)
      ensures Valid() && State() == Semantics.ExecuteMisc(old(State()), Isa.SetSound(x))
    {
      soundTimer := v[x];
    }

    /** FX1E: I grows without bound. */
    method AddIndex(x: Nibble)
      requires Valid()
      modifies this
      ensures v == old(v) && memory == old(memory) && cycle == old(cycle)
      ensures Valid() && State() == Semantics.ExecuteMisc(old(State()), Isa.AddIndex(x))
    {
      i := i + v[x];
    }

    /** FX29: the glyph of digit V[X] is 5 bytes long. */
    method FontGlyph(x: Nibble)
      requires Valid()
      modifies this
      ensures v == old(v) && memory == old(memory) && cycle == old(cycle)
      ensures Valid() && State() == Semantics.ExecuteMisc(old(State()), Isa.FontGlyph(x))
    {
      i := v[x] as int * 5;
    }

    /** FX33: bytes past the end of memory are dropped. */
    method StoreDecimal(x: Nibble)
      requires Valid()
      modifies memory
      ensures Valid() && State() == Semantics.ExecuteMisc(old(State()), Isa.StoreDecimal(x))
    {
      if i < memory.Length { memory[i] := v[x] / 100; }
      if i + 1 < memory.Length { memory[i + 1] := v[x] % 100 / 10; }
      if i + 2 < memory.Length { memory[i + 2] := v[x] % 10; }
    }

    /** FX55: `memory[I + k] = v[k]` for k from 0 to X. */
    method StoreRegs(x: Nibble)
      requires Valid()
      modifies memory
      ensures Valid() && State() == Semantics.ExecuteMisc(old(State()), Isa.StoreRegs(x))
    {
      for k := 0 to x + 1
        invariant memory[..] == StoreRange(old(memory[..]), i, v[..], k)
      {
        if i + k < memory.Length {
          memory[i + k] := v[k];
        }
      }
    }

    /** FX65: `v[k] = memory[I + k]` for k from 0 to X. */
    method LoadRegs(x: Nibble)
      requires Valid()
      modifies v
      ensures Valid() && State() == Semantics.ExecuteMisc(old(State()), Isa.LoadRegs(x))
    {
      for k := 0 to x + 1
        invariant v[..] == LoadRange(old(v[..]), memory[..], i, k)
      {
        v[k] := if i + k < memory.Length then memory[i + k] else 0;
      }
    }

    method UpdateTimers()
      modifies this
      ensures State() == Semantics.UpdateTimers(old(State()))
      ensures v == old(v) && memory == old(memory) && cycle == old(cycle)
    {
      if delayTimer > 0 { delayTimer := delayTimer - 1; }
      if soundTimer > 0 { soundTimer := soundTimer - 1; }
    }

    /** `playSound`: the speaker plays iff the sound timer is running. */
    method PlaySound() returns (tone: bool)
      ensures tone <==> soundTimer > 0
    {
      tone := soundTimer > 0;
    }

    /** The host's `keyDown` on the CPU's keyboard, followed by the hook that
        FX0A installed if the key is mapped: V[X] := code and resume. */
    method KeyDown(key: string)
      requires Valid()
      modifies this, v, input
      ensures Valid() && v == old(v) && memory == old(memory) && cycle == old(cycle)
      ensures State() == PressKey(old(State()), key)
    {
      var delivered := input.KeyDown(key);
      match delivered
      case None =>
      case Some(d) =>
        v[d.target] := ToUint8(d.code);
        paused := false;
    }
  }
}
