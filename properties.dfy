/** Properties of the interpreter of src/cpu.ts, stated on the functions of
    module Semantics: control flow, the ALU and its flag register, the
    memory instructions, the batch loop, the timers, the key wait and the
    loaders. */
module Properties {
  import opened Bits
  import opened Display
  import opened Input
  import opened Isa
  import opened Semantics

  // ---------------------------------------------------------------- control flow

  /** The instructions that move `pc` other than past themselves. */
  predicate Branches(instr: Instr)
  {
    instr.Return? || instr.Jump? || instr.Call? || instr.JumpOffset? ||
    instr.SkipEqImm? || instr.SkipNeImm? || instr.SkipEqReg? || instr.SkipNeReg? ||
    instr.SkipPressed? || instr.SkipNotPressed?
  }

  /** Every other instruction, faulting or not, leaves `pc` two bytes on. */
  lemma StraightLine(m: Machine, op: Word, rnd: RandomDraw)
    requires Valid(m) && !Branches(Decode(op))
    ensures Perform(m, op, rnd).m.pc == m.pc + 2
  {
  }

  /** The skip instructions. */
  predicate IsSkip(instr: Instr)
  {
    instr.SkipEqImm? || instr.SkipNeImm? || instr.SkipEqReg? || instr.SkipNeReg? ||
    instr.SkipPressed? || instr.SkipNotPressed?
  }

  /** What each skip tests, as the CHIP-8 instruction set describes it. */
  predicate SkipCondition(m: Machine, instr: Instr)
    requires |m.v| == Registers
  {
    match instr
    case SkipEqImm(x, nn) => m.v[x] == nn
    case SkipNeImm(x, nn) => m.v[x] != nn
    case SkipEqReg(x, y) => m.v[x] == m.v[y]
    case SkipNeReg(x, y) => m.v[x] != m.v[y]
    case SkipPressed(x) => Pressed(StandardMapping, m.keys.pressed, m.v[x])
    case SkipNotPressed(x) => !Pressed(StandardMapping, m.keys.pressed, m.v[x])
    case _ => false
  }

  /** A skip moves `pc` on by 4 when its condition holds and by 2 otherwise,
      and changes nothing else. */
  lemma Skips(m: Machine, op: Word, rnd: RandomDraw)
    requires Valid(m) && IsSkip(Decode(op))
    ensures Perform(m, op, rnd) == Ok(m.(pc := if SkipCondition(m, Decode(op)) then m.pc + 4 else m.pc + 2))
  {
  }

  /** 2NNN followed by 00EE at NNN returns to the instruction after the
      call, with the stack as it was. */
  lemma CallThenReturn(m: Machine, nnn: Addr, rnd: RandomDraw)
    requires Valid(m)
    ensures Perform(Perform(m, Encode(Call(nnn)), rnd).m, Encode(Return), rnd) == Ok(m.(pc := m.pc + 2))
  {
    DecodeEncode(Call(nnn));
    DecodeEncode(Return);
    var called := Perform(m, Encode(Call(nnn)), rnd).m;
    assert called.stack == m.stack + [m.pc + 2];
    assert (m.stack + [m.pc + 2])[..|m.stack|] == m.stack;
  }

  /** 00EE with an empty stack faults and keeps the machine as it was once
      `pc` had advanced. */
  lemma ReturnUnderflow(m: Machine, rnd: RandomDraw)
    requires Valid(m) && m.stack == []
    ensures Perform(m, 0x00EE, rnd) == Outcome(m.(pc := m.pc + 2), Some(EmptyStack))
  {
  }

  /** An opcode faults for want of a handler exactly when the 0x8000, 0xE000
      or 0xF000 table has no entry for it. */
  lemma MissingEntries(m: Machine, op: Word, rnd: RandomDraw)
    requires Valid(m)
    ensures Perform(m, op, rnd).fault == Some(MissingHandler) <==> Unhandled(op)
  {
  }

  // ---------------------------------------------------------------- ALU

  /** 7XNN adds modulo 256 into V[X], 7FNN included, and changes no other
      register: unlike 8XY4 it never writes a carry into VF. */
  lemma AddImmNoCarry(m: Machine, x: Nibble, nn: Byte, rnd: RandomDraw)
    requires Valid(m)
    ensures var r := Execute(m, AddImm(x, nn), rnd).m;
      (r.v[x] - m.v[x] - nn) % 0x100 == 0 &&
      forall j :: 0 <= j < Registers && j != x ==> r.v[j] == m.v[j]
  {
  }

  /** 8XY4 (X other than F): V[X] and VF together hold the full sum, with VF
      the carry; no other register changes. */
  lemma AddCarry(v: seq<Byte>, x: Nibble, y: Nibble)
    requires |v| == Registers && x != Flag
    ensures Arith(v, AddReg(x, y)).Some?
    ensures var r := Arith(v, AddReg(x, y)).value;
      r[x] as int + 0x100 * (r[Flag] as int) == v[x] as int + v[y] && (r[Flag] == 0 || r[Flag] == 1) &&
      forall j :: 0 <= j < Registers && j != x && j != Flag ==> r[j] == v[j]
  {
  }

  /** 8XY5 (X, Y other than F): V[X] + V[Y] is the old V[X] modulo 256, and
      VF is 1 iff V[X] was strictly greater than V[Y]. */
  lemma SubBorrow(v: seq<Byte>, x: Nibble, y: Nibble)
    requires |v| == Registers && x != Flag && y != Flag
    ensures Arith(v, SubReg(x, y)).Some?
    ensures var r := Arith(v, SubReg(x, y)).value;
      (r[x] as int + v[y] - v[x]) % 0x100 == 0 && (r[Flag] == 1 <==> v[x] > v[y]) && (r[Flag] == 0 || r[Flag] == 1) &&
      forall j :: 0 <= j < Registers && j != x && j != Flag ==> r[j] == v[j]
  {
  }

  /** 8XY4 with Y = F adds the old VF: the sum is taken before the flag is
      written. */
  lemma AddReadsOldFlag(v: seq<Byte>, x: Nibble)
    requires |v| == Registers && x != Flag
    ensures Arith(v, AddReg(x, Flag)).value[x] == ToUint8(v[x] as int + v[Flag] as int)
  {
  }

  /** 8XY5 with Y = F subtracts the flag the instruction has just written,
      not the old VF: the source writes VF before it reads V[Y]. */
  lemma SubReadsNewFlag(v: seq<Byte>, x: Nibble)
    requires |v| == Registers && x != Flag
    ensures Arith(v, SubReg(x, Flag)).value[x] == ToUint8(v[x] - if v[x] > v[Flag] then 1 else 0)
  {
  }

  /** 8XY7 faults exactly when V[X] > V[Y]; otherwise (X other than F) V[X]
      becomes V[Y] - V[X] without wrapping and VF becomes 1. */
  lemma SubReverseCases(v: seq<Byte>, x: Nibble, y: Nibble)
    requires |v| == Registers
    ensures Arith(v, SubReverse(x, y)).None? <==> v[x] > v[y]
    ensures x != Flag && y != Flag && v[x] <= v[y] ==>
      var r := Arith(v, SubReverse(x, y)).value;
      r[x] == v[y] - v[x] && r[Flag] == 1
  {
  }

  /** 8XY6 (X other than F): VF receives the bit shifted out on the right. */
  lemma ShiftRightBit(v: seq<Byte>, x: Nibble)
    requires |v| == Registers && x != Flag
    ensures var r := Arith(v, ShiftRight(x)).value;
      2 * (r[x] as int) + r[Flag] == v[x] && r[Flag] < 2
  {
    AndMasks(v[x]);
  }

  /** 8XYE (X other than F): VF receives bit 7 in place (0 or 128, not 0 or
      1), and V[X] doubles modulo 256. */
  lemma ShiftLeftBit(v: seq<Byte>, x: Nibble)
    requires |v| == Registers && x != Flag
    ensures var r := Arith(v, ShiftLeft(x)).value;
      r[x] as int + 2 * (r[Flag] as int) == 2 * (v[x] as int) && (r[Flag] == 0 || r[Flag] == 0x80)
  {
    AndMasks(v[x]);
  }

  // ---------------------------------------------------------------- memory

  /** FX33 (with room for three bytes at I): the three bytes are the decimal
      digits of V[X], most significant first; nothing else in memory changes. */
  lemma DecimalDigits(m: Machine, x: Nibble)
    requires Valid(m) && m.i + 2 < MemorySize
    ensures var mem := ExecuteMisc(m, StoreDecimal(x)).memory;
      100 * (mem[m.i] as int) + 10 * (mem[m.i + 1] as int) + mem[m.i + 2] == m.v[x] &&
      mem[m.i] <= 2 && mem[m.i + 1] <= 9 && mem[m.i + 2] <= 9 &&
      forall a :: 0 <= a < MemorySize && !(m.i <= a <= m.i + 2) ==> mem[a] == m.memory[a]
  {
  }

  /** FX55 after `count` iterations, cell by cell. */
  lemma {:induction false} StoreRangeCells(mem: seq<Byte>, base: nat, v: seq<Byte>, count: nat)
    requires count <= |v|
    ensures forall a :: 0 <= a < |mem| ==>
      StoreRange(mem, base, v, count)[a] == if base <= a < base + count then v[a - base] else mem[a]
    decreases count
  {
    if count > 0 {
      StoreRangeCells(mem, base, v, count - 1);
    }
  }

  /** FX65 after `count` iterations, register by register. */
  lemma {:induction false} LoadRangeCells(v: seq<Byte>, mem: seq<Byte>, base: nat, count: nat)
    requires count <= |v|
    ensures forall k :: 0 <= k < |v| ==>
      LoadRange(v, mem, base, count)[k] == if k < count then Read(mem, base + k) else v[k]
    decreases count
  {
    if count > 0 {
      LoadRangeCells(v, mem, base, count - 1);
    }
  }

  /** FX65 right after FX55 with the same X and I changes nothing, as long
      as I + X is inside memory. */
  lemma SaveRestore(m: Machine, x: Nibble)
    requires Valid(m) && m.i + x < MemorySize
    ensures ExecuteMisc(ExecuteMisc(m, StoreRegs(x)), LoadRegs(x)) == ExecuteMisc(m, StoreRegs(x))
  {
    var saved := ExecuteMisc(m, StoreRegs(x));
    StoreRangeCells(m.memory, m.i, m.v, x + 1);
    LoadRangeCells(m.v, saved.memory, m.i, x + 1);
    assert LoadRange(m.v, saved.memory, m.i, x + 1) == m.v;
  }

  /** Past the end of memory the round trip loses registers: with I = 4095,
      FX55 then FX65 with X = 1 turns V1 = 7 into 0, because the store to
      address 4096 is dropped and the load from it reads 0. */
  lemma SaveRestorePastEnd()
    ensures var m := Machine(ProgramStart, Zeros(Registers)[1 := 7], MemorySize - 1, Zeros(MemorySize), [],
                             0, 0, false, Blank(), KeyState(map[], None));
      m.v[1] == 7 && ExecuteMisc(ExecuteMisc(m, StoreRegs(1)), LoadRegs(1)).v[1] == 0
  {
    var m := Machine(ProgramStart, Zeros(Registers)[1 := 7], MemorySize - 1, Zeros(MemorySize), [],
                     0, 0, false, Blank(), KeyState(map[], None));
    var saved := ExecuteMisc(m, StoreRegs(1));
    LoadRangeCells(m.v, saved.memory, m.i, 2);
  }

  /** After `reset` the glyphs are at the start of memory and the rest is 0. */
  lemma ResetLoadsFonts(m: Machine)
    ensures Reset(m).memory[..|Fonts|] == Fonts
    ensures forall a :: |Fonts| <= a < MemorySize ==> Reset(m).memory[a] == 0
  {
  }

  /** FX29 with a hexadecimal digit in V[X] points I at that digit's glyph,
      once the fonts are loaded. */
  lemma GlyphAddress(m: Machine, x: Nibble)
    requires Valid(m) && m.memory[..|Fonts|] == Fonts && m.v[x] < 16
    ensures var r := ExecuteMisc(m, FontGlyph(x));
      r.i + 5 <= |Fonts| && r.memory[r.i..r.i + 5] == Fonts[5 * m.v[x]..5 * m.v[x] + 5]
  {
    var r := ExecuteMisc(m, FontGlyph(x));
    assert r.memory[r.i..r.i + 5] == m.memory[..|Fonts|][r.i..r.i + 5];
  }

  /** `loadProgram` of a program that fits puts it at `ProgramStart` and
      leaves the rest of memory alone. */
  lemma ProgramPlaced(mem: seq<Byte>, program: seq<Byte>)
    requires ProgramStart + |program| <= |mem|
    ensures WithProgram(mem, program)[ProgramStart..ProgramStart + |program|] == program
    ensures WithProgram(mem, program)[..ProgramStart] == mem[..ProgramStart]
    ensures WithProgram(mem, program)[ProgramStart + |program|..] == mem[ProgramStart + |program|..]
  {
  }

  /** A program too long for memory is cut off at the end of memory. */
  lemma ProgramTruncated(mem: seq<Byte>, program: seq<Byte>)
    requires ProgramStart <= |mem| < ProgramStart + |program|
    ensures WithProgram(mem, program)[ProgramStart..] == program[..|mem| - ProgramStart]
  {
  }

  // ---------------------------------------------------------------- the batch loop

  /** A batch performs at most one instruction per iteration, and exactly one
      per iteration when it ends neither paused nor faulted. */
  lemma {:induction false} RunExecuted(m: Machine, rands: seq<RandomDraw>)
    requires Valid(m)
    ensures Run(m, rands).executed <= |rands|
    ensures Run(m, rands).fault.None? && !Run(m, rands).m.paused ==> Run(m, rands).executed == |rands|
    decreases |rands|
  {
    if rands != [] {
      RunExecuted(m, rands[..|rands| - 1]);
      var before := Run(m, rands[..|rands| - 1]);
      if before.fault.Some? || before.m.paused {
        assert Run(m, rands) == before;
      }
    }
  }

  /** Iteration `k` of a batch extends the run of the first `k` draws. */
  lemma RunPrefix(m: Machine, rands: seq<RandomDraw>, k: nat)
    requires Valid(m) && k < |rands|
    ensures Run(m, rands[..k + 1]) == Step(Run(m, rands[..k]), rands[k])
  {
    assert rands[..k + 1][..k] == rands[..k];
  }

  /** A machine waiting for a key performs nothing. */
  lemma {:induction false} PausedIdle(m: Machine, rands: seq<RandomDraw>)
    requires Valid(m) && m.paused
    ensures Run(m, rands) == RunOutcome(m, None, 0)
    decreases |rands|
  {
    if rands != [] {
      PausedIdle(m, rands[..|rands| - 1]);
    }
  }

  /** Once a batch has faulted or paused, later iterations change nothing. */
  lemma {:induction false} RunSticks(m: Machine, done: seq<RandomDraw>, rest: seq<RandomDraw>)
    requires Valid(m) && (Run(m, done).fault.Some? || Run(m, done).m.paused)
    ensures Run(m, done + rest) == Run(m, done)
    decreases |rest|
  {
    if rest == [] {
      assert done + rest == done;
    } else {
      var all := done + rest;
      assert all[..|all| - 1] == done + rest[..|rest| - 1];
      RunSticks(m, done, rest[..|rest| - 1]);
      assert Run(m, all) == Step(Run(m, all[..|all| - 1]), all[|all| - 1]);
    }
  }

  /** A `loop` call on a waiting machine changes nothing: not even the timers
      count down while FX0A waits. */
  lemma TickWhilePaused(m: Machine, rands: seq<RandomDraw>)
    requires Valid(m) && m.paused
    ensures Tick(m, rands) == Ticked(m, m.soundTimer > 0)
  {
    PausedIdle(m, rands);
  }

  /** `k` calls of `updateTimers`. */
  function Countdown(m: Machine, k: nat): Machine
    decreases k
  {
    if k == 0 then m else UpdateTimers(Countdown(m, k - 1))
  }

  /** After `k` updates each timer is `k` less, stopping at 0, and nothing
      else has changed. */
  lemma {:induction false} TimersCountDown(m: Machine, k: nat)
    ensures Countdown(m, k).delayTimer == if m.delayTimer > k then m.delayTimer - k else 0
    ensures Countdown(m, k).soundTimer == if m.soundTimer > k then m.soundTimer - k else 0
    ensures Countdown(m, k) == m.(delayTimer := Countdown(m, k).delayTimer, soundTimer := Countdown(m, k).soundTimer)
    decreases k
  {
    if k > 0 {
      TimersCountDown(m, k - 1);
    }
  }

  // ---------------------------------------------------------------- the key wait

  /** FX0A pauses the machine; a press of the key mapped from `code` then
      stores `code` in V[X], resumes, and removes the hook. */
  lemma WaitThenPress(m: Machine, x: Nibble, code: nat)
    requires Valid(m) && code < Codes
    ensures var waiting := ExecuteMisc(m, WaitKey(x));
      waiting.paused &&
      PressKey(waiting, StandardMapping[code]) ==
        m.(v := m.v[x := code], paused := false,
           keys := KeyState(m.keys.pressed[StandardMapping[code] := true], None))
  {
    MappingsInjective();
    var waiting := ExecuteMisc(m, WaitKey(x));
    KeyDownMapped(StandardMapping, waiting.keys, code);
  }

  /** A key outside the table marks itself pressed and nothing else: a
      waiting machine keeps waiting. */
  lemma PressUnmapped(m: Machine, key: string)
    requires Valid(m) && key !in StandardMapping
    ensures PressKey(m, key) == m.(keys := m.keys.(pressed := m.keys.pressed[key := true]))
  {
    KeyDownUnmapped(StandardMapping, m.keys, key);
  }

  /** `reset` during a key wait does not cancel the wait: the machine runs
      again, but the next mapped key still writes its code into the register
      FX0A named. */
  lemma ResetKeepsWait(m: Machine, x: Nibble, code: nat)
    requires Valid(m) && code < Codes
    ensures var r := Reset(ExecuteMisc(m, WaitKey(x)));
      !r.paused && r.keys.pending == Some(x as nat) &&
      PressKey(r, StandardMapping[code]).v == Zeros(Registers)[x := code]
  {
    MappingsInjective();
    var r := Reset(ExecuteMisc(m, WaitKey(x)));
    KeyDownMapped(StandardMapping, r.keys, code);
  }
}
