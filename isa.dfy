/** The instruction set as `perform` (src/cpu.ts) dispatches it: the top
    nibble selects a handler of the outer table, and for 0x0, 0x8, 0xE and
    0xF an inner table selects by the whole opcode, the low nibble or the low
    byte. The tables are fixed, so decoding yields a closed set of variants. */
module Isa {
  import opened Bits

  /** A 12-bit address field. */
  type Addr = a: int | 0 <= a < 0x1000

  datatype Instr =
    | Sys(nnn: Addr)                      // 0NNN other than 00E0 and 00EE: no handler, nothing happens
    | ClearScreen                         // 00E0
    | Return                              // 00EE
    | Jump(nnn: Addr)                     // 1NNN
    | Call(nnn: Addr)                     // 2NNN
    | SkipEqImm(x: Nibble, nn: Byte)      // 3XNN
    | SkipNeImm(x: Nibble, nn: Byte)      // 4XNN
    | SkipEqReg(x: Nibble, y: Nibble)     // 5XY_ (the low nibble is not looked at)
    | LoadImm(x: Nibble, nn: Byte)        // 6XNN
    | AddImm(x: Nibble, nn: Byte)         // 7XNN
    | Move(x: Nibble, y: Nibble)          // 8XY0
    | OrReg(x: Nibble, y: Nibble)         // 8XY1
    | AndReg(x: Nibble, y: Nibble)        // 8XY2
    | XorReg(x: Nibble, y: Nibble)        // 8XY3
    | AddReg(x: Nibble, y: Nibble)        // 8XY4
    | SubReg(x: Nibble, y: Nibble)        // 8XY5
    | ShiftRight(x: Nibble)               // 8XY6 (Y is not used)
    | SubReverse(x: Nibble, y: Nibble)    // 8XY7
    | ShiftLeft(x: Nibble)                // 8XYE (Y is not used)
    | SkipNeReg(x: Nibble, y: Nibble)     // 9XY_ (the low nibble is not looked at)
    | LoadIndex(nnn: Addr)                // ANNN
    | JumpOffset(nnn: Addr)               // BNNN
    | Random(x: Nibble, nn: Byte)         // CXNN
    | Draw(x: Nibble, y: Nibble, n: Nibble) // DXYN
    | SkipPressed(x: Nibble)              // EX9E
    | SkipNotPressed(x: Nibble)           // EXA1
    | ReadDelay(x: Nibble)                // FX07
    | WaitKey(x: Nibble)                  // FX0A
    | SetDelay(x: Nibble)                 // FX15
    | SetSound(x: Nibble)                 // FX18
    | AddIndex(x: Nibble)                 // FX1E
    | FontGlyph(x: Nibble)                // FX29
    | StoreDecimal(x: Nibble)             // FX33
    | StoreRegs(x: Nibble)                // FX55
    | LoadRegs(x: Nibble)                 // FX65
    | NoHandler                           // 8XY_, EX__ or FX__ missing from the inner table: calling it throws

  /** The fields `perform` extracts. `opcode & 0xF000`, `(opcode & 0x0F00) >> 8`,
      `(opcode & 0x00F0) >> 4`, `opcode & 0x000F`, `opcode & 0x00FF` and
      `opcode & 0x0FFF` are, for a 16-bit opcode, the quotients and remainders
      below. */
  function Top(op: Word): Nibble { op / 0x1000 }
  function X(op: Word): Nibble { (op / 0x100) % 0x10 }
  function Y(op: Word): Nibble { (op / 0x10) % 0x10 }
  function N(op: Word): Nibble { op % 0x10 }
  function NN(op: Word): Byte { op % 0x100 }
  function NNN(op: Word): Addr { op % 0x1000 }

  /** The opcodes whose inner table has no entry: the low nibble of an
      8XY_ other than 0 to 7 and E, and the low byte of an EX__ or FX__
      that names none of the table's handlers. */
  predicate Unhandled(op: Word)
  {
    (Top(op) == 0x8 && N(op) in {0x8, 0x9, 0xA, 0xB, 0xC, 0xD, 0xF}) ||
    (Top(op) == 0xE && NN(op) != 0x9E && NN(op) != 0xA1) ||
    (Top(op) == 0xF && NN(op) !in {0x07, 0x0A, 0x15, 0x18, 0x1E, 0x29, 0x33, 0x55, 0x65})
  }

  /** The handler `perform` selects for an opcode. Exactly the opcodes
      missing from an inner table have none. */
  function Decode(op: Word): (r: Instr)
    ensures r.NoHandler? <==> Unhandled(op)
  {
    var x, y, nn, nnn := X(op), Y(op), NN(op), NNN(op);
    match Top(op)
    case 0x0 => DecodeSystem(op)
    case 0x1 => Jump(nnn)
    case 0x2 => Call(nnn)
    case 0x3 => SkipEqImm(x, nn)
    case 0x4 => SkipNeImm(x, nn)
    case 0x5 => SkipEqReg(x, y)
    case 0x6 => LoadImm(x, nn)
    case 0x7 => AddImm(x, nn)
    case 0x8 => DecodeArith(x, y, N(op))
    case 0x9 => SkipNeReg(x, y)
    case 0xA => LoadIndex(nnn)
    case 0xB => JumpOffset(nnn)
    case 0xC => Random(x, nn)
    case 0xD => Draw(x, y, N(op))
    case 0xE => DecodeKey(x, nn)
    case _ => DecodeMisc(x, nn)
  }

  /** The inner table of 0x0000, keyed by the whole opcode. */
  function DecodeSystem(op: Word): Instr
  {
    if op == 0x00E0 then ClearScreen
    else if op == 0x00EE then Return
    else Sys(NNN(op))
  }

  /** The inner table of 0x8000, keyed by the low nibble. */
  function DecodeArith(x: Nibble, y: Nibble, n: Nibble): Instr
  {
    match n
    case 0x0 => Move(x, y)
    case 0x1 => OrReg(x, y)
    case 0x2 => AndReg(x, y)
    case 0x3 => XorReg(x, y)
    case 0x4 => AddReg(x, y)
    case 0x5 => SubReg(x, y)
    case 0x6 => ShiftRight(x)
    case 0x7 => SubReverse(x, y)
    case 0xE => ShiftLeft(x)
    case _ => NoHandler
  }

  /** The inner table of 0xE000, keyed by the low byte. */
  function DecodeKey(x: Nibble, nn: Byte): Instr
  {
    match nn
    case 0x9E => SkipPressed(x)
    case 0xA1 => SkipNotPressed(x)
    case _ => NoHandler
  }

  /** The inner table of 0xF000, keyed by the low byte. */
  function DecodeMisc(x: Nibble, nn: Byte): Instr
  {
    match nn
    case 0x07 => ReadDelay(x)
    case 0x0A => WaitKey(x)
    case 0x15 => SetDelay(x)
    case 0x18 => SetSound(x)
    case 0x1E => AddIndex(x)
    case 0x29 => FontGlyph(x)
    case 0x33 => StoreDecimal(x)
    case 0x55 => StoreRegs(x)
    case 0x65 => LoadRegs(x)
    case _ => NoHandler
  }

  /** An opcode from its four nibbles. */
  function Pack(t: Nibble, x: Nibble, y: Nibble, n: Nibble): Word
  {
    t * 0x1000 + x * 0x100 + y * 0x10 + n
  }

  /** A canonical opcode for each instruction (unused fields are 0). */
  function Encode(i: Instr): Word
  {
    match i
    case Sys(nnn) => nnn
    case ClearScreen => 0x00E0
    case Return => 0x00EE
    case Jump(nnn) => 0x1000 + nnn
    case Call(nnn) => 0x2000 + nnn
    case SkipEqImm(x, nn) => Pack(0x3, x, nn / 0x10, nn % 0x10)
    case SkipNeImm(x, nn) => Pack(0x4, x, nn / 0x10, nn % 0x10)
    case SkipEqReg(x, y) => Pack(0x5, x, y, 0)
    case LoadImm(x, nn) => Pack(0x6, x, nn / 0x10, nn % 0x10)
    case AddImm(x, nn) => Pack(0x7, x, nn / 0x10, nn % 0x10)
    case Move(x, y) => Pack(0x8, x, y, 0x0)
    case OrReg(x, y) => Pack(0x8, x, y, 0x1)
    case AndReg(x, y) => Pack(0x8, x, y, 0x2)
    case XorReg(x, y) => Pack(0x8, x, y, 0x3)
    case AddReg(x, y) => Pack(0x8, x, y, 0x4)
    case SubReg(x, y) => Pack(0x8, x, y, 0x5)
    case ShiftRight(x) => Pack(0x8, x, 0, 0x6)
    case SubReverse(x, y) => Pack(0x8, x, y, 0x7)
    case ShiftLeft(x) => Pack(0x8, x, 0, 0xE)
    case SkipNeReg(x, y) => Pack(0x9, x, y, 0)
    case LoadIndex(nnn) => 0xA000 + nnn
    case JumpOffset(nnn) => 0xB000 + nnn
    case Random(x, nn) => Pack(0xC, x, nn / 0x10, nn % 0x10)
    case Draw(x, y, n) => Pack(0xD, x, y, n)
    case SkipPressed(x) => Pack(0xE, x, 0x9, 0xE)
    case SkipNotPressed(x) => Pack(0xE, x, 0xA, 0x1)
    case ReadDelay(x) => Pack(0xF, x, 0x0, 0x7)
    case WaitKey(x) => Pack(0xF, x, 0x0, 0xA)
    case SetDelay(x) => Pack(0xF, x, 0x1, 0x5)
    case SetSound(x) => Pack(0xF, x, 0x1, 0x8)
    case AddIndex(x) => Pack(0xF, x, 0x1, 0xE)
    case FontGlyph(x) => Pack(0xF, x, 0x2, 0x9)
    case StoreDecimal(x) => Pack(0xF, x, 0x3, 0x3)
    case StoreRegs(x) => Pack(0xF, x, 0x5, 0x5)
    case LoadRegs(x) => Pack(0xF, x, 0x6, 0x5)
    case NoHandler => 0x800F
  }

  /** Every instruction except a `Sys` whose address collides with 00E0 or
      00EE has an opcode. */
  predicate Encodable(i: Instr)
  {
    !(i.Sys? && (i.nnn == 0x00E0 || i.nnn == 0x00EE))
  }

  /** The fields of a packed opcode are the nibbles it was packed from. */
  lemma {:induction false} PackFields(t: Nibble, x: Nibble, y: Nibble, n: Nibble)
    ensures Top(Pack(t, x, y, n)) == t && X(Pack(t, x, y, n)) == x
    ensures Y(Pack(t, x, y, n)) == y && N(Pack(t, x, y, n)) == n
    ensures NN(Pack(t, x, y, n)) == y * 0x10 + n
    ensures NNN(Pack(t, x, y, n)) == x * 0x100 + y * 0x10 + n
  {
    var op := Pack(t, x, y, n);
    assert op == t * 0x1000 + (x * 0x100 + y * 0x10 + n);
    assert op / 0x1000 == t;
    assert op % 0x1000 == x * 0x100 + y * 0x10 + n;
    assert op / 0x100 == t * 0x10 + x;
    assert op / 0x10 == t * 0x100 + x * 0x10 + y;
  }

  /** An opcode built from a top nibble and a 12-bit address. */
  lemma {:induction false} PackAddr(t: Nibble, nnn: Addr)
    ensures 0 <= t * 0x1000 + nnn < 0x1_0000
    ensures Top(t * 0x1000 + nnn) == t && NNN(t * 0x1000 + nnn) == nnn
  {
    PackFields(t, nnn / 0x100, (nnn / 0x10) % 0x10, nnn % 0x10);
    assert Pack(t, nnn / 0x100, (nnn / 0x10) % 0x10, nnn % 0x10) == t * 0x1000 + nnn;
  }

  /** An opcode built from a top nibble, a register and a byte. */
  lemma {:induction false} PackImm(t: Nibble, x: Nibble, nn: Byte)
    ensures Pack(t, x, nn / 0x10, nn % 0x10) == t * 0x1000 + x * 0x100 + nn
    ensures Top(Pack(t, x, nn / 0x10, nn % 0x10)) == t && X(Pack(t, x, nn / 0x10, nn % 0x10)) == x
    ensures NN(Pack(t, x, nn / 0x10, nn % 0x10)) == nn
  {
    PackFields(t, x, nn / 0x10, nn % 0x10);
  }

  /** Decoding undoes encoding: instructions of the outer table. */
  lemma {:induction false} DecodeEncodeOuter(i: Instr)
    requires Encodable(i)
    requires !(i.Move? || i.OrReg? || i.AndReg? || i.XorReg? || i.AddReg? || i.SubReg? ||
               i.ShiftRight? || i.SubReverse? || i.ShiftLeft? || i.NoHandler?)
    requires !(i.SkipPressed? || i.SkipNotPressed?)
    requires !(i.ReadDelay? || i.WaitKey? || i.SetDelay? || i.SetSound? || i.AddIndex? ||
               i.FontGlyph? || i.StoreDecimal? || i.StoreRegs? || i.LoadRegs?)
    ensures Decode(Encode(i)) == i
  {
    match i
    case Sys(nnn) => PackAddr(0, nnn);
    case Jump(nnn) => PackAddr(1, nnn);
    case Call(nnn) => PackAddr(2, nnn);
    case LoadIndex(nnn) => PackAddr(0xA, nnn);
    case JumpOffset(nnn) => PackAddr(0xB, nnn);
    case SkipEqImm(x, nn) => PackImm(0x3, x, nn);
    case SkipNeImm(x, nn) => PackImm(0x4, x, nn);
    case LoadImm(x, nn) => PackImm(0x6, x, nn);
    case AddImm(x, nn) => PackImm(0x7, x, nn);
    case Random(x, nn) => PackImm(0xC, x, nn);
    case SkipEqReg(x, y) => PackFields(0x5, x, y, 0);
    case SkipNeReg(x, y) => PackFields(0x9, x, y, 0);
    case Draw(x, y, n) => PackFields(0xD, x, y, n);
    case ClearScreen =>
    case Return =>
  }

  /** An 8XYN opcode is decoded by the 0x8000 table. */
  lemma {:induction false} PackArith(x: Nibble, y: Nibble, n: Nibble)
    ensures Decode(Pack(0x8, x, y, n)) == DecodeArith(x, y, n)
  {
    PackFields(0x8, x, y, n);
  }

  /** An EXNN opcode is decoded by the 0xE000 table. */
  lemma {:induction false} PackKey(x: Nibble, y: Nibble, n: Nibble)
    ensures Decode(Pack(0xE, x, y, n)) == DecodeKey(x, y * 0x10 + n)
  {
    PackFields(0xE, x, y, n);
  }

  /** An FXNN opcode is decoded by the 0xF000 table. */
  lemma {:induction false} PackMisc(x: Nibble, y: Nibble, n: Nibble)
    ensures Decode(Pack(0xF, x, y, n)) == DecodeMisc(x, y * 0x10 + n)
  {
    PackFields(0xF, x, y, n);
  }

  /** Decoding undoes encoding: the 8XY_ table. */
  lemma {:induction false} DecodeEncodeArith(i: Instr)
    requires i.Move? || i.OrReg? || i.AndReg? || i.XorReg? || i.AddReg? || i.SubReg? ||
             i.ShiftRight? || i.SubReverse? || i.ShiftLeft? || i.NoHandler?
    ensures Decode(Encode(i)) == i
  {
    match i
    case Move(x, y) => PackArith(x, y, 0x0);
    case OrReg(x, y) => PackArith(x, y, 0x1);
    case AndReg(x, y) => PackArith(x, y, 0x2);
    case XorReg(x, y) => PackArith(x, y, 0x3);
    case AddReg(x, y) => PackArith(x, y, 0x4);
    case SubReg(x, y) => PackArith(x, y, 0x5);
    case ShiftRight(x) => PackArith(x, 0, 0x6);
    case SubReverse(x, y) => PackArith(x, y, 0x7);
    case ShiftLeft(x) => PackArith(x, 0, 0xE);
    case NoHandler => PackArith(0, 0, 0xF);
  }

  /** Decoding undoes encoding: the EX__ table. */
  lemma {:induction false} DecodeEncodeKey(i: Instr)
    requires i.SkipPressed? || i.SkipNotPressed?
    ensures Decode(Encode(i)) == i
  {
    match i
    case SkipPressed(x) => PackKey(x, 0x9, 0xE);
    case SkipNotPressed(x) => PackKey(x, 0xA, 0x1);
  }

  /** Decoding undoes encoding: the FX__ table. */
  lemma {:induction false} DecodeEncodeMisc(i: Instr)
    requires i.ReadDelay? || i.WaitKey? || i.SetDelay? || i.SetSound? || i.AddIndex? ||
             i.FontGlyph? || i.StoreDecimal? || i.StoreRegs? || i.LoadRegs?
    ensures Decode(Encode(i)) == i
  {
    match i
    case ReadDelay(x) => PackMisc(x, 0x0, 0x7);
    case WaitKey(x) => PackMisc(x, 0x0, 0xA);
    case SetDelay(x) => PackMisc(x, 0x1, 0x5);
    case SetSound(x) => PackMisc(x, 0x1, 0x8);
    case AddIndex(x) => PackMisc(x, 0x1, 0xE);
    case FontGlyph(x) => PackMisc(x, 0x2, 0x9);
    case StoreDecimal(x) => PackMisc(x, 0x3, 0x3);
    case StoreRegs(x) => PackMisc(x, 0x5, 0x5);
    case LoadRegs(x) => PackMisc(x, 0x6, 0x5);
  }

  /** Decoding undoes encoding. */
  lemma DecodeEncode(i: Instr)
    requires Encodable(i)
    ensures Decode(Encode(i)) == i
  {
    if i.Move? || i.OrReg? || i.AndReg? || i.XorReg? || i.AddReg? || i.SubReg? ||
       i.ShiftRight? || i.SubReverse? || i.ShiftLeft? || i.NoHandler? {
      DecodeEncodeArith(i);
    } else if i.SkipPressed? || i.SkipNotPressed? {
      DecodeEncodeKey(i);
    } else if i.ReadDelay? || i.WaitKey? || i.SetDelay? || i.SetSound? || i.AddIndex? ||
              i.FontGlyph? || i.StoreDecimal? || i.StoreRegs? || i.LoadRegs? {
      DecodeEncodeMisc(i);
    } else {
      DecodeEncodeOuter(i);
    }
  }
}
