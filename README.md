# A verified model of a TypeScript CHIP-8 interpreter

This project models the core of a browser CHIP-8 emulator written in TypeScript:

- the `CPU` class (`src/cpu.ts`): registers, memory, stack, timers, the fetch/dispatch/execute loop and one handler per opcode;
- the `Screen` class (`src/screen.ts`): a 64 x 32 bitmap drawn into by XOR with wrap-around;
- the `Keyboard` class (`src/keyboard.ts` and its lower-case twin `src/lib/chip8/keyboard.ts`): the pressed-key dictionary, the key table and the one-shot key-wait hook.

The model has two layers.

- **Values.** The whole machine is a datatype, and each TypeScript operation is a function of it:
  - `Semantics`: `perform`, `loop`, `updateTimers`, `reset`, `loadFonts` and `loadProgram`;
  - `Display`: the screen's `setPixel`;
  - `Input`: the keyboard's `keyDown`, `keyUp`, `clear` and `isKeyPressed`.

  The properties of the interpreter are proved about these functions, in modules `Display`, `Input`, `Isa`, `Sprites` and `Properties`.
- **Objects.** The classes `Display.Screen`, `Input.Keyboard` and `Emulator.CPU` keep the source's form:
  - fields updated in place;
  - registers and memory in byte arrays;
  - the loops of `loop`, `loadFonts`, `loadProgram`, DXYN, FX55, FX65, `overflow` and `keyDown` as `while`/`for` loops with invariants.

  Each method is proved to leave its object in exactly the state the value layer computes.

Modules:

| module | file | contents |
|---|---|---|
| `Bits` | bits.dfy | byte, nibble and word types, the `Uint8Array` store (`ToUint8`), bitwise `& \| ^` on bytes |
| `Display` | display.dfy | `Location`, `XorPixel`, class `Screen` |
| `Input` | input.dfy | key tables, `AfterKeyDown`/`AfterKeyUp`/`Cleared`, class `Keyboard`, event replay |
| `Isa` | isa.dfy | the opcode tables as a datatype of instructions, `Decode`, `Encode` and their round trip |
| `Semantics` | semantics.dfy | the machine state and the interpreter as functions |
| `Sprites` | sprites.dfy | what DXYN does to the screen, cell by cell, and its collision flag |
| `Properties` | properties.dfy | control flow, ALU flags, memory transfers, lifecycle, timers, key wait |
| `Emulator` | cpu.dfy | class `CPU`, one method per TypeScript method and per opcode handler |

JavaScript semantics that the model states explicitly:

- A value stored into the `v` or `memory` `Uint8Array` keeps its value modulo 256 (`Bits.ToUint8`), negative values and fractions included. This is why FX33 stores integer quotients.
- A read past the end of `memory` yields `undefined`, which every use in the source turns into 0 (`Semantics.Read`). A store past the end is dropped (`Semantics.Write`).
- `pc` and `I` are plain numbers and are never wrapped. The `pc += 2` advance of `perform`, the skips and BNNN can move `pc` past 4095, and FX1E can do the same to `I`. A fetch past the end of memory reads 0 (`Semantics.Fetch`).
- Two situations make the source throw:
  - `MissingHandler`: an 8XY_, EX__ or FX__ opcode with no entry in its table, which calls `undefined` (`Properties.MissingEntries`);
  - `WrongReceiver`: 8XY7 with V[X] > V[Y], which writes `this.v[0xF]` where `this` is the dispatch table.

  00EE on an empty stack does not throw: it stores `undefined` in `pc`. The model reports it as a third fault, `EmptyStack` (see "## Left out").

  Each of the three is a `Semantics.Fault`. The `loop` call ends there (`Tick` yields `Halted`), and the faulting instruction has already advanced `pc` by 2.
- `Math.random` is a parameter. Each iteration of the batch loop receives one `RandomDraw` value, the result of `Math.floor(Math.random() * 0xFF)`, so CXNN masks a value between 0 and 254.

Where the code departs from the CHIP-8 instruction set as usually described, the model follows the code:

- 8XY5 and 8XY7 write VF before V[X] and then read V[X] and V[Y] again. With X or Y equal to F the subtraction uses the new flag (`Properties.SubReadsNewFlag`).
- 8XY6 and 8XYE write VF and then read V[X] again.
- 8XY4 takes its sum before it writes VF, so 8XF4 adds the old flag (`Properties.AddReadsOldFlag`).
- 8XY5 sets VF to 1 only when V[X] > V[Y] strictly.
- 8XYE sets VF to `V[X] & 0x80`, that is 0 or 128, not 0 or 1 (`Properties.ShiftLeftBit`).
- 8XY7 with V[X] > V[Y] throws instead of clearing VF (`Properties.SubReverseCases`).
- DXYN reads V[X] and V[Y] for every pixel, after VF has been cleared and possibly set.
- `loadProgram` does no length check. Bytes beyond address 4095 are dropped (`Properties.ProgramTruncated`).
- Timers do not count down in a `loop` call that ends paused, whether the key wait began before the call or during it (`Semantics.Tick`, `Properties.TickWhilePaused`).
- `reset` clears the key dictionary but keeps a pending key-wait hook. A key pressed after `reset` still resumes the machine and writes the captured register (`Properties.ResetKeepsWait`).
- `isKeyPressed` with a value outside 0..15 looks up `MAPPING[value]`, which is `undefined`. The key named "undefined" is then consulted (`Input.UnmappedValue`).

## Model

| member | source | states |
|---|---|---|
| Bits.ToUint8 | src/cpu.ts:27 | a store into a register or memory cell keeps the value modulo 256, negative values included, and keeps 0..255 unchanged |
| Bits.AndMasks | src/cpu.ts:227-246 | `V & 0x01` is the low bit of V, and `V & 0x80` is 128 when bit 7 is set and 0 otherwise |
| Display.Blank | src/screen.ts:7-9 | the fresh bitmap has 2048 cells, all 0 |
| Display.Location | src/screen.ts:48-53 | the cell touched by `setPixel(x, y)` lies on the screen, in column x mod 64 and row y mod 32 |
| Display.XorPixel | src/screen.ts:48-58 | `setPixel` flips exactly the wrapped cell, keeps the bitmap 0/1, and reports true iff the cell was set before |
| Display.LocationWraps | src/screen.ts:17-46 | coordinates one screen width or height apart name the same cell, and (-1, -1) is the last cell |
| Display.XorPixelTwice | src/screen.ts:55-57 | setting a pixel twice restores the bitmap, and exactly one of the two calls reports a collision |
| Display.Screen.constructor | src/screen.ts:7-9 | a new screen holds the blank bitmap |
| Display.Screen.Clear | src/screen.ts:11-13 | the bitmap becomes blank |
| Display.Screen.Overflow | src/screen.ts:17-46 | the four wrapping loops end with 0 <= x < 64 and 0 <= y < 32, congruent to the inputs |
| Display.Screen.SetPixel | src/screen.ts:48-58 | new bitmap and result are those of `XorPixel` on the old bitmap |
| Input.Keyboard.Standard | src/keyboard.ts:1-28 | the keyboard starts with the upper-case table, no key pressed and no pending hook |
| Input.Keyboard.Lowercase | src/lib/chip8/keyboard.ts:1-28 | the keyboard starts with the lower-case table, no key pressed and no pending hook |
| Input.Keyboard.Clear | src/keyboard.ts:30-32 | the dictionary becomes empty and the hook is kept |
| Input.Keyboard.IsKeyPressed | src/keyboard.ts:34-38 | the result is whether the key that the table maps from `value` is held; an absent key reads as not held |
| Input.Keyboard.KeyDown | src/keyboard.ts:40-52 | the scan over the table leaves the state, and delivers the code, that `AfterKeyDown` computes |
| Input.Keyboard.KeyUp | src/keyboard.ts:54-57 | the key becomes not pressed, and nothing else changes |
| Input.AfterKeyDown | src/keyboard.ts:40-52 | `keyDown` makes its key held and no other; it delivers a code iff the key is in the table and a hook is pending; the delivery names the hook's register and a code that maps to the key; the hook is removed iff the key is in the table |
| Input.AfterKeyUp | src/keyboard.ts:54-57 | `keyUp` makes its key not held, changes no other key, and keeps the hook |
| Input.Cleared | src/keyboard.ts:30-32 | after `clear` no key is held, and the hook is kept |
| Input.MappingsInjective | src/keyboard.ts:5-24 | both key tables map distinct codes to distinct keys, so a `keyDown` scan matches at most one entry |
| Input.FirstMatchCorrect | src/keyboard.ts:44-51 | the scan finds the least code mapped to the key, and finds none iff no code maps to it |
| Input.KeyDownMapped | src/keyboard.ts:40-51 | pressing the key of code c delivers c to a pending hook and removes the hook |
| Input.KeyDownUnmapped | src/keyboard.ts:40-51 | pressing a key outside the table marks it pressed, delivers nothing and keeps the hook |
| Input.KeyDownUpState | src/keyboard.ts:40-57 | `keyDown` makes its key held and `keyUp` makes it not held; no other key changes |
| Input.NoRedelivery | src/keyboard.ts:47-49 | the hook is one-shot: after a mapped key press, the next key press delivers nothing |
| Input.ClearKeepsHook | src/keyboard.ts:30-32 | after `clear` no code reads as pressed, and the pending hook is unchanged |
| Input.UnmappedValue | src/keyboard.ts:34-38 | for a value outside 0..15, `isKeyPressed` reports whether the key named "undefined" is held |
| Input.UppercaseIgnored | src/lib/chip8/keyboard.ts:12-38 | with the lower-case table, pressing an upper-case letter key never changes what `isKeyPressed` reports |
| Input.ReplayHeld | src/keyboard.ts:30-57 | after any sequence of host key events, a key reads as held iff it had a `keyDown` with no later `keyUp` or `clear`, or it was held before and nothing released it |
| Isa.Decode | src/cpu.ts:126-371 | the handler `perform` selects for an opcode is missing exactly for the opcodes that the 0x8000, 0xE000 and 0xF000 tables lack |
| Isa.PackFields | src/cpu.ts:121-124 | X, Y, N, NN and NNN taken from an opcode built from four nibbles are those nibbles |
| Isa.DecodeEncodeOuter | src/cpu.ts:126-180 | each instruction of the outer table other than 8, E and F decodes back from its opcode |
| Isa.PackArith | src/cpu.ts:249 | an 8XYN opcode is dispatched on N by the 0x8000 table |
| Isa.DecodeEncodeArith | src/cpu.ts:182-250 | each 8XY_ instruction decodes back from its opcode |
| Isa.PackKey | src/cpu.ts:306 | an EXNN opcode is dispatched on NN by the 0xE000 table |
| Isa.DecodeEncodeKey | src/cpu.ts:292-307 | EX9E and EXA1 decode back from their opcodes |
| Isa.PackMisc | src/cpu.ts:367 | an FXNN opcode is dispatched on NN by the 0xF000 table |
| Isa.DecodeEncodeMisc | src/cpu.ts:308-368 | each FX__ instruction decodes back from its opcode |
| Isa.DecodeEncode | src/cpu.ts:117-372 | every instruction the tables define decodes back from its encoding: the dispatch is a left inverse of `Encode` |
| Semantics.Fetch | src/cpu.ts:100 | the opcode is the byte at pc times 256 plus the byte after it; a fetch past the end of memory gives 0 |
| Semantics.Arith | src/cpu.ts:182-250 | an 8XY_ instruction fails iff it is 8XY7 with V[X] > V[Y]; otherwise it changes no register except V[X] and VF |
| Semantics.DrawPixel | src/cpu.ts:283-288 | one sprite pixel keeps the bitmap 2048 cells of 0/1, and changes no register except VF, which it can only set to 1 |
| Semantics.DrawRow | src/cpu.ts:282-289 | one sprite row keeps the bitmap shape, and changes no register except VF, which it can only set to 1 |
| Semantics.DrawSprite | src/cpu.ts:279-290 | the rows of a sprite keep the bitmap 2048 cells of 0/1 |
| Semantics.DrawSpriteSetsOnlyFlag | src/cpu.ts:279-290 | drawing all the rows of a sprite changes no register except VF, which it can only set to 1 |
| Semantics.ExecuteDraw | src/cpu.ts:272-291 | DXYN changes only the registers and the screen; the registers are the old ones with VF set to 0 or to 1 |
| Semantics.Step | src/cpu.ts:98-103 | an iteration after a fault, or on a paused machine, changes nothing; otherwise it performs at most one instruction |
| Semantics.UpdateTimers | src/cpu.ts:377-380 | each timer drops by exactly one when above 0 and stays when 0; nothing else changes |
| Semantics.WithFonts | src/cpu.ts:86-88 | the first 80 bytes become the glyphs, and the rest of memory is kept |
| Semantics.WithProgram | src/cpu.ts:91-95 | memory keeps its size; `Properties.ProgramPlaced` and `Properties.ProgramTruncated` state where the bytes land |
| Semantics.Reset | src/cpu.ts:51-64 | `reset` keeps the machine's shape, zeroes every register and all memory past the glyphs, releases every key, unpauses, and keeps a pending key-wait hook |
| Semantics.Execute | src/cpu.ts:126-371 | every handler keeps the machine's shape: 16 registers, 4096 bytes of memory, a 2048-cell 0/1 bitmap, and a key wait that names a register |
| Semantics.Perform | src/cpu.ts:117-372 | `perform` keeps the machine's shape for every opcode and random draw |
| Semantics.Run | src/cpu.ts:98-103 | the batch loop keeps the machine's shape |
| Semantics.Tick | src/cpu.ts:97-111 | `loop` keeps the machine's shape |
| Semantics.PressKey | src/cpu.ts:317-322 | a key press that runs the FX0A hook keeps the machine's shape |
| Semantics.Initial | src/cpu.ts:5-49 | a new CPU has the machine's shape |
| Sprites.DrawCells | src/cpu.ts:272-291 | DXYN (X, Y other than F) flips exactly the cells under the set bits of the N sprite rows at I, placed at (V[X], V[Y]) with wrap-around; VF becomes 1 iff one of those cells was set; nothing else changes |
| Sprites.CollisionIffErased | src/cpu.ts:277-286 | the flag DXYN leaves in VF (X, Y other than F) is 1 iff some cell under a set sprite bit was set before, and 0 otherwise |
| Sprites.DrawTwiceRestores | src/cpu.ts:272-291 | drawing the same sprite twice at the same place (X, Y other than F) restores the bitmap |
| Properties.StraightLine | src/cpu.ts:117-118 | every instruction other than a jump, call, return or skip, faulting or not, leaves pc two bytes on |
| Properties.Skips | src/cpu.ts:158-170 | each skip (3XNN, 4XNN, 5XY0, 9XY0, EX9E, EXA1) moves pc by 4 when its condition holds and by 2 otherwise, and changes nothing else |
| Properties.CallThenReturn | src/cpu.ts:136-155 | 2NNN followed by 00EE returns to the instruction after the call, with stack and all else restored |
| Properties.ReturnUnderflow | src/cpu.ts:136-138 | 00EE on an empty stack faults, with the machine as it was once pc advanced |
| Properties.MissingEntries | src/cpu.ts:182-371 | for every opcode, `perform` faults for want of a handler iff the 0x8000, 0xE000 or 0xF000 table has no entry for it |
| Properties.AddImmNoCarry | src/cpu.ts:178-180 | 7XNN adds NN into V[X] modulo 256, for every X including F, and changes no other register, so VF gets no carry |
| Properties.AddCarry | src/cpu.ts:206-214 | after 8XY4 (X other than F), V[X] + 256 * VF is the exact sum, and the other registers are unchanged |
| Properties.SubBorrow | src/cpu.ts:217-224 | after 8XY5 (X, Y other than F), V[X] + V[Y] is the old V[X] modulo 256, and VF is 1 iff V[X] > V[Y] strictly |
| Properties.AddReadsOldFlag | src/cpu.ts:206-214 | 8XY4 with Y = F adds the old VF, because the sum is taken before the flag is written |
| Properties.SubReadsNewFlag | src/cpu.ts:217-224 | 8XY5 with Y = F subtracts the flag it has just written, not the old VF |
| Properties.SubReverseCases | src/cpu.ts:233-240 | 8XY7 faults iff V[X] > V[Y]; otherwise (X, Y other than F) VF = 1 and V[X] = V[Y] - V[X] |
| Properties.ShiftRightBit | src/cpu.ts:227-230 | 8XY6 (X other than F): VF is the bit shifted out, and 2 * V[X] + VF is the old V[X] |
| Properties.ShiftLeftBit | src/cpu.ts:243-246 | 8XYE (X other than F): VF is 128 or 0 as bit 7 was set, and V[X] is twice the old V[X] modulo 256 |
| Properties.DecimalDigits | src/cpu.ts:346-350 | FX33 with room at I writes three decimal digits (hundreds at most 2, the others at most 9) whose value is V[X], and keeps the rest of memory |
| Properties.StoreRangeCells | src/cpu.ts:353-357 | FX55 copies V0..VX to I..I+X, drops the cells past the end, and keeps all other memory |
| Properties.LoadRangeCells | src/cpu.ts:360-364 | FX65 loads V0..VX from I..I+X (0 past the end), and keeps the other registers |
| Properties.SaveRestore | src/cpu.ts:353-364 | FX65 right after FX55 with the same X and I changes nothing when the range fits in memory |
| Properties.SaveRestorePastEnd | src/cpu.ts:353-364 | past the end of memory the FX55/FX65 round trip loses register values |
| Properties.ResetLoadsFonts | src/cpu.ts:51-89 | after `reset` the 80 glyph bytes are at address 0 and all other memory is 0 |
| Properties.GlyphAddress | src/cpu.ts:341-343 | FX29 with a digit d in V[X] points I at the 5 bytes of the glyph of d |
| Properties.ProgramPlaced | src/cpu.ts:91-95 | a program that fits lands at 0x200, and memory before and after it is unchanged |
| Properties.ProgramTruncated | src/cpu.ts:91-95 | a program too long for memory is cut off at the end of memory |
| Properties.RunExecuted | src/cpu.ts:98-103 | a batch performs at most one instruction per iteration, and exactly one per iteration when it neither faults nor pauses |
| Properties.RunPrefix | src/cpu.ts:98-103 | iteration k of the batch extends the run of the first k iterations by one step |
| Properties.PausedIdle | src/cpu.ts:99 | a batch on a machine waiting for a key performs nothing |
| Properties.RunSticks | src/cpu.ts:98-103 | once the batch has faulted or paused, the remaining iterations change nothing |
| Properties.TickWhilePaused | src/cpu.ts:97-111 | `loop` on a waiting machine changes nothing, not even the timers, and the speaker follows the sound timer |
| Properties.TimersCountDown | src/cpu.ts:377-380 | after k timer updates each timer is k less, stopping at 0, and nothing else changes |
| Properties.WaitThenPress | src/cpu.ts:317-322 | FX0A pauses; pressing the key of code c then stores c in V[X] and resumes |
| Properties.PressUnmapped | src/keyboard.ts:40-51 | a key outside the table only marks itself pressed: the machine and the wait are otherwise unchanged |
| Properties.ResetKeepsWait | src/cpu.ts:51-64 | `reset` during a key wait does not cancel it: the machine runs again, and a later press of the key of code c still sets V[X] of the zeroed registers to c |
| Emulator.CPU.constructor | src/cpu.ts:5-49 | the new CPU is the initial machine: pc 0x200, zeroed registers and memory without fonts, blank screen, ten instructions per `loop` |
| Emulator.CPU.Reset | src/cpu.ts:51-64 | the new state is `Semantics.Reset` of the old one, with fresh register and memory arrays |
| Emulator.CPU.LoadFonts | src/cpu.ts:66-89 | memory becomes the glyphs followed by the old memory from address 80 on |
| Emulator.CPU.LoadProgram | src/cpu.ts:91-95 | memory becomes `WithProgram` of the old memory and the program |
| Emulator.CPU.Loop | src/cpu.ts:97-111 | the new state, the speaker signal and the fault match `Semantics.Tick` of the old state |
| Emulator.CPU.RunBatch | src/cpu.ts:98-103 | the batch loop leaves the state and the fault of `Semantics.Run` |
| Emulator.CPU.Iterate | src/cpu.ts:99-102 | one iteration of the batch is one `Semantics.Step` |
| Emulator.CPU.FetchAndPerform | src/cpu.ts:100-101 | the opcode fetched big-endian at pc is performed as `Semantics.Execute` after pc advances |
| Emulator.CPU.Perform | src/cpu.ts:117-372 | `perform(opcode)` advances pc by 2 and then leaves the state and fault of `Semantics.Execute` on the decoded opcode |
| Emulator.CPU.Execute | src/cpu.ts:126-371 | the dispatch on the top nibble leaves the state and fault of `Semantics.Execute` |
| Emulator.CPU.ExecuteFlow | src/cpu.ts:127-269 | the handlers for 0___ to 7___ and 9___ to C___ leave the state and fault of `Semantics.ExecuteFlow` |
| Emulator.CPU.Return | src/cpu.ts:136-138 | 00EE pops the return address into pc, or faults on an empty stack |
| Emulator.CPU.Jump | src/cpu.ts:147-149 | 1NNN sets pc to NNN |
| Emulator.CPU.Call | src/cpu.ts:152-155 | 2NNN pushes pc and sets pc to NNN |
| Emulator.CPU.SkipEqImm | src/cpu.ts:158-160 | 3XNN skips when V[X] == NN |
| Emulator.CPU.SkipNeImm | src/cpu.ts:163-165 | 4XNN skips when V[X] != NN |
| Emulator.CPU.SkipEqReg | src/cpu.ts:168-170 | 5XY0 skips when V[X] == V[Y] |
| Emulator.CPU.LoadImm | src/cpu.ts:173-175 | 6XNN sets V[X] to NN |
| Emulator.CPU.AddImm | src/cpu.ts:178-180 | 7XNN adds NN to V[X] modulo 256 |
| Emulator.CPU.SkipNeReg | src/cpu.ts:252-254 | 9XY0 skips when V[X] != V[Y] |
| Emulator.CPU.LoadIndex | src/cpu.ts:257-259 | ANNN sets I to NNN |
| Emulator.CPU.JumpOffset | src/cpu.ts:262-264 | BNNN sets pc to NNN + V0 |
| Emulator.CPU.Random | src/cpu.ts:267-269 | CXNN sets V[X] to the random draw AND NN |
| Emulator.CPU.ExecuteArith | src/cpu.ts:182-250 | the 0x8000 table leaves the state and fault of `Semantics.ExecuteArith` |
| Emulator.CPU.Logic | src/cpu.ts:186-203 | 8XY0 to 8XY3 leave the registers that `Semantics.Arith` computes |
| Emulator.CPU.FlagArith | src/cpu.ts:206-240 | 8XY4, 8XY5 and a non-faulting 8XY7 write VF, then V[X], as `Semantics.Arith` computes |
| Emulator.CPU.Shift | src/cpu.ts:227-246 | 8XY6 and 8XYE write VF, then V[X], as `Semantics.Arith` computes |
| Emulator.CPU.Draw | src/cpu.ts:272-291 | DXYN leaves the state of `Semantics.ExecuteDraw` |
| Emulator.CPU.DrawRows | src/cpu.ts:279-290 | the row loop draws the sprite rows in order, as `Semantics.DrawSprite` computes |
| Emulator.CPU.DrawSpriteRow | src/cpu.ts:280-289 | the column loop draws one sprite row bit by bit from the left, as `Semantics.DrawRow` computes |
| Emulator.CPU.PlotSpritePixel | src/cpu.ts:284-286 | a set bit XORs its pixel and raises VF on a collision, as `Semantics.DrawPixel` computes |
| Emulator.CPU.ExecuteKey | src/cpu.ts:292-307 | the 0xE000 table leaves the state of `Semantics.ExecuteKey` |
| Emulator.CPU.SkipPressed | src/cpu.ts:296-298 | EX9E skips when the key of code V[X] is held |
| Emulator.CPU.SkipNotPressed | src/cpu.ts:301-303 | EXA1 skips when the key of code V[X] is not held |
| Emulator.CPU.ExecuteMisc | src/cpu.ts:308-368 | the 0xF000 table leaves the state of `Semantics.ExecuteMisc` |
| Emulator.CPU.ReadDelay | src/cpu.ts:312-314 | FX07 sets V[X] to the delay timer |
| Emulator.CPU.WaitKey | src/cpu.ts:317-323 | FX0A pauses and installs a hook naming V[X] |
| Emulator.CPU.SetDelay | src/cpu.ts:326-328 | FX15 sets the delay timer to V[X] |
| Emulator.CPU.SetSound | src/cpu.ts:331-333 | FX18 sets the sound timer to V[X] |
| Emulator.CPU.AddIndex | src/cpu.ts:336-338 | FX1E adds V[X] to I without wrapping |
| Emulator.CPU.FontGlyph | src/cpu.ts:341-343 | FX29 sets I to 5 * V[X] |
| Emulator.CPU.StoreDecimal | src/cpu.ts:346-350 | FX33 writes the three decimal digits of V[X] at I, dropping bytes past the end |
| Emulator.CPU.StoreRegs | src/cpu.ts:353-357 | the FX55 loop leaves memory as `Semantics.StoreRange` computes |
| Emulator.CPU.LoadRegs | src/cpu.ts:360-364 | the FX65 loop leaves the registers as `Semantics.LoadRange` computes |
| Emulator.CPU.UpdateTimers | src/cpu.ts:377-380 | each timer above 0 goes down by one, and nothing else changes |
| Emulator.CPU.PlaySound | src/cpu.ts:382-388 | the speaker is told to play iff the sound timer is above 0 |
| Emulator.CPU.KeyDown | src/keyboard.ts:40-52 | a host key press on the CPU's keyboard leaves the state of `Semantics.PressKey` |

## Left out

- Rendering, the speaker and the `requestAnimationFrame` driver are outside this model. The screen's `render` and the speaker's `play`/`stop` only emit outbound events: `Emulator.CPU.PlaySound` returns the signal instead of calling the speaker, and `loop` does not call `render`.
- The application shell, ROM selection and key-event plumbing in `src/index.ts` and `src/app.tsx`, and the fields `rom`, `_loop` and `speaker`, are not part of this model.
- The older interpreter in `src/lib/chip8/cpu.ts` and `src/lib/chip8/index.ts` is not part of this model. Only its keyboard, which differs in the letter keys, is modelled (`Input.LowercaseMapping`).
- `Math.random` is a parameter (`Semantics.RandomDraw`), because the model cannot draw random numbers.
- `Semantics.Tick`: after 00EE on an empty stack, the source stores `undefined` into pc and keeps going, and every later fetch then reads 0 as a no-op. The model instead stops the `loop` call with the `EmptyStack` fault, because a `NaN` program counter has no counterpart in the integer model.
- `Semantics.Tick`: the model treats every thrown exception as ending the current `loop` call. What the host does with the exception (whether it schedules the next frame) is outside this model.
- `Emulator.CPU.Perform`: the opcode is a 16-bit word, as every fetch produces. Calls of `perform` with arbitrary JavaScript numbers are not modelled.
- Sprites.DrawCells: stated only for X and Y other than F. With X or Y equal to F, DXYN moves its own origin as VF changes mid-draw. `Semantics.ExecuteDraw` and `Emulator.CPU.Draw` model that case exactly, but no lemma describes its picture.
- Sprites.CollisionIffErased: stated only for X and Y other than F, for the same reason.
- Sprites.DrawTwiceRestores: stated only for X and Y other than F, for the same reason.
- Properties.AddCarry: stated only for X other than F, where the flag would overwrite the sum. `Semantics.Arith` models X = F exactly.
- Properties.ShiftRightBit: stated only for X other than F, for the same reason.
- Properties.ShiftLeftBit: stated only for X other than F, for the same reason.
- Properties.SubBorrow: stated only for X and Y other than F. For Y = F, see `Properties.SubReadsNewFlag`.
- Concurrency between host key events and `loop` is not modelled. Each key event is an atomic call (`Emulator.CPU.KeyDown`), as in the single-threaded browser.
