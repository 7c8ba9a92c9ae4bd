# CHIP-8 interpreter core in Dafny

This project models the `Chip8` machine of `src/lib.rs`:
- the 4 KiB memory with the built-in font at 0x000-0x04F;
- the sixteen 8-bit registers V0..VF, the 16-bit index register and program counter;
- the 64x32 frame buffer, the delay and sound timers, the 16-slot call stack and the 16-key keypad.

It also models the operations that drive the machine:
- `new`, `loadHex`, `fetchOpcode`, `executeOpcode`, `updateTimers` and `emulateCycle`;
- the sprite-row helper `make_bitvector`.

The model has three files.

- `chip8_spec.dfy` (module `Chip8Spec`) gives the meaning of every operation as a function on a value
  `Machine`, the struct with its arrays as sequences. Each operation returns a `Result`. A `Fault` stands for each way the
  Rust code panics:
  - an unknown opcode;
  - a memory, stack or key index out of range;
  - `sp -= 1` below zero;
  - `pc += 2` or `index += VX` past 0xFFFF, which a debug build traps.
- `chip8.dfy` (module `Chip8Interpreter`) is the struct itself: class `Chip8` whose array fields are
  changed in place by methods with the Rust names, each with its loops (the font copy, the program copy, the
  screen clear, the FX0A key scan, the FX55/FX65 copies and the DXYN row and column loops). Every method is
  proved to leave exactly the state the matching `Chip8Spec` function computes, or to stop with the fault
  it reports. On a fault every method but `EmulateCycle` leaves the fields as they were. `EmulateCycle`
  may leave a new `opcode`, because `fetchOpcode` stores the word before `executeOpcode` panics.
- `chip8_properties.dfy` (module `Chip8Properties`) proves what the opcodes mean:
  - skip distances;
  - call and return;
  - carry and borrow flags;
  - XOR drawing and collision;
  - BCD digits;
  - store/load round trips;
  - the FX0A wait;
  - the order of execute and timer tick within a cycle;
  - a cycle never overflows pc while return addresses lie inside memory.

The model keeps these behaviours of the code as written:
- The 8XY4/5/6/7/E forms write VF before VX and VY are read for the result. With X or Y equal to F, the
  result therefore uses the new flag, and for X = F the flag is then overwritten.
- `make_bitvector` fills only elements 0..6, so the lowest bit of a sprite byte never reaches the screen.
- FX0A scans keys 0 to 14 only. With no key pressed it leaves pc unchanged, so the instruction repeats.
- 5XY? and 9XY? ignore the low nibble.
- FX29 sets index to 5 * VX with no range check.
- CXNN masks NN with a byte from 0 to 254, the range `gen_range(0, 255)` yields. The byte is a parameter `rnd`.
- Pixels are bytes. DXYN toggles a hit pixel with `^= 1` and reports a collision only for a pixel equal to 1.

## Model

| member | source | states |
|---|---|---|
| `Chip8Spec.BitVector` | src/lib.rs:38-44 | eight elements, each 0 or 1, and element 7 always 0 |
| `Chip8Spec.Flip` | src/lib.rs:379 | `^= 1` changes the lowest bit of a pixel byte and keeps the rest |
| `Chip8Spec.Bcd` | src/lib.rs:451-459 | three decimal digits, each below 10, whose value 100a + 10b + c is VX |
| `Chip8Spec.Initial` | src/lib.rs:116-138 | font at 0..80, zeros elsewhere, pc 0x200, sp and index 0, draw flag raised, opcode, registers, pixels, timers, stack and keys 0 |
| `Chip8Spec.Load` | src/lib.rs:140-144 | succeeds iff the program fits above 0x200; each byte lands at 0x200 + c; no other byte or field changes; a longer program faults at address 4096 |
| `Chip8Spec.Fetch` | src/lib.rs:162-164 | succeeds iff pc + 1 < 4096; the word's high byte is memory[pc], its low byte memory[pc + 1]; otherwise the first address indexed out of range |
| `Chip8Spec.Tick` | src/lib.rs:483-495 | each nonzero timer drops by one, a zero timer stays zero, nothing else changes |
| `Chip8Spec.Advance` | src/lib.rs:229 | `pc += step` succeeds iff the sum fits in 16 bits and then changes only pc |
| `Chip8Spec.SetReg` | src/lib.rs:224-230 | writing one register keeps array sizes, opcode and keys |
| `Chip8Spec.ExecSystem` | src/lib.rs:168-186 | 00E0, 00EE and unknown 0NNN keep array sizes, opcode and keys |
| `Chip8Spec.ExecCall` | src/lib.rs:191-196 | 2NNN keeps array sizes, opcode and keys |
| `Chip8Spec.ExecArithmetic` | src/lib.rs:239-328 | every 8XY? form keeps array sizes, opcode and keys |
| `Chip8Spec.ExecDraw` | src/lib.rs:355-386 | DXYN keeps array sizes, opcode and keys |
| `Chip8Spec.ExecKeySkip` | src/lib.rs:387-407 | EX9E and EXA1 keep array sizes, opcode and keys |
| `Chip8Spec.FirstPressed` | src/lib.rs:419-425 | the key found is pressed, lies in 0..14 and no lower key is pressed; none found means keys 0..14 are all up |
| `Chip8Spec.ScanKeys` | src/lib.rs:419-425 | the scan from `from` finds the first pressed key at or after it and below 15 |
| `Chip8Spec.ExecMisc` | src/lib.rs:408-478 | every FX?? form keeps array sizes, opcode and keys |
| `Chip8Spec.Execute` | src/lib.rs:166-481 | a successful instruction keeps array sizes, the opcode and the keys |
| `Chip8Spec.Cycle` | src/lib.rs:151-160 | a completed cycle leaves a well-formed machine |
| `Chip8Interpreter.MakeBitvector` | src/lib.rs:38-44 | the array loop over 0..7 yields exactly `BitVector(b)` |
| `Chip8Interpreter.Chip8.constructor` | src/lib.rs:116-138 | the fresh struct, after the font loop, holds `Initial()` |
| `Chip8Interpreter.Chip8.LoadHex` | src/lib.rs:140-144 | the copy loop leaves the state `Load` gives, or reports its fault with memory untouched |
| `Chip8Interpreter.Chip8.EmulateCycle` | src/lib.rs:151-160 | runs iff `Cycle` succeeds and then holds its state; on a fault reports it and only the opcode field may have changed |
| `Chip8Interpreter.Chip8.FetchOpcode` | src/lib.rs:162-164 | sets only the opcode, to the word `Fetch` gives, or reports its fault |
| `Chip8Interpreter.Chip8.UpdateTimers` | src/lib.rs:483-495 | leaves `Tick` of the old state |
| `Chip8Interpreter.Chip8.ExecuteOpcode` | src/lib.rs:166-481 | leaves the state `Execute` gives, or its fault with every field unchanged |
| `Chip8Interpreter.Chip8.SkipIf` | src/lib.rs:197-205 | moves pc by 4 or 2 as `Skip` says |
| `Chip8Interpreter.Chip8.SetRegister` | src/lib.rs:224-230 | writes VX and moves pc by 2, as `SetReg` says |
| `Chip8Interpreter.Chip8.ExecuteSystem` | src/lib.rs:168-186 | follows `ExecSystem` |
| `Chip8Interpreter.Chip8.ClearScreen` | src/lib.rs:172-174 | every pixel is 0 after the loop |
| `Chip8Interpreter.Chip8.ExecuteCall` | src/lib.rs:191-196 | follows `ExecCall` |
| `Chip8Interpreter.Chip8.ExecuteArithmetic` | src/lib.rs:239-328 | follows `ExecArithmetic`, flag written first |
| `Chip8Interpreter.Chip8.ExecuteAddSub` | src/lib.rs:269-317 | 8XY4, 8XY5 and 8XY7 write VF and then VX from the updated registers, as `ExecArithmetic` says |
| `Chip8Interpreter.Chip8.ExecuteShift` | src/lib.rs:296-325 | 8XY6 and 8XYE write the shifted-out bit to VF and then shift VX as it now stands, as `ExecArithmetic` says |
| `Chip8Interpreter.Chip8.ExecuteKeySkip` | src/lib.rs:387-407 | follows `ExecKeySkip` |
| `Chip8Interpreter.Chip8.ExecuteMisc` | src/lib.rs:408-478 | follows `ExecMisc` |
| `Chip8Interpreter.Chip8.WaitForKey` | src/lib.rs:416-426 | the key loop stores the first pressed key of 0..14 in VX and moves pc by 2, or changes nothing |
| `Chip8Interpreter.Chip8.StoreBcd` | src/lib.rs:451-459 | writes the three BCD digits of VX at index..index+2, as `ExecMisc` says |
| `Chip8Interpreter.Chip8.StoreRegisters` | src/lib.rs:460-467 | the copy loop leaves memory as `StoreRegs` gives |
| `Chip8Interpreter.Chip8.LoadRegisters` | src/lib.rs:468-475 | the copy loop leaves registers as `LoadRegs` gives |
| `Chip8Interpreter.Chip8.ExecuteDraw` | src/lib.rs:355-386 | the row loop leaves every hit pixel toggled, every other pixel unchanged, VF = 1 iff a hit pixel was 1, as `ExecDraw` says |
| `Chip8Interpreter.Chip8.DrawRow` | src/lib.rs:367-382 | the column loop of one row extends the toggled pixels and the collision flag by exactly that row's cells |
| `Chip8Interpreter.Chip8.DrawCell` | src/lib.rs:368-381 | one on-screen set cell records a collision if its pixel was 1 and toggles it; off-screen or clear cells change nothing |
| `Chip8Properties.DecodeWord` | src/lib.rs:163 | the fetched word hi * 256 + lo has family hi/16, X = hi%16, Y = lo/16, N = lo%16, NN = lo, NNN = (hi%16)*256 + lo |
| `Chip8Properties.BitVectorReadsBack` | src/lib.rs:38-44 | read back as a binary number, the bit vector of b is b with its lowest bit cleared |
| `Chip8Properties.BitVectorExample` | src/lib.rs:503-507 | 0b01101110 gives [0,1,1,0,1,1,1,0] |
| `Chip8Properties.LowestBitNeverDrawn` | src/lib.rs:40 | an odd byte draws exactly like the even byte below it |
| `Chip8Properties.UnknownOpcodePanics` | src/lib.rs:166-481 | an opcode panics as unknown iff it matches none of the arms of `executeOpcode` (00E0, 00EE, 1-7, 8XY0-7 and 8XYE, 9-D, EX9E, EXA1, FX07/0A/15/18/1E/29/33/55/65) |
| `Chip8Properties.SkipAdvancesPc` | src/lib.rs:197-223 | 3XNN, 4XNN, 5XY?, 9XY?, EX9E, EXA1 move pc by 4 when their condition holds, by 2 otherwise, and change nothing else |
| `Chip8Properties.RegisterSkipIgnoresLowNibble` | src/lib.rs:215-223 | 5XY? and 9XY? behave the same whatever the low nibble |
| `Chip8Properties.KeySkipOutOfRange` | src/lib.rs:389-404 | EX9E and EXA1 with VX >= 16 fault on that key index |
| `Chip8Properties.CallThenReturn` | src/lib.rs:178-196 | 2NNN pushes pc and jumps to NNN; 00EE then restores sp and resumes 2 past the call |
| `Chip8Properties.ReturnOnEmptyStack` | src/lib.rs:178-183 | 00EE with sp = 0 faults with a stack underflow |
| `Chip8Properties.CallOnFullStack` | src/lib.rs:191-196 | 2NNN with sp = 16 faults on stack slot 16 |
| `Chip8Properties.ReturnPopsStack` | src/lib.rs:178-183 | 00EE with 0 < sp <= 16 decrements sp and sets pc to the top return address + 2, stack contents and all else kept |
| `Chip8Properties.ReturnAboveStack` | src/lib.rs:178-183 | 00EE with sp > 16 faults on stack slot sp - 1 |
| `Chip8Properties.ReturnPastLastAddress` | src/lib.rs:178-183 | 00EE to a return address of 0xFFFE or more faults on `pc += 2` |
| `Chip8Properties.JumpSetsPc` | src/lib.rs:187-190 | 1NNN sets pc to NNN, which lies inside memory, and changes nothing else |
| `Chip8Properties.JumpWithOffsetSetsPc` | src/lib.rs:343-347 | BNNN sets pc to NNN + V0, at most 0xFFF + 0xFF, and changes nothing else |
| `Chip8Properties.SetIndexToAddress` | src/lib.rs:338-342 | ANNN sets index to NNN and moves pc by 2, nothing else |
| `Chip8Properties.AddToIndex` | src/lib.rs:439-444 | FX1E faults iff index + VX > 0xFFFF, and otherwise sets index to the sum and moves pc by 2, nothing else |
| `Chip8Properties.AddSetsCarry` | src/lib.rs:269-281 | VF = 1 iff VX + VY > 255; VX = (VX + VY) mod 256; other registers unchanged |
| `Chip8Properties.SubSetsBorrow` | src/lib.rs:282-295 | VF = 0 iff VY > VX; VX = (VX - VY) mod 256 |
| `Chip8Properties.ReverseSubSetsBorrow` | src/lib.rs:304-317 | VF = 0 iff VX > VY; VX = (VY - VX) mod 256 |
| `Chip8Properties.CopyAndLogicSetRegister` | src/lib.rs:241-268 | 8XY0..8XY3 set VX to VY, VX or VY, VX and VY, VX xor VY; VF, the other registers and everything but pc kept |
| `Chip8Properties.LogicWithItself` | src/lib.rs:248-268 | with X = Y, 8XY3 clears VX while 8XY1 and 8XY2 keep it |
| `Chip8Properties.LogicExamples` | src/lib.rs:631-673 | 0xB or 0xC = 0xF, 0xB and 0xC = 0x8, 0xB xor 0xC = 0x7, as the unit tests expect |
| `Chip8Properties.TopBit` | src/lib.rs:321 | the highest bit of a byte is the byte divided by 0x80 |
| `Chip8Properties.ShiftRightSetsLowBit` | src/lib.rs:296-303 | 8XY6 sets VF to the lowest bit of VX and halves VX, other registers unchanged |
| `Chip8Properties.ShiftLeftSetsHighBit` | src/lib.rs:318-325 | 8XYE sets VF to the highest bit of VX and doubles VX mod 256, other registers unchanged |
| `Chip8Properties.AddIntoFlagLosesCarry` | src/lib.rs:269-281 | 8FY4 leaves VF = carry + VY mod 256, not the carry |
| `Chip8Properties.AddFromFlagReadsCarry` | src/lib.rs:269-281 | 8XF4 adds the fresh carry, not the old VF |
| `Chip8Properties.ShiftRightIntoFlagClearsIt` | src/lib.rs:296-303 | 8F?6 always leaves VF = 0 |
| `Chip8Properties.SubIntoFlag` | src/lib.rs:282-295 | 8FY5 leaves VF = (borrow flag - VY) mod 256, the flag written first |
| `Chip8Properties.SubFromFlag` | src/lib.rs:282-295 | 8XF5 sets VF to the flag and subtracts that fresh flag, not the old VF, from VX |
| `Chip8Properties.ReverseSubIntoFlag` | src/lib.rs:304-317 | 8FY7 leaves VF = (VY - flag) mod 256, the flag written first |
| `Chip8Properties.ReverseSubFromFlag` | src/lib.rs:304-317 | 8XF7 sets VF to the flag and VX to (fresh flag - VX) mod 256 |
| `Chip8Properties.ShiftLeftIntoFlag` | src/lib.rs:318-325 | 8F?E leaves VF at 2 if its top bit was set and 0 otherwise |
| `Chip8Properties.SetRegisterToByte` | src/lib.rs:225-230 | 6XNN sets VX to NN and moves pc by 2, nothing else |
| `Chip8Properties.AddImmediateWraps` | src/lib.rs:231-238 | 7XNN adds mod 256, VX decreases iff the sum overflows, VF untouched |
| `Chip8Properties.RandomIsMasked` | src/lib.rs:348-354 | CXNN sets VX to NN & rnd, moves pc by 2, nothing else |
| `Chip8Properties.HitIffSpriteCell` | src/lib.rs:364-383 | a pixel is toggled iff some set bit of some row lands on it inside the 64x32 grid |
| `Chip8Properties.DrawPixelsTwice` | src/lib.rs:375-380 | drawing the same sprite twice restores the frame buffer |
| `Chip8Properties.SecondDrawCollides` | src/lib.rs:375-379 | redrawing a sprite over its own image collides iff some hit pixel was 0 before the first drawing |
| `Chip8Properties.DrawTwiceRestores` | src/lib.rs:355-386 | DXYN run twice restores the pixels, and the second run collides iff some hit pixel was 0 before the first |
| `Chip8Properties.DrawIndexOverflow` | src/lib.rs:360-364 | DXYN with index + N past 0xFFFF faults on that addition |
| `Chip8Properties.DrawPastMemory` | src/lib.rs:364-366 | DXYN with sprite rows past the end of memory faults at the first address beyond it |
| `Chip8Properties.DrawRaisesFlag` | src/lib.rs:355-386 | a successful DXYN raises the draw flag, moves pc by 2 and changes nothing but the pixels and VF |
| `Chip8Properties.ClearBlanksScreen` | src/lib.rs:170-177 | 00E0 zeroes every pixel, raises the draw flag, moves pc by 2 and keeps everything else |
| `Chip8Properties.BcdStoresDigits` | src/lib.rs:451-459 | FX33 writes digits below 10 whose value is VX at index..index+2 and changes no other byte |
| `Chip8Properties.BcdOutOfRange` | src/lib.rs:451-459 | FX33 with index + 2 past the end of memory faults at the first address beyond it |
| `Chip8Properties.BcdOf255` | src/lib.rs:455-457 | FX33 on 255 stores 2, 5, 5 |
| `Chip8Properties.StoreWritesOnlyItsWindow` | src/lib.rs:460-467 | FX55 writes V0..VX at index..index+X and no other byte |
| `Chip8Properties.StoreThenLoadRestores` | src/lib.rs:460-475 | FX55 then FX65 with the same X gives back every register |
| `Chip8Properties.StoreOutOfRange` | src/lib.rs:460-467 | FX55 past the end of memory faults at the first address beyond it |
| `Chip8Properties.LoadReadsItsWindow` | src/lib.rs:468-475 | FX65 sets V0..VX to memory at index..index+X, keeps the registers above X, memory and all else but pc |
| `Chip8Properties.LoadOutOfRange` | src/lib.rs:468-475 | FX65 past the end of memory faults at the first address beyond it |
| `Chip8Properties.FontGlyphAddress` | src/lib.rs:445-450 | FX29 with VX = d < 16 points index at the five bytes of glyph d |
| `Chip8Properties.WaitWithoutKeyStalls` | src/lib.rs:416-426 | FX0A with keys 0..14 up changes nothing, whatever key 15 is |
| `Chip8Properties.WaitTakesLowestKey` | src/lib.rs:416-426 | FX0A stores the lowest pressed key and moves pc by 2 |
| `Chip8Properties.SetDelayThenTick` | src/lib.rs:427-432 | after a cycle running FX15 the delay timer is VX - 1 (0 if VX is 0) |
| `Chip8Properties.ReadDelayBeforeTick` | src/lib.rs:410-415 | FX07 copies the delay timer as it was before the cycle's tick |
| `Chip8Properties.SetSoundTimer` | src/lib.rs:433-438 | FX18 sets the sound timer to VX and moves pc by 2, delay timer and all else kept |
| `Chip8Properties.SetSoundThenTick` | src/lib.rs:433-438 | after a cycle running FX18 the sound timer is VX - 1 (0 if VX is 0) |
| `Chip8Properties.FaultSkipsTick` | src/lib.rs:151-160 | a fault in fetch or in execute ends the cycle with that fault, before the timers tick |
| `Chip8Properties.InitialStackInMemory` | src/lib.rs:127 | a new machine's stack holds only addresses inside memory |
| `Chip8Properties.ExecuteKeepsPcInRange` | src/lib.rs:166-481 | an instruction at a fetched pc never faults on pc overflow and pushes only addresses inside memory |
| `Chip8Properties.CycleKeepsPcInRange` | src/lib.rs:151-160 | while return addresses lie inside memory, no cycle faults on pc overflow, and the property survives the cycle |
| `Chip8Properties.LoadAndRunSetRegister` | src/lib.rs:592-601 | loading [0x6A, 0x2F] into a new machine and running one cycle gives VA = 0x2F and pc = 514 |

## Left out

- The `Debug` implementation (src/lib.rs:61-113) only formats the state for printing. It is not modelled.
- `loadGame` (src/lib.rs:146-149) is `unimplemented!()` and has no behaviour to model.
- The window, input, ROM loader and main loop (src/graphics.rs, src/input.rs, src/loader.rs, src/main.rs) are
  not part of this model. src/main.rs loads the ROM with `load_hex`, runs `emulate_cycle`, reads the
  graphics, clears `draw_flag` after drawing and reads `make_sound`. These names (`load_hex`,
  `emulate_cycle`, `draw_flag`, `make_sound`) are not defined in src/lib.rs, whose struct has `loadHex`,
  `emulateCycle`, `drawFlag` and no sound flag.
- The random source of CXNN is not modelled. Its byte is the parameter `rnd`, with range 0..254.
- The sound timer's beep is a TODO with no effect, so reaching 1 is not modelled as an event.
- Partial writes before a panic are not modelled. The Rust code can store some bytes before it panics:
  - `loadHex` on a program that is too long;
  - FX33 or FX55 near the end of memory;
  - a DXYN sprite that runs past memory;
  - an arithmetic opcode that writes registers and then overflows pc.

  The model checks each fault first and reports it with the state unchanged. A panic ends the program, so
  no later step can see the difference.
- Release-build wrap-around of `pc += 2`, `index += VX`, `start + n` and `sp -= 1` is not modelled. These are
  faults, as in a debug build.
- The machine has no reset operation in src/lib.rs, so none is modelled. A fresh `Chip8::new()` is the only
  way to start over.
- `Chip8Spec.Execute`: its own contract states only the frame (array sizes, opcode and keys kept). What each
  opcode does is stated by the `Chip8Properties` lemmas (one or more per opcode, from `ClearBlanksScreen`
  and `ReturnPopsStack` to `LoadReadsItsWindow`) and by `Chip8Interpreter.Chip8.ExecuteOpcode`. Which
  opcodes panic as unknown is stated by `UnknownOpcodePanics`.
- `Chip8Spec.ExecSystem`: frame only; behaviour in `ClearBlanksScreen`, `ReturnPopsStack`, `CallThenReturn`,
  `ReturnOnEmptyStack`, `ReturnAboveStack`, `ReturnPastLastAddress` and, for unknown 0NNN,
  `UnknownOpcodePanics`.
- `Chip8Spec.ExecCall`: frame only; behaviour in `CallThenReturn` and `CallOnFullStack`.
- `Chip8Spec.ExecArithmetic`: frame only; behaviour in `CopyAndLogicSetRegister`, `AddSetsCarry`, `SubSetsBorrow`, `ReverseSubSetsBorrow`,
  `ShiftRightSetsLowBit`, `ShiftLeftSetsHighBit`, the flag-register lemmas (`AddIntoFlagLosesCarry`,
  `AddFromFlagReadsCarry`, `SubIntoFlag`, `SubFromFlag`, `ReverseSubIntoFlag`, `ReverseSubFromFlag`,
  `ShiftRightIntoFlagClearsIt`, `ShiftLeftIntoFlag`) and `UnknownOpcodePanics`. The forms with both X and Y
  equal to F are covered only by the definition.
- `Chip8Spec.ExecDraw`: frame only; behaviour in `HitIffSpriteCell`, `DrawTwiceRestores`, `DrawRaisesFlag`,
  `DrawIndexOverflow` and `DrawPastMemory`.
- `Chip8Spec.ExecKeySkip`: frame only; behaviour in `SkipAdvancesPc`, `KeySkipOutOfRange` and
  `UnknownOpcodePanics`.
- `Chip8Spec.ExecMisc`: frame only; behaviour in the FX?? lemmas (`BcdStoresDigits`, `StoreThenLoadRestores`,
  `FontGlyphAddress`, `WaitTakesLowestKey`, `SetDelayThenTick`, `SetSoundTimer`, `AddToIndex`,
  `LoadReadsItsWindow` and others), the faults in `BcdOutOfRange`, `StoreOutOfRange`, `LoadOutOfRange`,
  `AddToIndex` and `UnknownOpcodePanics`.
- `Chip8Spec.SetReg`: frame only; the written register and pc are stated by the lemmas of the opcodes that use
  it: `SetRegisterToByte`, `CopyAndLogicSetRegister`, `AddImmediateWraps`, `RandomIsMasked`,
  `WaitTakesLowestKey` and `ReadDelayBeforeTick`.
- `Chip8Spec.Cycle`: states only that the result is well formed; the order of execute and tick is stated by
  `SetDelayThenTick`, `ReadDelayBeforeTick` and `FaultSkipsTick`.
