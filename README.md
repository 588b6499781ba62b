# CHIP-8 interpreter core in Dafny

A model of the CHIP-8 virtual machine of the `chip8` crate, `src/cpu.rs` and
`src/input.rs`. It covers:

- the emulator state: 4 KiB of memory, sixteen byte registers V0..VF, the
  index register I, the program counter, a 16-slot call stack with its
  pointer, the delay and sound timers, a 320 x 640 screen and a 16-key
  keypad;
- `Emulator::new`, the copy loop of `load_rom`, and `emulator_cycle` with its
  three steps: fetch, decode and dispatch (`process_opcode`), and the timer
  update;
- every opcode method `_0nnn` ... `_fx65`, with their helpers;
- the key translator `process_key`.

The model has two layers:

- **Values.** `Machine` (machine.dfy) is the emulator state as a value.
  `Fetch`, `Execute`, `Process`, `Step`, `Tick` and `Cycle` say what each
  step does to it. Module `Opcode` holds the nibble split, the operand
  getters and the dispatch table as a function `Decode` into an
  `Instruction` datatype. Module `Bits` defines the byte operators `&`, `|`
  and `^` bit by bit, and `!` as `255 - a`, proved to flip every bit.
- **The class.** `Cpu.Emulator` has the fields of the Rust struct: arrays
  for memory, registers, screen, stack and keypad, updated in place. Each
  method is proved to change the state exactly as the value layer says,
  through `Abs()`. The loops of `new`, `load_rom`, `_dxyn`, `_fx55` and
  `_fx65` are loops here too, proved with invariants.

The functions `Execute`, `Process`, `Step` and `Cycle` only compute; their
own contracts say no more than that the machine stays well formed. What
they do is stated by the Emulator methods that implement them and by the
lemmas of module `Properties`.

Module `Properties` proves what the instruction set promises about the
value layer:

- flags of the arithmetic;
- where the program counter goes;
- call/return pairing;
- the drawing semantics, including that drawing twice restores the screen
  and that the second drawing collides exactly where the first one turned
  a pixel on;
- BCD digits and dump/load of registers;
- the timers.

Module `Input` models `process_key` and its key table.

The model follows the code as written, including these departures from the
usual CHIP-8 description:

- the program counter advances by 2 at fetch and by 2 again at the start of
  `process_opcode` (src/cpu.rs:134, src/cpu.rs:138). An ordinary instruction
  at address A therefore continues at A + 4, and 2NNN pushes A + 2;
- 5XY0 skips when Vx != Vy;
- 8XYE stores the raw bit `Vx & 0x80` in VF, not 0 or 1;
- EX9E and EXA1 move to A + 6 whatever the key state;
- FX0A rewinds by 2 only, so it resumes at A + 2 when the key is up. When
  the key is down it writes Vx to itself.

DXYN takes its origin from Vx and Vy and writes the collision flag to VF.
With X or Y equal to F, the first run of a DXYN changes the origin of the
second, so running the same DXYN twice does not restore the screen in
general. DrawTwiceResult covers X and Y other than F.

Where the shifts 8XY6 and 8XYE write VF before shifting Vx, the shift reads
Vx after that write. So with X = F the result is 0.

## Model

| member | source | states |
|---|---|---|
| Opcode.MergedOpcode | src/cpu.rs:45-50 | splitting the merged word gives back the four nibbles it was made from |
| Opcode.ShiftOrIsSum | src/cpu.rs:46-49 | for four nibbles, shifting by 12, 8, 4 and 0 and or-ing is the positional sum |
| Opcode.Split | src/cpu.rs:128-133 | the four nibbles of a word, weighted 0x1000, 0x100, 0x10 and 1, add up to the word |
| Opcode.MaskShiftIsDivMod | src/cpu.rs:128-133 | each mask-and-shift of the fetched word is the corresponding quotient and remainder by 16, 256 or 4096 |
| Opcode.MergeSplit | src/cpu.rs:124-135 | splitting a word and merging the nibbles gives the word back |
| Opcode.N | src/cpu.rs:228-231 | `merged & 0x000F` is the fourth nibble |
| Opcode.NN | src/cpu.rs:234-237 | `merged & 0x00FF` is the third and fourth nibbles |
| Opcode.NNN | src/cpu.rs:240-243 | `merged & 0x0FFF` is below 0x1000 and is the last three nibbles |
| Opcode.Decode | src/cpu.rs:141-184 | exactly the nibble tuples of families 5, 8, 9, E and F with an unlisted low part fall through to `_ => {}` |
| Opcode.DecodeMatchesTable | src/cpu.rs:146-182 | the arm chosen for an opcode has a pattern the opcode matches |
| Opcode.TableDecodes | src/cpu.rs:146-182 | an opcode matching an arm's pattern is dispatched to that arm; the only overlap is 0NNN below 00E0 and 00EE |
| Bits.XorInvolutive | src/cpu.rs:442 | xoring a byte twice with the same value restores it |
| Bits.AndWithinMask | src/cpu.rs:417 | `(r & nn) & !nn == 0` for every byte r |
| Bits.NotIsComplement | src/cpu.rs:416-418 | the complement `255 - a` used for the mask `!nn` is `a ^ 0xFF`, every bit flipped |
| Bits.LowBit | src/cpu.rs:372 | `v & 0x1` is v mod 2 |
| Bits.HighBit | src/cpu.rs:389 | `v & 0x80` is 0x80 when v >= 0x80 and 0 otherwise |
| Machine.Initial | src/cpu.rs:74-97 | the font fills bytes 0..80 and every other byte is 0; pc is 0x200; I, sp, timers, registers, stack, keypad and screen are zero |
| Machine.Blank | src/cpu.rs:256 | every pixel of the cleared screen is 0 |
| Machine.LoadImage | src/cpu.rs:106-110 | image byte i lands at pc + i; every other byte is kept |
| Machine.Fetch | src/cpu.rs:124-135 | the opcode merges to `memory[pc] * 256 + memory[pc + 1]`; pc grows by 2; nothing else changes |
| Machine.OverflowingAdd | src/cpu.rs:352-354 | the sum mod 256, with the overflow bit set iff the sum exceeds 255 |
| Machine.OverflowingSub | src/cpu.rs:362-364 | the difference mod 256, with the overflow bit set iff a < b |
| Machine.BcdDigits | src/cpu.rs:515-519 | three digits below 10 with `100a + 10b + c == v` |
| Machine.DumpedMemory | src/cpu.rs:524-528 | V0..Vx land at I..I+x; all other memory is kept |
| Machine.LoadedRegisters | src/cpu.rs:532-536 | V0..Vx become memory I..I+x; registers above x are kept |
| Machine.DrawSprite | src/cpu.rs:433-445 | a pixel is xor-ed with 1 iff a set sprite bit lands on it, with wrap-around on both axes; every other pixel is kept |
| Machine.ExecuteIgnoresRandom | src/cpu.rs:416-418 | only CXNN depends on the random byte |
| Machine.SkipNext | src/cpu.rs:246-248 | the program counter grows by 2; nothing else changes |
| Machine.Executable | src/cpu.rs:251-536 | no contract of its own: it is the requires of Execute, the stack, `u16`, memory and keypad conditions under which an `_xxxx` method does not panic (listed under Left out) |
| Machine.Execute | src/cpu.rs:251-536 | its own contract states only that the machine stays well formed; what each instruction does is stated by the Properties lemmas (AddCarryResult ... DumpThenLoadRestores, StepProgramCounter, UnmatchedOnlyAdvances) and by the Emulator method (Op00E0 ... OpFX65) that implements it |
| Machine.ExecuteControl | src/cpu.rs:251-308 | states only well-formedness; the control-flow instructions (00E0, 00EE, 0NNN, 1NNN, 2NNN, the skips, BNNN, EX9E, EXA1, FX0A) are stated by StepProgramCounter, CallResult, ReturnResult, ClearScreenResult and the Emulator methods |
| Machine.ExecuteArithmetic | src/cpu.rs:312-419 | states only well-formedness; 6XNN to 8XYE and CXNN are stated by AddCarryResult, SubBorrowResult, SubReverseResult, ShiftRightResult, ShiftLeftResult, RandomWithinMask and the Emulator methods |
| Machine.ExecuteMemory | src/cpu.rs:403-536 | states only well-formedness; ANNN, DXYN and the FX instructions are stated by DrawResult, StoreBcdResult, DumpThenLoadRestores and the Emulator methods |
| Machine.Process | src/cpu.rs:137-185 | states only well-formedness; its effect is stated by StepProgramCounter and UnmatchedOnlyAdvances, and Emulator.ProcessOpcode implements it |
| Machine.Step | src/cpu.rs:115-185 | states only well-formedness; fetch then `process_opcode`, stated by StepProgramCounter and CallThenReturn |
| Machine.Tick | src/cpu.rs:187-198 | each timer drops by 1 when positive and stays 0 otherwise; nothing else changes |
| Machine.Beeps | src/cpu.rs:193-195 | the beep is printed exactly when a running sound timer reaches 0 in this update |
| Machine.Cycle | src/cpu.rs:115-122 | states only well-formedness; Emulator.EmulatorCycle implements it, and TimersCountDown and BeepsOnce state the timer part |
| Properties.AddCarryResult | src/cpu.rs:351-357 | Vx becomes (Vx + Vy) mod 256; for X != F, VF is 1 iff the sum exceeds 255, otherwise 0; other registers and all other state are kept |
| Properties.SubBorrowResult | src/cpu.rs:361-367 | Vx becomes (Vx - Vy) mod 256; for X != F, VF is 1 iff Vx >= Vy, otherwise 0; other registers are kept |
| Properties.SubReverseResult | src/cpu.rs:378-384 | Vx becomes (Vy - Vx) mod 256; for X != F, VF is 1 iff Vy >= Vx, otherwise 0; other registers are kept |
| Properties.ShiftRightResult | src/cpu.rs:371-374 | for X != F, VF is the low bit and Vx is halved; for X = F, VF ends 0 |
| Properties.ShiftLeftResult | src/cpu.rs:388-391 | for X != F, VF is the raw 0x80 bit and Vx doubles mod 256; for X = F, VF ends 0 |
| Properties.RandomWithinMask | src/cpu.rs:416-418 | CXNN leaves no bit of Vx outside NN |
| Properties.StepProgramCounter | src/cpu.rs:134-183 | after any instruction at A the program counter is given by the opcode table: NNN for jumps and calls, V0 + NNN for BNNN, the saved address + 2 for 00EE, A + 6 for a taken skip and for EX9E/EXA1, A + 2 for FX0A with its key up, A + 4 otherwise |
| Properties.UnmatchedOnlyAdvances | src/cpu.rs:183 | an opcode no arm matches changes only the stored opcode and moves pc to A + 4 |
| Properties.CallResult | src/cpu.rs:278-284 | 2NNN at A pushes A + 2, increments sp and jumps to NNN; nothing else changes |
| Properties.ReturnResult | src/cpu.rs:263-266 | 00EE has sp > 0; it decrements sp and resumes at the popped address + 2; nothing else changes |
| Properties.CallThenReturn | src/cpu.rs:263-284 | a call at A followed by a return resumes at A + 4 with the same sp; stack slots below sp, registers, memory, I and the screen are unchanged |
| Properties.HitIsCovered | src/cpu.rs:433-438 | the per-pixel hit test of DrawSprite holds iff some set sprite bit (row j, bit i) lands on the pixel |
| Properties.DrawAtSpritePixel | src/cpu.rs:435-443 | the pixel under row j, bit i is toggled iff that bit is set |
| Properties.DrawKeepsUncovered | src/cpu.rs:433-445 | a pixel no set sprite bit lands on is unchanged |
| Properties.CollidesIffToggledLit | src/cpu.rs:438-441 | the collision test holds iff some toggled pixel was 1 before |
| Properties.DrawTwiceRestores | src/cpu.rs:425-446 | drawing the same sprite at the same place twice restores the screen |
| Properties.SecondDrawCollides | src/cpu.rs:435-442 | drawing the sprite again collides wherever the first drawing turned on a pixel that was off |
| Properties.SecondDrawCollisionWasOff | src/cpu.rs:435-442 | a collision on the redraw is at a pixel the first drawing turned on |
| Properties.SecondDrawCollidesIff | src/cpu.rs:435-442 | the redraw collides iff the first drawing turned on some pixel that was off |
| Properties.DrawTwiceResult | src/cpu.rs:425-446 | DXYN twice with X, Y other than F restores the screen, and the second VF is 1 iff the first drawing turned on a pixel that was off |
| Properties.DrawResult | src/cpu.rs:425-446 | DXYN sets VF to 1 iff a toggled pixel was lit, otherwise 0; the screen becomes DrawSprite; V0..VE, I, memory and the rest are unchanged |
| Properties.ClearScreenResult | src/cpu.rs:255-257 | 00E0 makes every pixel 0 and changes nothing else |
| Properties.StoreBcdResult | src/cpu.rs:514-520 | FX33 writes three decimal digits of Vx at I..I+2, most significant first, and touches no other byte |
| Properties.DumpThenLoadRestores | src/cpu.rs:524-536 | FX55 then FX65 with the same X and I can run and restores every register, with I unchanged |
| Properties.BeepsWhenSoundEnds | src/cpu.rs:192-196 | the beep fires iff the update takes a running sound timer to 0 |
| Properties.TimersCountDown | src/cpu.rs:187-198 | after k updates each timer is t - k when t > k and 0 otherwise, so it never wraps; nothing else changes |
| Properties.BeepsOnce | src/cpu.rs:192-196 | k updates beep once if 0 < sound timer <= k, and otherwise never |
| Cpu.Emulator.constructor | src/cpu.rs:74-97 | the new emulator's state equals Machine.Initial |
| Cpu.Emulator.LoadRom | src/cpu.rs:106-110 | the copy loop leaves memory equal to LoadImage of the old memory; nothing else changes |
| Cpu.Emulator.EmulatorCycle | src/cpu.rs:115-122 | the new state and the beep are Machine.Cycle of the old state |
| Cpu.Emulator.FetchOpcode | src/cpu.rs:124-135 | the new state is Machine.Fetch of the old state |
| Cpu.Emulator.ProcessOpcode | src/cpu.rs:137-185 | the new state is Machine.Process of the old state |
| Cpu.Emulator.UpdateTimer | src/cpu.rs:187-198 | the new state is Tick of the old state; the beep is returned iff the sound timer was 1 |
| Cpu.Emulator.SkipNextInstruction | src/cpu.rs:246-248 | the program counter grows by 2; nothing else changes |
| Cpu.Emulator.Op0NNN | src/cpu.rs:251 | nothing changes |
| Cpu.Emulator.Op00E0 | src/cpu.rs:255-257 | the new state is Execute(ClearScreen) of the old: every pixel 0 |
| Cpu.Emulator.Op00EE | src/cpu.rs:263-266 | the new state is Execute(Return) of the old: pop and resume 2 past the popped address |
| Cpu.Emulator.Op1NNN | src/cpu.rs:271-274 | the new state is Execute(Jump) of the old: pc becomes NNN |
| Cpu.Emulator.Op2NNN | src/cpu.rs:278-284 | the new state is Execute(Call) of the old: push pc - 2, increment sp, jump to NNN |
| Cpu.Emulator.Op3XNN | src/cpu.rs:288-292 | the new state is Execute(SkipIfEqualNN) of the old: skip iff Vx == NN |
| Cpu.Emulator.Op4XNN | src/cpu.rs:296-300 | the new state is Execute(SkipIfNotEqualNN) of the old: skip iff Vx != NN |
| Cpu.Emulator.Op5XY0 | src/cpu.rs:304-308 | the new state is Execute(SkipIfVxVy) of the old: skip iff Vx != Vy |
| Cpu.Emulator.Op6XNN | src/cpu.rs:312-314 | the new state is Execute(SetNN) of the old: Vx becomes NN |
| Cpu.Emulator.Op7XNN | src/cpu.rs:318-320 | the new state is Execute(AddNN) of the old: Vx becomes (Vx + NN) mod 256 |
| Cpu.Emulator.Op8XY0 | src/cpu.rs:324-326 | the new state is Execute(Move) of the old: Vx becomes Vy |
| Cpu.Emulator.Op8XY1 | src/cpu.rs:330-332 | the new state is Execute(Or) of the old: Vx becomes Vx OR Vy |
| Cpu.Emulator.Op8XY2 | src/cpu.rs:336-338 | the new state is Execute(And) of the old: Vx becomes Vx AND Vy |
| Cpu.Emulator.Op8XY3 | src/cpu.rs:342-344 | the new state is Execute(Xor) of the old: Vx becomes Vx XOR Vy |
| Cpu.Emulator.Op8XY4 | src/cpu.rs:351-357 | the new state is Execute(AddCarry) of the old (see AddCarryResult) |
| Cpu.Emulator.Op8XY5 | src/cpu.rs:361-367 | the new state is Execute(SubBorrow) of the old (see SubBorrowResult) |
| Cpu.Emulator.Op8XY6 | src/cpu.rs:371-374 | the new state is Execute(ShiftRight) of the old (see ShiftRightResult) |
| Cpu.Emulator.Op8XY7 | src/cpu.rs:378-384 | the new state is Execute(SubReverse) of the old (see SubReverseResult) |
| Cpu.Emulator.Op8XYE | src/cpu.rs:388-391 | the new state is Execute(ShiftLeft) of the old (see ShiftLeftResult) |
| Cpu.Emulator.Op9XY0 | src/cpu.rs:395-399 | the new state is Execute(SkipIfNotEqualVy) of the old: skip iff Vx != Vy |
| Cpu.Emulator.OpANNN | src/cpu.rs:403-406 | the new state is Execute(SetIndex) of the old: I becomes NNN |
| Cpu.Emulator.OpBNNN | src/cpu.rs:410-412 | the new state is Execute(JumpOffset) of the old: pc becomes V0 + NNN |
| Cpu.Emulator.OpCXNN | src/cpu.rs:416-418 | the new state is Execute(RandomAnd) of the old, for the given random byte |
| Cpu.Emulator.OpDXYN | src/cpu.rs:425-446 | the nested drawing loop leaves the state equal to Execute(Draw) of the old (see DrawResult) |
| Cpu.Emulator.DrawRow | src/cpu.rs:434-444 | one pass of the inner loop toggles exactly the pixels of sprite row j and sets VF iff one of them was lit |
| Cpu.Emulator.OpEX9E | src/cpu.rs:450-456 | the new state is Execute(SkipIfKey) of the old: pc grows by 2 in both branches |
| Cpu.Emulator.OpEXA1 | src/cpu.rs:460-466 | the new state is Execute(SkipIfNotKey) of the old: pc grows by 2 in both branches |
| Cpu.Emulator.OpFX07 | src/cpu.rs:470-472 | the new state is Execute(GetDelay) of the old: Vx becomes the delay timer |
| Cpu.Emulator.OpFX0A | src/cpu.rs:476-483 | the new state is Execute(WaitKey) of the old: pc is rewound by 2 unless key Vx is down |
| Cpu.Emulator.OpFX15 | src/cpu.rs:487-489 | the new state is Execute(SetDelay) of the old: the delay timer becomes Vx |
| Cpu.Emulator.OpFX18 | src/cpu.rs:493-495 | the new state is Execute(SetSound) of the old: the sound timer becomes Vx |
| Cpu.Emulator.OpFX1E | src/cpu.rs:499-501 | the new state is Execute(AddIndex) of the old: I becomes I + Vx |
| Cpu.Emulator.OpFX29 | src/cpu.rs:505-507 | the new state is Execute(FontChar) of the old: I becomes Vx * 5 |
| Cpu.Emulator.OpFX33 | src/cpu.rs:514-520 | the new state is Execute(StoreBcd) of the old (see StoreBcdResult) |
| Cpu.Emulator.OpFX55 | src/cpu.rs:524-528 | the copy loop leaves the state equal to Execute(DumpRegisters) of the old |
| Cpu.Emulator.OpFX65 | src/cpu.rs:532-536 | the copy loop leaves the state equal to Execute(LoadRegisters) of the old |
| Input.KeySlot | src/input.rs:14-35 | a listed key maps to the slot whose layout entry is that key; any other key maps to nothing |
| Input.EverySlotBound | src/input.rs:15-33 | each of the 16 slots has exactly one key, and that key maps back to it: the table is a bijection |
| Input.Pressed | src/input.rs:9-12 | the slot value is true iff the key is down |
| Input.PressKey | src/input.rs:8-36 | slot k becomes `state == Down` when the key is slot k's key, and is kept otherwise; an unlisted key changes nothing |
| Input.LastEventWins | src/input.rs:8-36 | two events on the same key leave what the second alone leaves; repeating an event changes nothing more |
| Input.DistinctKeysCommute | src/input.rs:14-35 | events on different keys can be applied in either order |
| Input.ProcessKey | src/input.rs:8-36 | the keypad becomes PressKey of the old keypad; nothing else in the emulator changes |

## Left out

- Opening and reading the ROM file in `load_rom` is not modelled, nor are its
  error results. Only the copy of a byte sequence to `memory[pc + i]` is
  modelled. LoadRom requires that the image fits in memory; the original
  does not check this.
- The random byte of CXNN is a parameter; no generator is modelled.
- The beep's `println!` becomes a returned boolean (UpdateTimer,
  EmulatorCycle, Machine.Cycle).
- Panics are preconditions. Machine.Executable collects those of the
  instructions; the fetch bound is in the requires of Machine.Fetch and in
  Machine.CanStep, and the second `pc += 2` in Machine.CanProcess. These are:
  - stack underflow in 00EE and overflow in 2NNN;
  - memory indexing past 4096 (fetch, DXYN, FX33, FX55, FX65);
  - a keypad index above 15 (EX9E, EXA1, FX0A);
  - `u16` overflow or underflow of the program counter and the index
    register.
  The model says nothing about what happens instead of a panic.
- Op7XNN: models the wrap-around of a release build. A debug build panics
  when Vx + NN exceeds 255.
- Pixel values are not restricted to 0 and 1: the screen holds bytes, as in
  the original. DrawTwiceRestores holds for any byte values.
- Rendering the screen, the driver loop that paces cycles and sharing the
  keypad between threads are outside these files.
- `get_mut_register_vx` is not a separate member: the methods write
  `registers[x]` directly. `get_register_vx` and `get_register_vy` are
  Emulator.GetRegisterVx/Vy and Machine.Vx/Vy, without contracts of their
  own.
