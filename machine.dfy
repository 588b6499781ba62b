/** The CHIP-8 machine state as a value, and the effect of each step of the
    emulator on it: fetching an opcode, executing one instruction, updating
    the timers, loading a program image. The `Emulator` class in module Cpu
    is proved to follow these functions; the lemmas in module Properties
    state what they guarantee. */
module Machine {
  import opened Bits
  import opened Opcode

  const SCREEN_WIDTH: nat := 640
  const SCREEN_HEIGHT: nat := 320
  const MEMORY_SIZE: nat := 4096
  const REGISTER_SIZE: nat := 16
  const STACK_SIZE: nat := 16
  const KEYPAD_SIZE: nat := 16
  /** Where programs are loaded and where execution starts. */
  const PROGRAM_START: u16 := 0x200
  /** The flag register VF. */
  const VF: nibble := 0xF

  /** The built-in font: sixteen 5-byte glyphs for the digits 0-F. */
  const FONTSET: seq<u8> := [
    0xF0, 0x90, 0x90, 0x90, 0xF0, // 0
    0x20, 0x60, 0x20, 0x20, 0x70, // 1
    0xF0, 0x10, 0xF0, 0x80, 0xF0, // 2
    0xF0, 0x10, 0xF0, 0x10, 0xF0, // 3
    0x90, 0x90, 0xF0, 0x10, 0x10, // 4
    0xF0, 0x80, 0xF0, 0x10, 0xF0, // 5
    0xF0, 0x80, 0xF0, 0x90, 0xF0, // 6
    0xF0, 0x10, 0x20, 0x40, 0x40, // 7
    0xF0, 0x90, 0xF0, 0x90, 0xF0, // 8
    0xF0, 0x90, 0xF0, 0x10, 0xF0, // 9
    0xF0, 0x90, 0xF0, 0x90, 0x90, // A
    0xE0, 0x90, 0xE0, 0x90, 0xE0, // B
    0xF0, 0x80, 0x80, 0x80, 0xF0, // C
    0xE0, 0x90, 0x90, 0x90, 0xE0, // D
    0xF0, 0x80, 0xF0, 0x80, 0xF0, // E
    0xF0, 0x80, 0xF0, 0x80, 0x80  // F
  ]

  /** The screen: SCREEN_HEIGHT rows of SCREEN_WIDTH pixels, each 0 or 1 in
      practice (a `u8` in the original). */
  type Screen = seq<seq<u8>>

  predicate IsScreen(s: Screen) {
    |s| == SCREEN_HEIGHT && forall y :: 0 <= y < |s| ==> |s[y]| == SCREEN_WIDTH
  }

  /** The all-zero screen that `new` and 00E0 install. */
  function Blank(): (s: Screen)
    ensures IsScreen(s)
    ensures forall y, x :: 0 <= y < SCREEN_HEIGHT && 0 <= x < SCREEN_WIDTH ==> s[y][x] == 0
  {
    seq(SCREEN_HEIGHT, _ => seq(SCREEN_WIDTH, _ => 0))
  }

  /** Every field of the emulator, as a value. */
  datatype Machine = Machine(
    opcode: OpCode,
    memory: seq<u8>,
    registers: seq<u8>,
    indexRegister: u16,
    programCounter: u16,
    gfx: Screen,
    delayTimer: u8,
    soundTimer: u8,
    stack: seq<u16>,
    stackPointer: nat,
    keypad: seq<bool>)

  /** The sizes of the fixed arrays, and the stack pointer within the stack
      (a call with a full stack is excluded by Executable). */
  predicate WellFormed(m: Machine) {
    && |m.memory| == MEMORY_SIZE
    && |m.registers| == REGISTER_SIZE
    && IsScreen(m.gfx)
    && |m.stack| == STACK_SIZE
    && m.stackPointer <= STACK_SIZE
    && |m.keypad| == KEYPAD_SIZE
  }

  /** `Emulator::new()`: memory holds the font in its first 80 bytes and
      zeros elsewhere, execution starts at 0x200, everything else is zero. */
  function Initial(): (m: Machine)
    ensures WellFormed(m)
    ensures forall a :: 0 <= a < MEMORY_SIZE ==> m.memory[a] == if a < |FONTSET| then FONTSET[a] else 0
    ensures m.programCounter == PROGRAM_START && m.indexRegister == 0 && m.stackPointer == 0
    ensures m.delayTimer == 0 && m.soundTimer == 0
    ensures forall r :: 0 <= r < REGISTER_SIZE ==> m.registers[r] == 0
    ensures forall d :: 0 <= d < STACK_SIZE ==> m.stack[d] == 0
    ensures forall k :: 0 <= k < KEYPAD_SIZE ==> !m.keypad[k]
    ensures forall y, x :: 0 <= y < SCREEN_HEIGHT && 0 <= x < SCREEN_WIDTH ==> m.gfx[y][x] == 0
  {
    Machine(
      OpCode(0, 0, 0, 0),
      FONTSET + seq(MEMORY_SIZE - |FONTSET|, _ => 0),
      seq(REGISTER_SIZE, _ => 0),
      0,
      PROGRAM_START,
      Blank(),
      0,
      0,
      seq(STACK_SIZE, _ => 0),
      0,
      seq(KEYPAD_SIZE, _ => false))
  }

  /** The memory after copying a program image to `start`, byte `i` of the
      image to address `start + i`. */
  function LoadImage(memory: seq<u8>, start: nat, image: seq<u8>): (r: seq<u8>)
    requires start + |image| <= |memory|
    ensures |r| == |memory|
    ensures forall i :: 0 <= i < |image| ==> r[start + i] == image[i]
    ensures forall a :: 0 <= a < |memory| && !(start <= a < start + |image|) ==> r[a] == memory[a]
  {
    memory[..start] + image + memory[start + |image|..]
  }

  // ---- fetch ----

  /** The word at the program counter, high byte first. */
  function WordAt(m: Machine, address: nat): (w: u16)
    requires WellFormed(m) && address + 1 < MEMORY_SIZE
  {
    (m.memory[address] as int) * 0x100 + m.memory[address + 1]
  }

  /** `fetch_opcode`: reads `memory[pc]` as the high byte and `memory[pc+1]`
      as the low byte, keeps the word split into nibbles and advances the
      program counter by 2. */
  function Fetch(m: Machine): (r: Machine)
    requires WellFormed(m) && m.programCounter + 1 < MEMORY_SIZE
    ensures WellFormed(r)
    ensures MergedOpcode(r.opcode) == (m.memory[m.programCounter] as int) * 0x100 + m.memory[m.programCounter + 1]
    ensures r.programCounter == m.programCounter + 2
    ensures r == m.(opcode := r.opcode, programCounter := r.programCounter)
  {
    MergeSplit(WordAt(m, m.programCounter));
    m.(opcode := Split(WordAt(m, m.programCounter)), programCounter := m.programCounter + 2)
  }

  // ---- operand getters and small updates ----

  /** `get_register_vx`. */
  function Vx(m: Machine): u8
    requires WellFormed(m)
  {
    m.registers[m.opcode.second]
  }

  /** `get_register_vy`. */
  function Vy(m: Machine): u8
    requires WellFormed(m)
  {
    m.registers[m.opcode.third]
  }

  function SetVx(m: Machine, v: u8): (r: Machine)
    requires WellFormed(m)
    ensures WellFormed(r)
  {
    m.(registers := m.registers[m.opcode.second := v])
  }

  function SetFlag(m: Machine, v: u8): (r: Machine)
    requires WellFormed(m)
    ensures WellFormed(r)
  {
    m.(registers := m.registers[VF := v])
  }

  /** Whether a value computed from `u16` operands stays a `u16` (the
      original panics on overflow). */
  predicate FitsU16(v: int) {
    v < 0x1_0000
  }

  /** `skip_next_instruction`: the program counter moves past one more
      instruction and nothing else changes. */
  function SkipNext(m: Machine): (r: Machine)
    requires FitsU16(m.programCounter + 2)
    ensures r.programCounter == m.programCounter + 2
    ensures r == m.(programCounter := r.programCounter)
  {
    m.(programCounter := m.programCounter + 2)
  }

  /** Rust's `u8::overflowing_add`: the wrapped sum and whether it wrapped. */
  function OverflowingAdd(a: u8, b: u8): (r: (u8, bool))
    ensures r.0 == (a + b) % 0x100
    ensures r.1 <==> a + b > 0xFF
  {
    if a + b > 0xFF then (a + b - 0x100, true) else (a + b, false)
  }

  /** Rust's `u8::overflowing_sub`: the wrapped difference and whether it
      borrowed. */
  function OverflowingSub(a: u8, b: u8): (r: (u8, bool))
    ensures r.0 == (a - b) % 0x100
    ensures r.1 <==> a < b
  {
    if a < b then (a - b + 0x100, true) else (a - b, false)
  }

  /** The three decimal digits FX33 stores: hundreds, tens, ones. */
  function BcdDigits(v: u8): (d: (u8, u8, u8))
    ensures d.0 * 100 + d.1 * 10 + d.2 == v
    ensures d.0 < 10 && d.1 < 10 && d.2 < 10
  {
    (v / 100, (v / 10) % 10, v % 10)
  }

  /** FX55: registers V0..Vx copied to memory[I..I+x]. */
  function DumpedMemory(memory: seq<u8>, registers: seq<u8>, index: nat, x: nibble): (r: seq<u8>)
    requires |registers| == REGISTER_SIZE && index + x < |memory|
    ensures |r| == |memory|
    ensures forall i :: 0 <= i <= x ==> r[index + i] == registers[i]
    ensures forall a :: 0 <= a < |memory| && !(index <= a <= index + x) ==> r[a] == memory[a]
  {
    memory[..index] + registers[..x + 1] + memory[index + x + 1..]
  }

  /** FX65: registers V0..Vx filled from memory[I..I+x]. */
  function LoadedRegisters(registers: seq<u8>, memory: seq<u8>, index: nat, x: nibble): (r: seq<u8>)
    requires |registers| == REGISTER_SIZE && index + x < |memory|
    ensures |r| == REGISTER_SIZE
    ensures forall i :: 0 <= i <= x ==> r[i] == memory[index + i]
    ensures forall i :: x < i < REGISTER_SIZE ==> r[i] == registers[i]
  {
    memory[index..index + x + 1] + registers[x + 1..]
  }

  // ---- sprites ----

  /** Subtracting the origin modulo the screen size undoes adding it. */
  lemma ModShiftBack(a: int, j: int, n: int)
    requires n > 0 && 0 <= j < n
    ensures ((a + j) % n - a) % n == j
  {
    var q := (a + j) / n;
    assert (a + j) % n - a == j - n * q;
    ModMultiple(j, q, n);
  }

  /** Adding the origin back modulo the screen size returns to the pixel. */
  lemma ModShiftForward(a: int, y: int, n: int)
    requires n > 0 && 0 <= y < n
    ensures (a + (y - a) % n) % n == y
  {
    var q := (y - a) / n;
    assert a + (y - a) % n == y - n * q;
    ModMultiple(y, q, n);
  }

  lemma ModMultiple(j: int, q: int, n: int)
    requires n > 0 && 0 <= j < n
    ensures (j - n * q) % n == j
  {
    assert j - n * q == n * -q + j;
    DivModUnique(j - n * q, n, -q, j);
  }

  /** Whether the pixel at row `y`, column `x` lies under a set bit of the
      sprite drawn at (vx, vy): the sprite row and column it would come
      from are recovered by subtracting the origin modulo the screen size. */
  predicate SpriteHit(sprite: seq<u8>, vx: u8, vy: u8, y: int, x: int) {
    var j := (y - vy) % SCREEN_HEIGHT;
    var i := (x - vx) % SCREEN_WIDTH;
    j < |sprite| && i < 8 && BitSet(sprite[j], i)
  }

  /** DXYN's effect on the screen: every pixel under a set sprite bit is
      xor-ed with 1, every other pixel is kept. */
  function DrawSprite(screen: Screen, sprite: seq<u8>, vx: u8, vy: u8): (r: Screen)
    requires IsScreen(screen)
    ensures IsScreen(r)
    ensures forall y, x :: 0 <= y < SCREEN_HEIGHT && 0 <= x < SCREEN_WIDTH ==>
      r[y][x] == if SpriteHit(sprite, vx, vy, y, x) then Xor8(screen[y][x], 1) else screen[y][x]
  {
    seq(SCREEN_HEIGHT, y requires 0 <= y < SCREEN_HEIGHT =>
      seq(SCREEN_WIDTH, x requires 0 <= x < SCREEN_WIDTH =>
        if SpriteHit(sprite, vx, vy, y, x) then Xor8(screen[y][x], 1) else screen[y][x]))
  }

  /** Whether drawing finds a set pixel under a set sprite bit: sprite row
      `j`, bit `i` lands on pixel ((vy + j) % height, (vx + i) % width). */
  predicate Collides(screen: Screen, sprite: seq<u8>, vx: u8, vy: u8)
    requires IsScreen(screen)
  {
    exists j, i :: 0 <= j < |sprite| && 0 <= i < 8 && BitSet(sprite[j], i) &&
      screen[(vy + j) % SCREEN_HEIGHT][(vx + i) % SCREEN_WIDTH] == 1
  }

  // ---- one instruction ----

  /** What an instruction needs so that the original does not panic: no
      stack underflow or overflow, no `u16` overflow or underflow of the
      program counter or the index register, no memory index past the end,
      no keypad index past 15. */
  predicate Executable(m: Machine, ins: Instruction)
    requires WellFormed(m)
  {
    match ins
    case Return =>
      m.stackPointer > 0 && FitsU16(m.stack[m.stackPointer - 1] as int + 2)
    case Call =>
      m.stackPointer < STACK_SIZE && m.programCounter >= 2
    case SkipIfEqualNN =>
      Vx(m) == NN(m.opcode) ==> FitsU16(m.programCounter + 2)
    case SkipIfNotEqualNN =>
      Vx(m) != NN(m.opcode) ==> FitsU16(m.programCounter + 2)
    case SkipIfVxVy =>
      Vx(m) != Vy(m) ==> FitsU16(m.programCounter + 2)
    case SkipIfNotEqualVy =>
      Vx(m) != Vy(m) ==> FitsU16(m.programCounter + 2)
    case Draw =>
      m.indexRegister + N(m.opcode) <= MEMORY_SIZE
    case SkipIfKey =>
      Vx(m) < KEYPAD_SIZE && FitsU16(m.programCounter + 2)
    case SkipIfNotKey =>
      Vx(m) < KEYPAD_SIZE && FitsU16(m.programCounter + 2)
    case WaitKey =>
      m.programCounter >= 2 && Vx(m) < KEYPAD_SIZE
    case AddIndex =>
      FitsU16(m.indexRegister + Vx(m))
    case StoreBcd =>
      m.indexRegister + 2 < MEMORY_SIZE
    case DumpRegisters =>
      m.indexRegister + m.opcode.second < MEMORY_SIZE
    case LoadRegisters =>
      m.indexRegister + m.opcode.second < MEMORY_SIZE
    case _ => true
  }

  /** The effect of one instruction (the `_xxxx` methods), on a machine whose
      program counter has already been advanced past the instruction twice.
      `random` is the byte CXNN obtains from the random number generator.
      The instructions are grouped as in the opcode table: control flow,
      register arithmetic, and the instructions on the index register,
      memory, screen and timers. */
  function Execute(m: Machine, ins: Instruction, random: u8): (r: Machine)
    requires WellFormed(m) && Executable(m, ins)
    ensures WellFormed(r)
  {
    match ins
    case ClearScreen | Return | SysCall | Jump | Call | SkipIfEqualNN | SkipIfNotEqualNN
      | SkipIfVxVy | SkipIfNotEqualVy | JumpOffset | SkipIfKey | SkipIfNotKey | WaitKey =>
      ExecuteControl(m, ins)
    case SetNN | AddNN | Move | Or | And | Xor | AddCarry | SubBorrow | ShiftRight
      | SubReverse | ShiftLeft | RandomAnd =>
      ExecuteArithmetic(m, ins, random)
    case SetIndex | Draw | GetDelay | SetDelay | SetSound | AddIndex | FontChar
      | StoreBcd | DumpRegisters | LoadRegisters =>
      ExecuteMemory(m, ins)
    case Unmatched => m
  }

  /** DXYN through `Execute`: the sprite is the N bytes from I on, VF says
      whether drawing it toggled a lit pixel. */
  lemma ExecuteDraw(m: Machine)
    requires WellFormed(m) && Executable(m, Draw)
    ensures var sprite := m.memory[m.indexRegister..m.indexRegister + N(m.opcode)];
      Execute(m, Draw, 0) ==
        m.(registers := m.registers[VF := if Collides(m.gfx, sprite, Vx(m), Vy(m)) then 1 else 0],
           gfx := DrawSprite(m.gfx, sprite, Vx(m), Vy(m)))
  {}

  /** Only CXNN depends on the random byte. */
  lemma ExecuteIgnoresRandom(m: Machine, ins: Instruction, random: u8)
    requires WellFormed(m) && Executable(m, ins)
    ensures ins != RandomAnd ==> Execute(m, ins, random) == Execute(m, ins, 0)
  {}

  /** Screen clearing, jumps, calls, returns and skips. */
  function ExecuteControl(m: Machine, ins: Instruction): (r: Machine)
    requires WellFormed(m) && Executable(m, ins)
    ensures WellFormed(r)
  {
    match ins
    case ClearScreen => m.(gfx := Blank())
    case Return =>
      m.(stackPointer := m.stackPointer - 1,
         programCounter := m.stack[m.stackPointer - 1] + 2)
    case Jump => m.(programCounter := NNN(m.opcode))
    case Call =>
      m.(stack := m.stack[m.stackPointer := m.programCounter - 2],
         stackPointer := m.stackPointer + 1,
         programCounter := NNN(m.opcode))
    case SkipIfEqualNN => if Vx(m) == NN(m.opcode) then SkipNext(m) else m
    case SkipIfNotEqualNN => if Vx(m) != NN(m.opcode) then SkipNext(m) else m
    // as written: the skip happens when the registers differ
    case SkipIfVxVy => if Vx(m) != Vy(m) then SkipNext(m) else m
    case SkipIfNotEqualVy => if Vx(m) != Vy(m) then SkipNext(m) else m
    case JumpOffset => m.(programCounter := m.registers[0] + NNN(m.opcode))
    // both branches advance the program counter
    case SkipIfKey =>
      if m.keypad[Vx(m)] then SkipNext(m) else m.(programCounter := m.programCounter + 2)
    case SkipIfNotKey =>
      if !m.keypad[Vx(m)] then SkipNext(m) else m.(programCounter := m.programCounter + 2)
    // rewinds by 2 only; `Vx = Vx` when the key is down
    case WaitKey =>
      var rewound := m.(programCounter := m.programCounter - 2);
      if rewound.keypad[Vx(rewound)] then
        SetVx(rewound, Vx(rewound)).(programCounter := rewound.programCounter + 2)
      else rewound
    // 0NNN, and the instructions of the other groups
    case _ => m
  }

  /** 6XNN, 7XNN, the 8XY_ family and CXNN. */
  function ExecuteArithmetic(m: Machine, ins: Instruction, random: u8): (r: Machine)
    requires WellFormed(m)
    ensures WellFormed(r)
  {
    match ins
    case SetNN => SetVx(m, NN(m.opcode))
    // `+=` on u8, taken as wrapping
    case AddNN => SetVx(m, (Vx(m) + NN(m.opcode)) % 0x100)
    case Move => SetVx(m, Vy(m))
    case Or => SetVx(m, Or8(Vx(m), Vy(m)))
    case And => SetVx(m, And8(Vx(m), Vy(m)))
    case Xor => SetVx(m, Xor8(Vx(m), Vy(m)))
    case AddCarry =>
      var sum := OverflowingAdd(Vx(m), Vy(m));
      SetVx(SetFlag(m, if sum.1 then 1 else 0), sum.0)
    case SubBorrow =>
      var diff := OverflowingSub(Vx(m), Vy(m));
      SetVx(SetFlag(m, if diff.1 then 0 else 1), diff.0)
    // the shifts read Vx again after VF has been written
    case ShiftRight =>
      var flagged := SetFlag(m, And8(Vx(m), 1));
      SetVx(flagged, Vx(flagged) / 2)
    case SubReverse =>
      var diff := OverflowingSub(Vy(m), Vx(m));
      SetVx(SetFlag(m, if diff.1 then 0 else 1), diff.0)
    case ShiftLeft =>
      var flagged := SetFlag(m, And8(Vx(m), 0x80));
      SetVx(flagged, (Vx(flagged) * 2) % 0x100)
    case RandomAnd => SetVx(m, And8(random, NN(m.opcode)))
    case _ => m
  }

  /** The index register, sprites, timers, BCD and register dump/load. */
  function ExecuteMemory(m: Machine, ins: Instruction): (r: Machine)
    requires WellFormed(m) && Executable(m, ins)
    ensures WellFormed(r)
  {
    match ins
    case SetIndex => m.(indexRegister := NNN(m.opcode))
    case Draw =>
      var sprite := m.memory[m.indexRegister..m.indexRegister + N(m.opcode)];
      m.(registers := m.registers[VF := if Collides(m.gfx, sprite, Vx(m), Vy(m)) then 1 else 0],
         gfx := DrawSprite(m.gfx, sprite, Vx(m), Vy(m)))
    case GetDelay => SetVx(m, m.delayTimer)
    case SetDelay => m.(delayTimer := Vx(m))
    case SetSound => m.(soundTimer := Vx(m))
    case AddIndex => m.(indexRegister := m.indexRegister + Vx(m))
    case FontChar => m.(indexRegister := Vx(m) * 5)
    case StoreBcd =>
      var digits := BcdDigits(Vx(m));
      var i := m.indexRegister;
      m.(memory := m.memory[i := digits.0][i + 1 := digits.1][i + 2 := digits.2])
    case DumpRegisters =>
      m.(memory := DumpedMemory(m.memory, m.registers, m.indexRegister, m.opcode.second))
    case LoadRegisters =>
      m.(registers := LoadedRegisters(m.registers, m.memory, m.indexRegister, m.opcode.second))
    case _ => m
  }

  // ---- decode and dispatch, timers, the whole cycle ----

  /** `process_opcode` may run: the second advance of the program counter
      fits in a `u16` and the decoded instruction can execute. */
  predicate CanProcess(m: Machine)
    requires WellFormed(m)
  {
    FitsU16(m.programCounter + 2) &&
    Executable(m.(programCounter := m.programCounter + 2), Decode(m.opcode))
  }

  /** `process_opcode`: advance the program counter by 2 once more, then
      execute the instruction the stored opcode decodes to. */
  function Process(m: Machine, random: u8): (r: Machine)
    requires WellFormed(m) && CanProcess(m)
    ensures WellFormed(r)
  {
    Execute(m.(programCounter := m.programCounter + 2), Decode(m.opcode), random)
  }

  /** Fetch and execute one instruction may run without a panic. */
  predicate CanStep(m: Machine)
    requires WellFormed(m)
  {
    m.programCounter + 1 < MEMORY_SIZE && CanProcess(Fetch(m))
  }

  /** Fetch followed by `process_opcode`. */
  function Step(m: Machine, random: u8): (r: Machine)
    requires WellFormed(m) && CanStep(m)
    ensures WellFormed(r)
  {
    Process(Fetch(m), random)
  }

  /** `update_timer`: each timer decreases by one unless it is zero. */
  function Tick(m: Machine): (r: Machine)
    ensures r == m.(delayTimer := r.delayTimer, soundTimer := r.soundTimer)
    ensures r.delayTimer == if m.delayTimer > 0 then m.delayTimer - 1 else 0
    ensures r.soundTimer == if m.soundTimer > 0 then m.soundTimer - 1 else 0
  {
    m.(delayTimer := if m.delayTimer > 0 then m.delayTimer - 1 else m.delayTimer,
       soundTimer := if m.soundTimer > 0 then m.soundTimer - 1 else m.soundTimer)
  }

  /** `update_timer` prints its beep when the sound timer is about to go
      from 1 to 0: exactly when a running sound timer runs out. */
  predicate Beeps(m: Machine)
    ensures Beeps(m) <==> m.soundTimer > 0 && Tick(m).soundTimer == 0
  {
    m.soundTimer == 1
  }

  /** `emulator_cycle`: fetch, execute, update the timers; the boolean is
      the beep. */
  function Cycle(m: Machine, random: u8): (r: (Machine, bool))
    requires WellFormed(m) && CanStep(m)
    ensures WellFormed(r.0)
  {
    var executed := Step(m, random);
    (Tick(executed), Beeps(executed))
  }
}
