/** The `Emulator` of the CHIP-8 interpreter as a class whose fields are
    updated in place: fixed-size arrays for memory, registers, screen,
    stack and keypad, and scalar fields for the opcode, I, the program
    counter, the timers and the stack pointer. Every method is proved to
    change the state exactly as the corresponding function of module
    Machine says, through `Abs()`, the state as a value. */
module Cpu {
  import opened Bits
  import opened Opcode
  import opened Machine

  // ---- the row-by-row drawing loop of DXYN, as it progresses ----

  /** Whether pixel (y, x) has already been toggled when the drawing loop
      reaches row `j`, bit `i` of the sprite. */
  ghost predicate DrawnBefore(sprite: seq<u8>, vx: u8, vy: u8, j: int, i: int, y: int, x: int) {
    var jj := (y - vy) % SCREEN_HEIGHT;
    var ii := (x - vx) % SCREEN_WIDTH;
    (jj < j || (jj == j && ii < i)) && jj < |sprite| && ii < 8 && BitSet(sprite[jj], ii)
  }

  /** Whether the drawing loop has met a lit pixel under a set sprite bit
      before row `j`, bit `i`. */
  ghost predicate CollidedBefore(screen: Screen, sprite: seq<u8>, vx: u8, vy: u8, j: int, i: int)
    requires IsScreen(screen)
  {
    exists jj, ii :: 0 <= jj < |sprite| && 0 <= ii < 8 && (jj < j || (jj == j && ii < i)) &&
      BitSet(sprite[jj], ii) && screen[(vy + jj) % SCREEN_HEIGHT][(vx + ii) % SCREEN_WIDTH] == 1
  }

  /** Visiting row `j`, bit `i` adds exactly the pixel that bit lands on,
      and only if the bit is set; that pixel was not toggled before. */
  lemma DrawnStep(sprite: seq<u8>, vx: u8, vy: u8, j: int, i: int)
    requires |sprite| <= SCREEN_HEIGHT && 0 <= j < |sprite| && 0 <= i < 8
    ensures !DrawnBefore(sprite, vx, vy, j, i, (vy + j) % SCREEN_HEIGHT, (vx + i) % SCREEN_WIDTH)
    ensures forall y, x :: 0 <= y < SCREEN_HEIGHT && 0 <= x < SCREEN_WIDTH ==>
      (DrawnBefore(sprite, vx, vy, j, i + 1, y, x) <==>
        DrawnBefore(sprite, vx, vy, j, i, y, x) ||
        (y == (vy + j) % SCREEN_HEIGHT && x == (vx + i) % SCREEN_WIDTH && BitSet(sprite[j], i)))
  {
    ModShiftBack(vy, j, SCREEN_HEIGHT);
    ModShiftBack(vx, i, SCREEN_WIDTH);
    forall y, x | 0 <= y < SCREEN_HEIGHT && 0 <= x < SCREEN_WIDTH
      ensures DrawnBefore(sprite, vx, vy, j, i + 1, y, x) <==>
        DrawnBefore(sprite, vx, vy, j, i, y, x) ||
        (y == (vy + j) % SCREEN_HEIGHT && x == (vx + i) % SCREEN_WIDTH && BitSet(sprite[j], i))
    {
      ModShiftForward(vy, y, SCREEN_HEIGHT);
      ModShiftForward(vx, x, SCREEN_WIDTH);
    }
  }

  /** Visiting row `j`, bit `i` finds a collision exactly when the bit is
      set and the pixel it lands on was lit. */
  lemma CollidedStep(screen: Screen, sprite: seq<u8>, vx: u8, vy: u8, j: int, i: int)
    requires IsScreen(screen) && 0 <= j < |sprite| && 0 <= i < 8
    ensures CollidedBefore(screen, sprite, vx, vy, j, i + 1) <==>
      CollidedBefore(screen, sprite, vx, vy, j, i) ||
      (BitSet(sprite[j], i) && screen[(vy + j) % SCREEN_HEIGHT][(vx + i) % SCREEN_WIDTH] == 1)
  {
    if CollidedBefore(screen, sprite, vx, vy, j, i + 1) {
      var jj, ii :| 0 <= jj < |sprite| && 0 <= ii < 8 && (jj < j || (jj == j && ii < i + 1)) &&
        BitSet(sprite[jj], ii) && screen[(vy + jj) % SCREEN_HEIGHT][(vx + ii) % SCREEN_WIDTH] == 1;
      if jj < j || ii < i {
        assert CollidedBefore(screen, sprite, vx, vy, j, i);
      }
    }
    if BitSet(sprite[j], i) && screen[(vy + j) % SCREEN_HEIGHT][(vx + i) % SCREEN_WIDTH] == 1 {
      assert CollidedBefore(screen, sprite, vx, vy, j, i + 1);
    }
  }

  /** Finishing row `j` is starting row `j + 1`. */
  lemma CollidedRowEnd(screen: Screen, sprite: seq<u8>, vx: u8, vy: u8, j: int)
    requires IsScreen(screen)
    ensures CollidedBefore(screen, sprite, vx, vy, j, 8) <==> CollidedBefore(screen, sprite, vx, vy, j + 1, 0)
  {
    if CollidedBefore(screen, sprite, vx, vy, j + 1, 0) {
      var jj, ii :| 0 <= jj < |sprite| && 0 <= ii < 8 && (jj < j + 1 || (jj == j + 1 && ii < 0)) &&
        BitSet(sprite[jj], ii) && screen[(vy + jj) % SCREEN_HEIGHT][(vx + ii) % SCREEN_WIDTH] == 1;
      assert CollidedBefore(screen, sprite, vx, vy, j, 8);
    }
  }

  /** After the last row, the toggled pixels are exactly those under a set
      sprite bit. */
  lemma DrawnAll(sprite: seq<u8>, vx: u8, vy: u8)
    ensures forall y, x :: DrawnBefore(sprite, vx, vy, |sprite|, 0, y, x) == SpriteHit(sprite, vx, vy, y, x)
  {}

  /** After the last row, a collision was met exactly when the sprite
      collides with the screen it was drawn on. */
  lemma CollidedAll(screen: Screen, sprite: seq<u8>, vx: u8, vy: u8)
    requires IsScreen(screen)
    ensures CollidedBefore(screen, sprite, vx, vy, |sprite|, 0) == Collides(screen, sprite, vx, vy)
  {
    if Collides(screen, sprite, vx, vy) {
      var j, i :| 0 <= j < |sprite| && 0 <= i < 8 && BitSet(sprite[j], i) &&
        screen[(vy + j) % SCREEN_HEIGHT][(vx + i) % SCREEN_WIDTH] == 1;
      assert CollidedBefore(screen, sprite, vx, vy, |sprite|, 0);
    }
  }

  class Emulator {
    var opcode: OpCode
    const memory: array<u8>
    const registers: array<u8>
    var indexRegister: u16
    var programCounter: u16
    const gfx: array2<u8>
    var delayTimer: u8
    var soundTimer: u8
    const stack: array<u16>
    var stackPointer: nat
    const keypad: array<bool>

    /** The arrays have their fixed sizes and the stack pointer is within
        the stack. */
    ghost predicate Valid()
      reads this
    {
      && memory.Length == MEMORY_SIZE
      && registers.Length == REGISTER_SIZE
      && gfx.Length0 == SCREEN_HEIGHT && gfx.Length1 == SCREEN_WIDTH
      && stack.Length == STACK_SIZE
      && stackPointer <= STACK_SIZE
      && keypad.Length == KEYPAD_SIZE
    }

    /** The screen as rows of pixels. */
    ghost function Screen(): (s: Screen)
      reads this, gfx
      requires Valid()
      ensures IsScreen(s)
    {
      seq(SCREEN_HEIGHT, y requires 0 <= y < SCREEN_HEIGHT reads gfx =>
        seq(SCREEN_WIDTH, x requires 0 <= x < SCREEN_WIDTH reads gfx => gfx[y, x]))
    }

    /** Pixel (y, x) of the screen is `gfx[y, x]`. */
    lemma ScreenPixels()
      requires Valid()
      ensures forall y, x :: 0 <= y < SCREEN_HEIGHT && 0 <= x < SCREEN_WIDTH ==> Screen()[y][x] == gfx[y, x]
    {}

    /** The screen equals a value that agrees with it pixel by pixel. */
    lemma ScreenEquals(s: Screen)
      requires Valid() && IsScreen(s)
      requires forall y, x :: 0 <= y < SCREEN_HEIGHT && 0 <= x < SCREEN_WIDTH ==> gfx[y, x] == s[y][x]
      ensures Screen() == s
    {
      ScreenPixels();
      forall y | 0 <= y < SCREEN_HEIGHT
        ensures Screen()[y] == s[y]
      {
        assert forall x :: 0 <= x < SCREEN_WIDTH ==> Screen()[y][x] == s[y][x];
      }
    }

    /** The whole emulator as a value. */
    ghost function Abs(): (m: Machine)
      reads this, memory, registers, gfx, stack, keypad
      requires Valid()
      ensures WellFormed(m)
    {
      Machine(opcode, memory[..], registers[..], indexRegister, programCounter, Screen(),
              delayTimer, soundTimer, stack[..], stackPointer, keypad[..])
    }

    /** `Emulator::new`: zeroed state, the program counter at 0x200 and the
        font copied into the first 80 bytes of memory. */
    constructor ()
      ensures Valid() && Abs() == Initial()
      ensures fresh(memory) && fresh(registers) && fresh(gfx) && fresh(stack) && fresh(keypad)
    {
      opcode := OpCode(0, 0, 0, 0);
      memory := new u8[MEMORY_SIZE](_ => 0);
      registers := new u8[REGISTER_SIZE](_ => 0);
      indexRegister := 0;
      programCounter := PROGRAM_START;
      gfx := new u8[SCREEN_HEIGHT, SCREEN_WIDTH]((_, _) => 0);
      delayTimer := 0;
      soundTimer := 0;
      stack := new u16[STACK_SIZE](_ => 0);
      stackPointer := 0;
      keypad := new bool[KEYPAD_SIZE](_ => false);
      new;
      for index := 0 to |FONTSET|
        modifies memory
        invariant forall a :: 0 <= a < index ==> memory[a] == FONTSET[a]
        invariant forall a :: index <= a < MEMORY_SIZE ==> memory[a] == 0
      {
        memory[index] := FONTSET[index];
      }
      assert memory[..] == Initial().memory;
      assert registers[..] == Initial().registers;
      assert stack[..] == Initial().stack;
      assert keypad[..] == Initial().keypad;
      ScreenEquals(Blank());
    }

    /** The copy loop of `load_rom`: byte `i` of the program image goes to
        address `pc + i`. Opening and reading the file is not modelled; the
        image must fit in memory, which the original does not check. */
    method LoadRom(image: seq<u8>)
      requires Valid() && programCounter + |image| <= MEMORY_SIZE
      modifies memory
      ensures Valid()
      ensures Abs() == old(Abs()).(memory := LoadImage(old(memory[..]), programCounter, image))
    {
      for index := 0 to |image|
        invariant forall a :: 0 <= a < MEMORY_SIZE ==>
          memory[a] == if programCounter <= a < programCounter + index then image[a - programCounter] else old(memory[a])
      {
        memory[index + programCounter] := image[index];
      }
      assert memory[..] == LoadImage(old(memory[..]), programCounter, image);
    }

    /** `emulator_cycle`: fetch, execute, update the timers; returns whether
        the beep sounded. */
    method EmulatorCycle(random: u8) returns (beep: bool)
      requires Valid() && CanStep(Abs())
      modifies this, memory, registers, gfx, stack
      ensures Valid() && (Abs(), beep) == Cycle(old(Abs()), random)
    {
      FetchOpcode();
      ProcessOpcode(random);
      beep := UpdateTimer();
    }

    /** `fetch_opcode`: the big-endian word at the program counter, split
        into nibbles; the program counter advances by 2. */
    method FetchOpcode()
      requires Valid() && programCounter + 1 < MEMORY_SIZE
      modifies this
      ensures Valid() && Abs() == Fetch(old(Abs()))
    {
      var word := (memory[programCounter] as int) * 0x100 + memory[programCounter + 1];
      opcode := Split(word);
      programCounter := programCounter + 2;
    }

    /** `process_opcode`: a second advance of the program counter, then the
        instruction the opcode decodes to. */
    method ProcessOpcode(random: u8)
      requires Valid() && CanProcess(Abs())
      modifies this, memory, registers, gfx, stack
      ensures Valid() && Abs() == Process(old(Abs()), random)
    {
      programCounter := programCounter + 2;
      ghost var m := Abs();
      assert m == old(Abs()).(programCounter := old(programCounter) + 2);
      assert Executable(m, Decode(opcode));
      ExecuteIgnoresRandom(m, Decode(opcode), random);
      match Decode(opcode)
      case ClearScreen => Op00E0();
      case Return => Op00EE();
      case SysCall => Op0NNN();
      case Jump => Op1NNN();
      case Call => Op2NNN();
      case SkipIfEqualNN => Op3XNN();
      case SkipIfNotEqualNN => Op4XNN();
      case SkipIfVxVy => Op5XY0();
      case SetNN => Op6XNN();
      case AddNN => Op7XNN();
      case Move => Op8XY0();
      case Or => Op8XY1();
      case And => Op8XY2();
      case Xor => Op8XY3();
      case AddCarry => Op8XY4();
      case SubBorrow => Op8XY5();
      case ShiftRight => Op8XY6();
      case SubReverse => Op8XY7();
      case ShiftLeft => Op8XYE();
      case SkipIfNotEqualVy => Op9XY0();
      case SetIndex => OpANNN();
      case JumpOffset => OpBNNN();
      case RandomAnd => OpCXNN(random);
      case Draw => OpDXYN();
      case SkipIfKey => OpEX9E();
      case SkipIfNotKey => OpEXA1();
      case GetDelay => OpFX07();
      case WaitKey => OpFX0A();
      case SetDelay => OpFX15();
      case SetSound => OpFX18();
      case AddIndex => OpFX1E();
      case FontChar => OpFX29();
      case StoreBcd => OpFX33();
      case DumpRegisters => OpFX55();
      case LoadRegisters => OpFX65();
      case Unmatched =>
    }

    /** `update_timer`: each timer counts down to zero; the beep sounds when
        the sound timer goes from 1 to 0. */
    method UpdateTimer() returns (beep: bool)
      requires Valid()
      modifies this
      ensures Valid() && Abs() == Tick(old(Abs())) && beep == Beeps(old(Abs()))
    {
      beep := false;
      if delayTimer > 0 {
        delayTimer := delayTimer - 1;
      }
      if soundTimer > 0 {
        if soundTimer == 1 {
          beep := true;
        }
        soundTimer := soundTimer - 1;
      }
    }

    // ---- operand helpers ----

    /** `get_register_vx`. */
    function GetRegisterVx(): u8
      reads this, registers
      requires Valid()
    {
      registers[opcode.second]
    }

    /** `get_register_vy`. */
    function GetRegisterVy(): u8
      reads this, registers
      requires Valid()
    {
      registers[opcode.third]
    }

    /** `skip_next_instruction`. */
    method SkipNextInstruction()
      requires Valid() && FitsU16(programCounter + 2)
      modifies this
      ensures Valid() && Abs() == SkipNext(old(Abs()))
    {
      programCounter := programCounter + 2;
    }

    // ---- the instructions ----

    /** 0NNN: calls into the host machine's code; does nothing here. */
    method Op0NNN()
      requires Valid()
      ensures Abs() == Execute(old(Abs()), SysCall, 0)
    {}

    /** 00E0: clears the screen. */
    method Op00E0()
      requires Valid()
      modifies gfx
      ensures Abs() == Execute(old(Abs()), ClearScreen, 0)
    {
      ghost var m := Abs();
      ghost var mem, regs, st, keys := memory[..], registers[..], stack[..], keypad[..];
      assert Execute(m, ClearScreen, 0) == m.(gfx := Blank());
      forall y, x | 0 <= y < SCREEN_HEIGHT && 0 <= x < SCREEN_WIDTH {
        gfx[y, x] := 0;
      }
      ScreenEquals(Blank());
      assert memory[..] == mem && registers[..] == regs && stack[..] == st && keypad[..] == keys;
    }

    /** 00EE: returns from a subroutine. */
    method Op00EE()
      requires Valid() && Executable(Abs(), Return)
      modifies this
      ensures Valid() && Abs() == Execute(old(Abs()), Return, 0)
    {
      stackPointer := stackPointer - 1;
      programCounter := stack[stackPointer] + 2;
    }

    /** 1NNN: jumps to NNN. */
    method Op1NNN()
      requires Valid()
      modifies this
      ensures Valid() && Abs() == Execute(old(Abs()), Jump, 0)
    {
      programCounter := NNN(opcode);
    }

    /** 2NNN: calls the subroutine at NNN. */
    method Op2NNN()
      requires Valid() && Executable(Abs(), Call)
      modifies this, stack
      ensures Valid() && Abs() == Execute(old(Abs()), Call, 0)
    {
      stack[stackPointer] := programCounter - 2;
      stackPointer := stackPointer + 1;
      programCounter := NNN(opcode);
    }

    /** 3XNN: skips the next instruction if Vx == NN. */
    method Op3XNN()
      requires Valid() && Executable(Abs(), SkipIfEqualNN)
      modifies this
      ensures Valid() && Abs() == Execute(old(Abs()), SkipIfEqualNN, 0)
    {
      if GetRegisterVx() == NN(opcode) {
        SkipNextInstruction();
      }
    }

    /** 4XNN: skips the next instruction if Vx != NN. */
    method Op4XNN()
      requires Valid() && Executable(Abs(), SkipIfNotEqualNN)
      modifies this
      ensures Valid() && Abs() == Execute(old(Abs()), SkipIfNotEqualNN, 0)
    {
      if GetRegisterVx() != NN(opcode) {
        SkipNextInstruction();
      }
    }

    /** 5XY0: skips the next instruction if Vx != Vy (as written). */
    method Op5XY0()
      requires Valid() && Executable(Abs(), SkipIfVxVy)
      modifies this
      ensures Valid() && Abs() == Execute(old(Abs()), SkipIfVxVy, 0)
    {
      if GetRegisterVx() != GetRegisterVy() {
        SkipNextInstruction();
      }
    }

    /** 6XNN: Vx = NN. */
    method Op6XNN()
      requires Valid()
      modifies registers
      ensures Abs() == Execute(old(Abs()), SetNN, 0)
    {
      registers[opcode.second] := NN(opcode);
    }

    /** 7XNN: Vx += NN, wrapping. */
    method Op7XNN()
      requires Valid()
      modifies registers
      ensures Abs() == Execute(old(Abs()), AddNN, 0)
    {
      registers[opcode.second] := (GetRegisterVx() + NN(opcode)) % 0x100;
    }

    /** 8XY0: Vx = Vy. */
    method Op8XY0()
      requires Valid()
      modifies registers
      ensures Abs() == Execute(old(Abs()), Move, 0)
    {
      registers[opcode.second] := GetRegisterVy();
    }

    /** 8XY1: Vx |= Vy. */
    method Op8XY1()
      requires Valid()
      modifies registers
      ensures Abs() == Execute(old(Abs()), Or, 0)
    {
      registers[opcode.second] := Or8(GetRegisterVx(), GetRegisterVy());
    }

    /** 8XY2: Vx &= Vy. */
    method Op8XY2()
      requires Valid()
      modifies registers
      ensures Abs() == Execute(old(Abs()), And, 0)
    {
      registers[opcode.second] := And8(GetRegisterVx(), GetRegisterVy());
    }

    /** 8XY3: Vx ^= Vy. */
    method Op8XY3()
      requires Valid()
      modifies registers
      ensures Abs() == Execute(old(Abs()), Xor, 0)
    {
      registers[opcode.second] := Xor8(GetRegisterVx(), GetRegisterVy());
    }

    /** 8XY4: Vx += Vy, VF = carry. */
    method Op8XY4()
      requires Valid()
      modifies registers
      ensures Abs() == Execute(old(Abs()), AddCarry, 0)
    {
      var sum := OverflowingAdd(GetRegisterVx(), GetRegisterVy());
      registers[VF] := if sum.1 then 1 else 0;
      registers[opcode.second] := sum.0;
    }

    /** 8XY5: Vx -= Vy, VF = no borrow. */
    method Op8XY5()
      requires Valid()
      modifies registers
      ensures Abs() == Execute(old(Abs()), SubBorrow, 0)
    {
      var diff := OverflowingSub(GetRegisterVx(), GetRegisterVy());
      registers[VF] := if diff.1 then 0 else 1;
      registers[opcode.second] := diff.0;
    }

    /** 8XY6: VF = Vx & 1, then Vx >>= 1. */
    method Op8XY6()
      requires Valid()
      modifies registers
      ensures Abs() == Execute(old(Abs()), ShiftRight, 0)
    {
      registers[VF] := And8(GetRegisterVx(), 1);
      registers[opcode.second] := GetRegisterVx() / 2;
    }

    /** 8XY7: Vx = Vy - Vx, VF = no borrow. */
    method Op8XY7()
      requires Valid()
      modifies registers
      ensures Abs() == Execute(old(Abs()), SubReverse, 0)
    {
      var diff := OverflowingSub(GetRegisterVy(), GetRegisterVx());
      registers[VF] := if diff.1 then 0 else 1;
      registers[opcode.second] := diff.0;
    }

    /** 8XYE: VF = Vx & 0x80, then Vx <<= 1. */
    method Op8XYE()
      requires Valid()
      modifies registers
      ensures Abs() == Execute(old(Abs()), ShiftLeft, 0)
    {
      registers[VF] := And8(GetRegisterVx(), 0x80);
      registers[opcode.second] := (GetRegisterVx() * 2) % 0x100;
    }

    /** 9XY0: skips the next instruction if Vx != Vy. */
    method Op9XY0()
      requires Valid() && Executable(Abs(), SkipIfNotEqualVy)
      modifies this
      ensures Valid() && Abs() == Execute(old(Abs()), SkipIfNotEqualVy, 0)
    {
      if GetRegisterVx() != GetRegisterVy() {
        SkipNextInstruction();
      }
    }

    /** ANNN: I = NNN. */
    method OpANNN()
      requires Valid()
      modifies this
      ensures Valid() && Abs() == Execute(old(Abs()), SetIndex, 0)
    {
      indexRegister := NNN(opcode);
    }

    /** BNNN: jumps to V0 + NNN. */
    method OpBNNN()
      requires Valid()
      modifies this
      ensures Valid() && Abs() == Execute(old(Abs()), JumpOffset, 0)
    {
      programCounter := registers[0] + NNN(opcode);
    }

    /** CXNN: Vx = random & NN; the random byte is a parameter. */
    method OpCXNN(random: u8)
      requires Valid()
      modifies registers
      ensures Abs() == Execute(old(Abs()), RandomAnd, random)
    {
      registers[opcode.second] := And8(random, NN(opcode));
    }

    /** DXYN: draws the N-byte sprite at I at (Vx, Vy), row by row and bit
        by bit, toggling pixels and setting VF when a lit pixel is
        toggled. */
    method OpDXYN()
      requires Valid() && Executable(Abs(), Draw)
      modifies registers, gfx
      ensures Abs() == Execute(old(Abs()), Draw, 0)
    {
      ghost var m := Abs();
      ghost var mem, st, keys := memory[..], stack[..], keypad[..];
      var vx := GetRegisterVx();
      var vy := GetRegisterVy();
      var sprite := memory[indexRegister..indexRegister + N(opcode)];
      ghost var before := Screen();
      ScreenPixels();
      ghost var saved := registers[..];
      ExecuteDraw(m);
      registers[VF] := 0;
      for j := 0 to |sprite|
        invariant registers[..] == saved[VF := if CollidedBefore(before, sprite, vx, vy, j, 0) then 1 else 0]
        invariant forall y, x :: 0 <= y < SCREEN_HEIGHT && 0 <= x < SCREEN_WIDTH ==>
          gfx[y, x] == if DrawnBefore(sprite, vx, vy, j, 0, y, x) then Xor8(before[y][x], 1) else before[y][x]
      {
        DrawRow(sprite, vx, vy, j, before, saved);
      }
      DrawnAll(sprite, vx, vy);
      CollidedAll(before, sprite, vx, vy);
      ghost var after := DrawSprite(before, sprite, vx, vy);
      assert forall y, x :: 0 <= y < SCREEN_HEIGHT && 0 <= x < SCREEN_WIDTH ==> gfx[y, x] == after[y][x];
      ScreenEquals(after);
      assert memory[..] == mem && stack[..] == st && keypad[..] == keys;
    }

    /** The inner loop of DXYN: the eight bits of sprite row `j`, most
        significant first. */
    method DrawRow(sprite: seq<u8>, vx: u8, vy: u8, j: int, ghost before: Screen, ghost saved: seq<u8>)
      requires Valid() && IsScreen(before) && |saved| == REGISTER_SIZE
      requires |sprite| <= SCREEN_HEIGHT && 0 <= j < |sprite|
      requires registers[..] == saved[VF := if CollidedBefore(before, sprite, vx, vy, j, 0) then 1 else 0]
      requires forall y, x :: 0 <= y < SCREEN_HEIGHT && 0 <= x < SCREEN_WIDTH ==>
        gfx[y, x] == if DrawnBefore(sprite, vx, vy, j, 0, y, x) then Xor8(before[y][x], 1) else before[y][x]
      modifies registers, gfx
      ensures registers[..] == saved[VF := if CollidedBefore(before, sprite, vx, vy, j + 1, 0) then 1 else 0]
      ensures forall y, x :: 0 <= y < SCREEN_HEIGHT && 0 <= x < SCREEN_WIDTH ==>
        gfx[y, x] == if DrawnBefore(sprite, vx, vy, j + 1, 0, y, x) then Xor8(before[y][x], 1) else before[y][x]
    {
      for i := 0 to 8
        invariant registers[..] == saved[VF := if CollidedBefore(before, sprite, vx, vy, j, i) then 1 else 0]
        invariant forall y, x :: 0 <= y < SCREEN_HEIGHT && 0 <= x < SCREEN_WIDTH ==>
          gfx[y, x] == if DrawnBefore(sprite, vx, vy, j, i, y, x) then Xor8(before[y][x], 1) else before[y][x]
      {
        var y := (vy + j) % SCREEN_HEIGHT;
        var x := (vx + i) % SCREEN_WIDTH;
        DrawnStep(sprite, vx, vy, j, i);
        CollidedStep(before, sprite, vx, vy, j, i);
        if BitSet(sprite[j], i) {
          if gfx[y, x] == 1 {
            registers[VF] := 1;
          }
          gfx[y, x] := Xor8(gfx[y, x], 1);
        }
      }
      CollidedRowEnd(before, sprite, vx, vy, j);
    }

    /** EX9E: skips the next instruction if key Vx is down; advances by 2
        otherwise as well. */
    method OpEX9E()
      requires Valid() && Executable(Abs(), SkipIfKey)
      modifies this
      ensures Valid() && Abs() == Execute(old(Abs()), SkipIfKey, 0)
    {
      if keypad[GetRegisterVx()] {
        SkipNextInstruction();
      } else {
        programCounter := programCounter + 2;
      }
    }

    /** EXA1: skips the next instruction if key Vx is up; advances by 2
        otherwise as well. */
    method OpEXA1()
      requires Valid() && Executable(Abs(), SkipIfNotKey)
      modifies this
      ensures Valid() && Abs() == Execute(old(Abs()), SkipIfNotKey, 0)
    {
      if !keypad[GetRegisterVx()] {
        SkipNextInstruction();
      } else {
        programCounter := programCounter + 2;
      }
    }

    /** FX07: Vx = delay timer. */
    method OpFX07()
      requires Valid()
      modifies registers
      ensures Abs() == Execute(old(Abs()), GetDelay, 0)
    {
      registers[opcode.second] := delayTimer;
    }

    /** FX0A: rewinds the program counter by 2; if key Vx is down, writes
        Vx to itself and advances by 2 again. */
    method OpFX0A()
      requires Valid() && Executable(Abs(), WaitKey)
      modifies this, registers
      ensures Valid() && Abs() == Execute(old(Abs()), WaitKey, 0)
    {
      programCounter := programCounter - 2;
      if keypad[GetRegisterVx()] {
        registers[opcode.second] := GetRegisterVx();
        programCounter := programCounter + 2;
      }
    }

    /** FX15: delay timer = Vx. */
    method OpFX15()
      requires Valid()
      modifies this
      ensures Valid() && Abs() == Execute(old(Abs()), SetDelay, 0)
    {
      delayTimer := GetRegisterVx();
    }

    /** FX18: sound timer = Vx. */
    method OpFX18()
      requires Valid()
      modifies this
      ensures Valid() && Abs() == Execute(old(Abs()), SetSound, 0)
    {
      soundTimer := GetRegisterVx();
    }

    /** FX1E: I += Vx. */
    method OpFX1E()
      requires Valid() && Executable(Abs(), AddIndex)
      modifies this
      ensures Valid() && Abs() == Execute(old(Abs()), AddIndex, 0)
    {
      indexRegister := indexRegister + GetRegisterVx();
    }

    /** FX29: I = Vx * 5, the address of the font glyph for digit Vx. */
    method OpFX29()
      requires Valid()
      modifies this
      ensures Valid() && Abs() == Execute(old(Abs()), FontChar, 0)
    {
      indexRegister := GetRegisterVx() * 5;
    }

    /** FX33: the decimal digits of Vx at I, I+1, I+2. */
    method OpFX33()
      requires Valid() && Executable(Abs(), StoreBcd)
      modifies memory
      ensures Abs() == Execute(old(Abs()), StoreBcd, 0)
    {
      var vx := GetRegisterVx();
      memory[indexRegister] := vx / 100;
      memory[indexRegister + 1] := (vx / 10) % 10;
      memory[indexRegister + 2] := vx % 10;
    }

    /** FX55: V0..Vx stored at I..I+x; I is not changed. */
    method OpFX55()
      requires Valid() && Executable(Abs(), DumpRegisters)
      modifies memory
      ensures Abs() == Execute(old(Abs()), DumpRegisters, 0)
    {
      for i := 0 to opcode.second + 1
        invariant forall a :: 0 <= a < MEMORY_SIZE ==>
          memory[a] == if indexRegister <= a < indexRegister + i then registers[a - indexRegister] else old(memory[a])
      {
        memory[indexRegister + i] := registers[i];
      }
      assert memory[..] == DumpedMemory(old(memory[..]), registers[..], indexRegister, opcode.second);
    }

    /** FX65: V0..Vx loaded from I..I+x; I is not changed. */
    method OpFX65()
      requires Valid() && Executable(Abs(), LoadRegisters)
      modifies registers
      ensures Abs() == Execute(old(Abs()), LoadRegisters, 0)
    {
      for i := 0 to opcode.second + 1
        invariant forall k :: 0 <= k < REGISTER_SIZE ==>
          registers[k] == if k < i then memory[indexRegister + k] else old(registers[k])
      {
        registers[i] := memory[indexRegister + i];
      }
      assert registers[..] == LoadedRegisters(old(registers[..]), memory[..], indexRegister, opcode.second);
    }
  }
}
