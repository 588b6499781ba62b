/** What the CHIP-8 machine of module Machine guarantees: the arithmetic
    of the flag-setting instructions, the program-counter rule of every
    instruction, call and return, sprite drawing and collision, BCD,
    register dump and load, and the timers. */
module Properties {
  import opened Bits
  import opened Opcode
  import opened Machine

  // ---- the 8XY_ family: results and flags ----

  /** 8XY4: Vx receives the sum modulo 256 and VF the carry; VF is written
      first, so with X = F the sum is what remains. */
  lemma AddCarryResult(m: Machine, random: u8)
    requires WellFormed(m)
    ensures var r := Execute(m, AddCarry, random); var x := m.opcode.second;
      && r.registers[x] == (Vx(m) + Vy(m)) % 0x100
      && (x != VF ==> (r.registers[VF] == 1 <==> Vx(m) + Vy(m) > 0xFF))
      && (x != VF ==> r.registers[VF] <= 1)
      && (forall k :: 0 <= k < REGISTER_SIZE && k != x && k != VF ==> r.registers[k] == m.registers[k])
      && r == m.(registers := r.registers)
  {}

  /** 8XY5: Vx receives Vx - Vy modulo 256 and VF is 1 exactly when there
      is no borrow. */
  lemma SubBorrowResult(m: Machine, random: u8)
    requires WellFormed(m)
    ensures var r := Execute(m, SubBorrow, random); var x := m.opcode.second;
      && r.registers[x] == (Vx(m) - Vy(m)) % 0x100
      && (x != VF ==> (r.registers[VF] == 1 <==> Vx(m) >= Vy(m)))
      && (x != VF ==> r.registers[VF] <= 1)
      && (forall k :: 0 <= k < REGISTER_SIZE && k != x && k != VF ==> r.registers[k] == m.registers[k])
      && r == m.(registers := r.registers)
  {}

  /** 8XY7: Vx receives Vy - Vx modulo 256 and VF is 1 exactly when there
      is no borrow. */
  lemma SubReverseResult(m: Machine, random: u8)
    requires WellFormed(m)
    ensures var r := Execute(m, SubReverse, random); var x := m.opcode.second;
      && r.registers[x] == (Vy(m) - Vx(m)) % 0x100
      && (x != VF ==> (r.registers[VF] == 1 <==> Vy(m) >= Vx(m)))
      && (x != VF ==> r.registers[VF] <= 1)
      && (forall k :: 0 <= k < REGISTER_SIZE && k != x && k != VF ==> r.registers[k] == m.registers[k])
      && r == m.(registers := r.registers)
  {}

  /** 8XY6: VF receives the low bit of Vx and Vx is halved. The shift reads
      Vx after VF was written, so 8FY6 leaves VF = 0 whatever its value. */
  lemma ShiftRightResult(m: Machine, random: u8)
    requires WellFormed(m)
    ensures var r := Execute(m, ShiftRight, random); var x := m.opcode.second;
      && (x != VF ==> r.registers[x] == Vx(m) / 2 && r.registers[VF] == Vx(m) % 2)
      && (x == VF ==> r.registers[VF] == 0)
      && (forall k :: 0 <= k < REGISTER_SIZE && k != x && k != VF ==> r.registers[k] == m.registers[k])
      && r == m.(registers := r.registers)
  {
    LowBit(Vx(m));
  }

  /** 8XYE: VF receives the raw high bit of Vx (0x80 or 0, not 1 or 0) and
      Vx is doubled modulo 256. With X = F the doubled flag is 0x100 or 0,
      so VF ends 0. */
  lemma ShiftLeftResult(m: Machine, random: u8)
    requires WellFormed(m)
    ensures var r := Execute(m, ShiftLeft, random); var x := m.opcode.second;
      && (x != VF ==> r.registers[x] == (Vx(m) * 2) % 0x100 &&
                      r.registers[VF] == (if Vx(m) >= 0x80 then 0x80 else 0))
      && (x == VF ==> r.registers[VF] == 0)
      && (forall k :: 0 <= k < REGISTER_SIZE && k != x && k != VF ==> r.registers[k] == m.registers[k])
      && r == m.(registers := r.registers)
  {
    HighBit(Vx(m));
  }

  /** CXNN: the result never has a bit outside NN, whatever the random
      byte. */
  lemma RandomWithinMask(m: Machine, random: u8)
    requires WellFormed(m)
    ensures var r := Execute(m, RandomAnd, random);
      And8(r.registers[m.opcode.second], Not8(NN(m.opcode))) == 0
  {
    AndWithinMask(random, NN(m.opcode));
  }

  // ---- the program counter ----

  /** The program counter after the instruction at address `a`, read off
      the opcode table: a jump goes to its target, a return to two past
      the saved address, a taken skip to a + 6, a key skip always to a + 6,
      FX0A with its key up to a + 2, everything else to a + 4 (the fetch
      and `process_opcode` each add 2). */
  function NextPc(m: Machine): int
    requires WellFormed(m) && m.programCounter + 1 < MEMORY_SIZE
  {
    var a := m.programCounter as int;
    var op := Split(WordAt(m, a));
    var vx := m.registers[op.second];
    var vy := m.registers[op.third];
    var nn := op.third * 0x10 + op.fourth;
    var nnn := op.second * 0x100 + nn;
    match Decode(op)
    case Jump => nnn
    case Call => nnn
    case Return => if m.stackPointer > 0 then m.stack[m.stackPointer - 1] as int + 2 else 0
    case JumpOffset => m.registers[0] + nnn
    case SkipIfEqualNN => if vx == nn then a + 6 else a + 4
    case SkipIfNotEqualNN => if vx != nn then a + 6 else a + 4
    case SkipIfVxVy => if vx != vy then a + 6 else a + 4
    case SkipIfNotEqualVy => if vx != vy then a + 6 else a + 4
    case SkipIfKey => a + 6
    case SkipIfNotKey => a + 6
    case WaitKey => if vx < KEYPAD_SIZE && m.keypad[vx] then a + 4 else a + 2
    case _ => a + 4
  }

  /** Every instruction leaves the program counter where the opcode table
      says. */
  lemma StepProgramCounter(m: Machine, random: u8)
    requires WellFormed(m) && CanStep(m)
    ensures Step(m, random).programCounter == NextPc(m)
  {
    var f := Fetch(m);
    MergeSplit(WordAt(m, m.programCounter));
    assert f.opcode == Split(WordAt(m, m.programCounter));
  }

  /** An opcode the table does not list changes nothing but the opcode
      and the program counter. */
  lemma UnmatchedOnlyAdvances(m: Machine, random: u8)
    requires WellFormed(m) && CanStep(m)
    requires Decode(Split(WordAt(m, m.programCounter))) == Unmatched
    ensures Step(m, random) ==
      m.(opcode := Split(WordAt(m, m.programCounter)), programCounter := m.programCounter + 4)
  {
    MergeSplit(WordAt(m, m.programCounter));
  }

  // ---- call and return ----

  /** 2NNN at address `a`: saves `a + 2` (the program counter less the
      second advance) in the free stack slot, pushes it and jumps to NNN;
      nothing else changes. */
  lemma CallResult(m: Machine, random: u8)
    requires WellFormed(m) && CanStep(m)
    requires Decode(Split(WordAt(m, m.programCounter))) == Call
    ensures var r := Step(m, random); var op := Split(WordAt(m, m.programCounter));
      r == m.(opcode := op, stack := m.stack[m.stackPointer := m.programCounter + 2],
              stackPointer := m.stackPointer + 1, programCounter := NNN(op))
  {
    var op := Split(WordAt(m, m.programCounter));
    MergeSplit(WordAt(m, m.programCounter));
    var advanced := Fetch(m).(programCounter := m.programCounter + 4);
    assert Fetch(m).opcode == op;
    assert Step(m, random) == ExecuteControl(advanced, Call);
  }

  /** 00EE: pops the saved address and resumes two bytes past it; nothing
      else changes. */
  lemma ReturnResult(m: Machine, random: u8)
    requires WellFormed(m) && CanStep(m)
    requires Decode(Split(WordAt(m, m.programCounter))) == Return
    ensures m.stackPointer > 0
    ensures var r := Step(m, random);
      && r.programCounter == m.stack[m.stackPointer - 1] as int + 2
      && r == m.(opcode := Split(WordAt(m, m.programCounter)), stackPointer := m.stackPointer - 1,
                 programCounter := r.programCounter)
  {
    var op := Split(WordAt(m, m.programCounter));
    MergeSplit(WordAt(m, m.programCounter));
    var advanced := Fetch(m).(programCounter := m.programCounter + 4);
    assert Fetch(m).opcode == op;
    assert Step(m, random) == ExecuteControl(advanced, Return);
  }

  /** A call at address `a` followed by a return from the called routine
      resumes at a + 4 with the stack pointer it had before; the stack
      below that pointer, the registers, memory, I and the screen are
      untouched. */
  lemma CallThenReturn(m: Machine, random1: u8, random2: u8)
    requires WellFormed(m) && CanStep(m)
    requires Decode(Split(WordAt(m, m.programCounter))) == Call
    requires CanStep(Step(m, random1))
    requires Decode(Split(WordAt(Step(m, random1), Step(m, random1).programCounter))) == Return
    ensures var after := Step(Step(m, random1), random2);
      && after.programCounter == m.programCounter as int + 4
      && after.stackPointer == m.stackPointer
      && (forall d :: 0 <= d < m.stackPointer ==> after.stack[d] == m.stack[d])
      && after.registers == m.registers && after.memory == m.memory
      && after.indexRegister == m.indexRegister && after.gfx == m.gfx
  {
    var called := Step(m, random1);
    CallResult(m, random1);
    ReturnResult(called, random2);
  }

  // ---- drawing ----

  /** The screen position of sprite row `j`, bit `i`, drawn at (vx, vy). */
  predicate Covers(sprite: seq<u8>, vx: u8, vy: u8, y: int, x: int) {
    exists j, i :: 0 <= j < |sprite| && 0 <= i < 8 && BitSet(sprite[j], i) &&
      y == (vy + j) % SCREEN_HEIGHT && x == (vx + i) % SCREEN_WIDTH
  }

  /** The inverse hit test of DrawSprite agrees with drawing row by row:
      a pixel is hit exactly when some set sprite bit lands on it. */
  lemma HitIsCovered(sprite: seq<u8>, vx: u8, vy: u8, y: int, x: int)
    requires |sprite| <= SCREEN_HEIGHT
    requires 0 <= y < SCREEN_HEIGHT && 0 <= x < SCREEN_WIDTH
    ensures SpriteHit(sprite, vx, vy, y, x) <==> Covers(sprite, vx, vy, y, x)
  {
    if SpriteHit(sprite, vx, vy, y, x) {
      var j := (y - vy) % SCREEN_HEIGHT;
      var i := (x - vx) % SCREEN_WIDTH;
      ModShiftForward(vy, y, SCREEN_HEIGHT);
      ModShiftForward(vx, x, SCREEN_WIDTH);
      assert BitSet(sprite[j], i) && y == (vy + j) % SCREEN_HEIGHT && x == (vx + i) % SCREEN_WIDTH;
    }
    if Covers(sprite, vx, vy, y, x) {
      var j, i :| 0 <= j < |sprite| && 0 <= i < 8 && BitSet(sprite[j], i) &&
        y == (vy + j) % SCREEN_HEIGHT && x == (vx + i) % SCREEN_WIDTH;
      ModShiftBack(vy, j, SCREEN_HEIGHT);
      ModShiftBack(vx, i, SCREEN_WIDTH);
    }
  }

  /** Sprite row `j`, bit `i` lands on the pixel ((vy + j) % 320,
      (vx + i) % 640), which is toggled when the bit is set and kept
      otherwise. */
  lemma DrawAtSpritePixel(screen: Screen, sprite: seq<u8>, vx: u8, vy: u8, j: int, i: int)
    requires IsScreen(screen) && |sprite| <= SCREEN_HEIGHT
    requires 0 <= j < |sprite| && 0 <= i < 8
    ensures var y := (vy + j) % SCREEN_HEIGHT; var x := (vx + i) % SCREEN_WIDTH;
      DrawSprite(screen, sprite, vx, vy)[y][x] ==
        if BitSet(sprite[j], i) then Xor8(screen[y][x], 1) else screen[y][x]
  {
    ModShiftBack(vy, j, SCREEN_HEIGHT);
    ModShiftBack(vx, i, SCREEN_WIDTH);
  }

  /** A pixel on which no set sprite bit lands keeps its value. */
  lemma DrawKeepsUncovered(screen: Screen, sprite: seq<u8>, vx: u8, vy: u8, y: int, x: int)
    requires IsScreen(screen) && |sprite| <= SCREEN_HEIGHT
    requires 0 <= y < SCREEN_HEIGHT && 0 <= x < SCREEN_WIDTH
    requires !Covers(sprite, vx, vy, y, x)
    ensures DrawSprite(screen, sprite, vx, vy)[y][x] == screen[y][x]
  {
    HitIsCovered(sprite, vx, vy, y, x);
  }

  /** The collision flag is set exactly when a pixel the sprite toggles
      was lit before. */
  lemma CollidesIffToggledLit(screen: Screen, sprite: seq<u8>, vx: u8, vy: u8)
    requires IsScreen(screen) && |sprite| <= SCREEN_HEIGHT
    ensures Collides(screen, sprite, vx, vy) <==>
      exists y, x :: 0 <= y < SCREEN_HEIGHT && 0 <= x < SCREEN_WIDTH &&
        SpriteHit(sprite, vx, vy, y, x) && screen[y][x] == 1
  {
    if Collides(screen, sprite, vx, vy) {
      var j, i :| 0 <= j < |sprite| && 0 <= i < 8 && BitSet(sprite[j], i) &&
        screen[(vy + j) % SCREEN_HEIGHT][(vx + i) % SCREEN_WIDTH] == 1;
      var y, x := (vy + j) % SCREEN_HEIGHT, (vx + i) % SCREEN_WIDTH;
      HitIsCovered(sprite, vx, vy, y, x);
      assert SpriteHit(sprite, vx, vy, y, x) && screen[y][x] == 1;
    }
    if exists y, x :: 0 <= y < SCREEN_HEIGHT && 0 <= x < SCREEN_WIDTH &&
        SpriteHit(sprite, vx, vy, y, x) && screen[y][x] == 1 {
      var y, x :| 0 <= y < SCREEN_HEIGHT && 0 <= x < SCREEN_WIDTH &&
        SpriteHit(sprite, vx, vy, y, x) && screen[y][x] == 1;
      HitIsCovered(sprite, vx, vy, y, x);
      var j, i :| 0 <= j < |sprite| && 0 <= i < 8 && BitSet(sprite[j], i) &&
        y == (vy + j) % SCREEN_HEIGHT && x == (vx + i) % SCREEN_WIDTH;
      assert screen[(vy + j) % SCREEN_HEIGHT][(vx + i) % SCREEN_WIDTH] == 1;
    }
  }

  /** Drawing the same sprite at the same place twice restores the
      screen: the usual way CHIP-8 programs erase a sprite. */
  lemma {:induction false} DrawTwiceRestores(screen: Screen, sprite: seq<u8>, vx: u8, vy: u8)
    requires IsScreen(screen)
    ensures DrawSprite(DrawSprite(screen, sprite, vx, vy), sprite, vx, vy) == screen
  {
    var once := DrawSprite(screen, sprite, vx, vy);
    var twice := DrawSprite(once, sprite, vx, vy);
    forall y | 0 <= y < SCREEN_HEIGHT
      ensures twice[y] == screen[y]
    {
      forall x | 0 <= x < SCREEN_WIDTH
        ensures twice[y][x] == screen[y][x]
      {
        XorInvolutive(screen[y][x], 1);
      }
    }
  }

  /** DXYN: the sprite is the N bytes at I; VF tells whether a lit pixel
      was toggled; I, memory and every other register are unchanged. */
  lemma DrawResult(m: Machine, random: u8)
    requires WellFormed(m) && Executable(m, Draw)
    ensures var r := Execute(m, Draw, random);
      var sprite := m.memory[m.indexRegister..m.indexRegister + N(m.opcode)];
      && (r.registers[VF] == 1 <==>
          exists y, x :: 0 <= y < SCREEN_HEIGHT && 0 <= x < SCREEN_WIDTH &&
            SpriteHit(sprite, Vx(m), Vy(m), y, x) && m.gfx[y][x] == 1)
      && r.registers[VF] <= 1
      && (forall k :: 0 <= k < VF ==> r.registers[k] == m.registers[k])
      && r.gfx == DrawSprite(m.gfx, sprite, Vx(m), Vy(m))
      && r == m.(registers := r.registers, gfx := r.gfx)
  {
    var sprite := m.memory[m.indexRegister..m.indexRegister + N(m.opcode)];
    ExecuteIgnoresRandom(m, Draw, random);
    ExecuteDraw(m);
    CollidesIffToggledLit(m.gfx, sprite, Vx(m), Vy(m));
  }

  /** Redrawing a sprite collides wherever the first drawing lit a pixel
      that had been off. */
  lemma SecondDrawCollides(screen: Screen, sprite: seq<u8>, vx: u8, vy: u8, y: int, x: int)
    requires IsScreen(screen) && |sprite| <= SCREEN_HEIGHT
    requires 0 <= y < SCREEN_HEIGHT && 0 <= x < SCREEN_WIDTH
    requires SpriteHit(sprite, vx, vy, y, x) && screen[y][x] == 0
    ensures Collides(DrawSprite(screen, sprite, vx, vy), sprite, vx, vy)
  {
    var once := DrawSprite(screen, sprite, vx, vy);
    assert Xor8(0, 1) == 1;
    assert once[y][x] == 1;
    CollidesIffToggledLit(once, sprite, vx, vy);
  }

  /** A collision on the redraw comes from a pixel that the first drawing
      turned on. */
  lemma SecondDrawCollisionWasOff(screen: Screen, sprite: seq<u8>, vx: u8, vy: u8)
    requires IsScreen(screen) && |sprite| <= SCREEN_HEIGHT
    requires Collides(DrawSprite(screen, sprite, vx, vy), sprite, vx, vy)
    ensures exists y, x :: 0 <= y < SCREEN_HEIGHT && 0 <= x < SCREEN_WIDTH &&
              SpriteHit(sprite, vx, vy, y, x) && screen[y][x] == 0
  {
    var once := DrawSprite(screen, sprite, vx, vy);
    CollidesIffToggledLit(once, sprite, vx, vy);
    var y, x :| 0 <= y < SCREEN_HEIGHT && 0 <= x < SCREEN_WIDTH &&
      SpriteHit(sprite, vx, vy, y, x) && once[y][x] == 1;
    XorInvolutive(screen[y][x], 1);
    assert Xor8(1, 1) == 0;
  }

  /** Redrawing a sprite collides exactly when the first drawing turned on
      some pixel that had been off. */
  lemma SecondDrawCollidesIff(screen: Screen, sprite: seq<u8>, vx: u8, vy: u8)
    requires IsScreen(screen) && |sprite| <= SCREEN_HEIGHT
    ensures Collides(DrawSprite(screen, sprite, vx, vy), sprite, vx, vy) <==>
      exists y, x :: 0 <= y < SCREEN_HEIGHT && 0 <= x < SCREEN_WIDTH &&
        SpriteHit(sprite, vx, vy, y, x) && screen[y][x] == 0
  {
    if exists y, x :: 0 <= y < SCREEN_HEIGHT && 0 <= x < SCREEN_WIDTH &&
        SpriteHit(sprite, vx, vy, y, x) && screen[y][x] == 0 {
      var y, x :| 0 <= y < SCREEN_HEIGHT && 0 <= x < SCREEN_WIDTH &&
        SpriteHit(sprite, vx, vy, y, x) && screen[y][x] == 0;
      SecondDrawCollides(screen, sprite, vx, vy, y, x);
    }
    if Collides(DrawSprite(screen, sprite, vx, vy), sprite, vx, vy) {
      SecondDrawCollisionWasOff(screen, sprite, vx, vy);
    }
  }

  /** DXYN executed twice with X and Y other than F: the screen is restored,
      and the second VF is 1 exactly when the first drawing turned on a
      pixel that was off. With X or Y equal to F the first drawing moves the
      second one, because it overwrites VF. */
  lemma DrawTwiceResult(m: Machine)
    requires WellFormed(m) && Executable(m, Draw)
    requires m.opcode.second != VF && m.opcode.third != VF
    ensures var once := Execute(m, Draw, 0);
      && Executable(once, Draw)
      && var twice := Execute(once, Draw, 0);
      var sprite := m.memory[m.indexRegister..m.indexRegister + N(m.opcode)];
      && twice.gfx == m.gfx
      && (twice.registers[VF] == 1 <==>
          exists y, x :: 0 <= y < SCREEN_HEIGHT && 0 <= x < SCREEN_WIDTH &&
            SpriteHit(sprite, Vx(m), Vy(m), y, x) && m.gfx[y][x] == 0)
  {
    var sprite := m.memory[m.indexRegister..m.indexRegister + N(m.opcode)];
    var first := DrawSprite(m.gfx, sprite, Vx(m), Vy(m));
    ExecuteDraw(m);
    var once := Execute(m, Draw, 0);
    assert once.gfx == first && once.registers[VF] <= 1;
    assert once == m.(registers := once.registers, gfx := first);
    assert Vx(once) == Vx(m) && Vy(once) == Vy(m);
    ExecuteDraw(once);
    var twice := Execute(once, Draw, 0);
    assert twice.gfx == DrawSprite(first, sprite, Vx(m), Vy(m));
    assert twice.registers[VF] == 1 <==> Collides(first, sprite, Vx(m), Vy(m));
    DrawTwiceRestores(m.gfx, sprite, Vx(m), Vy(m));
    SecondDrawCollidesIff(m.gfx, sprite, Vx(m), Vy(m));
  }

  /** 00E0 turns every pixel off and changes nothing else. */
  lemma ClearScreenResult(m: Machine, random: u8)
    requires WellFormed(m)
    ensures var r := Execute(m, ClearScreen, random);
      && (forall y, x :: 0 <= y < SCREEN_HEIGHT && 0 <= x < SCREEN_WIDTH ==> r.gfx[y][x] == 0)
      && r == m.(gfx := r.gfx)
  {}

  // ---- BCD, register dump and load ----

  /** FX33 stores the three decimal digits of Vx at I, I+1, I+2, most
      significant first, and no other byte. */
  lemma StoreBcdResult(m: Machine, random: u8)
    requires WellFormed(m) && Executable(m, StoreBcd)
    ensures var r := Execute(m, StoreBcd, random); var i := m.indexRegister;
      && r.memory[i] * 100 + r.memory[i + 1] * 10 + r.memory[i + 2] == Vx(m)
      && r.memory[i] < 10 && r.memory[i + 1] < 10 && r.memory[i + 2] < 10
      && (forall a :: 0 <= a < MEMORY_SIZE && !(i <= a <= i + 2) ==> r.memory[a] == m.memory[a])
      && r == m.(memory := r.memory)
  {}

  /** FX55 followed by FX65 with the same X and I gives V0..VX back: the
      registers end as they began, and I is unchanged. */
  lemma DumpThenLoadRestores(m: Machine, random: u8)
    requires WellFormed(m) && Executable(m, DumpRegisters)
    ensures var dumped := Execute(m, DumpRegisters, random);
      var loading := dumped.(opcode := OpCode(0xF, m.opcode.second, 6, 5));
      Executable(loading, LoadRegisters) &&
      var loaded := Execute(loading, LoadRegisters, random);
      loaded.registers == m.registers && loaded.indexRegister == m.indexRegister
  {
    var dumped := Execute(m, DumpRegisters, random);
    var loading := dumped.(opcode := OpCode(0xF, m.opcode.second, 6, 5));
    var loaded := Execute(loading, LoadRegisters, random);
    forall k | 0 <= k < REGISTER_SIZE
      ensures loaded.registers[k] == m.registers[k]
    {
      if k <= m.opcode.second {
        assert loaded.registers[k] == dumped.memory[m.indexRegister + k];
      }
    }
  }

  // ---- timers ----

  /** The beep of `update_timer` fires exactly when the update brings a
      running sound timer to zero. */
  lemma BeepsWhenSoundEnds(m: Machine)
    ensures Beeps(m) <==> m.soundTimer > 0 && Tick(m).soundTimer == 0
  {}

  /** `k` successive timer updates. */
  function TickTimes(m: Machine, k: nat): (r: Machine)
    decreases k
  {
    if k == 0 then m else TickTimes(Tick(m), k - 1)
  }

  /** How many of `k` successive timer updates beep. */
  function BeepCount(m: Machine, k: nat): (n: nat)
    decreases k
  {
    if k == 0 then 0 else (if Beeps(m) then 1 else 0) + BeepCount(Tick(m), k - 1)
  }

  /** The timers count down by one per update and stop at zero, and
      nothing else changes. */
  lemma {:induction false} TimersCountDown(m: Machine, k: nat)
    ensures var r := TickTimes(m, k);
      && r.delayTimer == (if m.delayTimer > k then m.delayTimer - k else 0)
      && r.soundTimer == (if m.soundTimer > k then m.soundTimer - k else 0)
      && r == m.(delayTimer := r.delayTimer, soundTimer := r.soundTimer)
    decreases k
  {
    if k > 0 {
      TimersCountDown(Tick(m), k - 1);
    }
  }

  /** A sound timer set to `s > 0` beeps exactly once in any `k >= s`
      updates, and not at all in fewer. */
  lemma {:induction false} BeepsOnce(m: Machine, k: nat)
    ensures BeepCount(m, k) == if 0 < m.soundTimer <= k then 1 else 0
    decreases k
  {
    if k > 0 {
      BeepsOnce(Tick(m), k - 1);
    }
  }
}
