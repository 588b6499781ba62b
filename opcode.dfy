/** The two-byte CHIP-8 opcode: its four nibbles, the operand getters and
    the decoding table that chooses which instruction an opcode executes. */
module Opcode {
  import opened Bits

  /** An opcode split into its four nibbles, most significant first
      (`0xA123` is `OpCode(0xA, 0x1, 0x2, 0x3)`). The fields are `u8` in the
      original struct, but every opcode is produced by splitting a word with
      four-bit masks, so each field holds a nibble. */
  datatype OpCode = OpCode(first: nibble, second: nibble, third: nibble, fourth: nibble)

  /** `first << 12 | second << 8 | third << 4 | fourth`. The four shifted
      fields occupy disjoint bits (see ShiftOrIsSum), so the bitwise or is
      their sum. */
  function MergedOpcode(op: OpCode): (r: u16)
    ensures Split(r) == op
  {
    SplitOfSum(op);
    op.first * 0x1000 + op.second * 0x100 + op.third * 0x10 + op.fourth
  }

  /** Splits a fetched word into nibbles: `(w & 0xF000) >> 12`,
      `(w & 0x0F00) >> 8`, `(w & 0x00F0) >> 4` and `w & 0x000F`
      (see MaskShiftIsDivMod for the equality of the two forms). */
  function Split(w: u16): (op: OpCode)
    ensures op.first * 0x1000 + op.second * 0x100 + op.third * 0x10 + op.fourth == w
  {
    SumOfSplit(w);
    OpCode(w / 0x1000, (w / 0x100) % 0x10, (w / 0x10) % 0x10, w % 0x10)
  }

  /** The four nibbles of a word, weighted by position, add up to it. */
  lemma SumOfSplit(w: u16)
    ensures w / 0x1000 < 0x10
    ensures (w / 0x1000) * 0x1000 + ((w / 0x100) % 0x10) * 0x100 + ((w / 0x10) % 0x10) * 0x10 + w % 0x10 == w
  {
    var d, a := w % 0x10, w / 0x10;
    var c, b := a % 0x10, a / 0x10;
    var f, e := b % 0x10, b / 0x10;
    assert w == 0x100 * b + (0x10 * c + d);
    DivModUnique(w, 0x100, b, 0x10 * c + d);
    assert w == 0x1000 * e + (0x100 * f + 0x10 * c + d);
    DivModUnique(w, 0x1000, e, 0x100 * f + 0x10 * c + d);
  }

  /** Dividing the positional sum of four nibbles recovers each nibble. */
  lemma SplitOfSum(op: OpCode)
    ensures var w := op.first * 0x1000 + op.second * 0x100 + op.third * 0x10 + op.fourth;
      w / 0x1000 == op.first && (w / 0x100) % 0x10 == op.second &&
      (w / 0x10) % 0x10 == op.third && w % 0x10 == op.fourth
  {
    var lo := op.third * 0x10 + op.fourth;
    var mid := op.second * 0x100 + lo;
    assert lo / 0x10 == op.third && lo % 0x10 == op.fourth;
    assert mid / 0x100 == op.second && mid % 0x100 == lo;
    assert (op.first * 0x1000 + mid) / 0x1000 == op.first;
    assert (op.first * 0x1000 + mid) / 0x100 == op.first * 0x10 + op.second;
    assert (op.first * 0x1000 + mid) / 0x10 == op.first * 0x100 + op.second * 0x10 + op.third;
  }

  /** Splitting a word and merging the nibbles gives the word back. */
  lemma MergeSplit(w: u16)
    ensures MergedOpcode(Split(w)) == w
  {}

  /** The bit-level form of MergedOpcode: for four nibbles, shifting and
      or-ing equals the positional sum. */
  lemma ShiftOrIsSum(a: bv16, b: bv16, c: bv16, d: bv16)
    requires a < 0x10 && b < 0x10 && c < 0x10 && d < 0x10
    ensures (a << 12) | (b << 8) | (c << 4) | d == a * 0x1000 + b * 0x100 + c * 0x10 + d
  {}

  /** The bit-level form of Split: masking and shifting is dividing and
      taking the remainder. */
  lemma MaskShiftIsDivMod(w: bv16)
    ensures (w & 0xF000) >> 12 == w / 0x1000
    ensures (w & 0x0F00) >> 8 == (w / 0x100) % 0x10
    ensures (w & 0x00F0) >> 4 == (w / 0x10) % 0x10
    ensures w & 0x000F == w % 0x10
    ensures w & 0x00FF == w % 0x100
    ensures w & 0x0FFF == w % 0x1000
  {}

  /** `get_n`: `merged_opcode() & 0x000F`, the low 4 bits. */
  function N(op: OpCode): (r: u8)
    ensures r == op.fourth
  {
    MergedOpcode(op) % 0x10
  }

  /** `get_nn`: `merged_opcode() & 0x00FF`, the low 8 bits. */
  function NN(op: OpCode): (r: u8)
    ensures r == op.third * 0x10 + op.fourth
  {
    MergedOpcode(op) % 0x100
  }

  /** `get_nnn`: `merged_opcode() & 0x0FFF`, the low 12 bits. */
  function NNN(op: OpCode): (r: u16)
    ensures r < 0x1000
    ensures r == op.second * 0x100 + op.third * 0x10 + op.fourth
  {
    MergedOpcode(op) % 0x1000
  }

  /** The instructions of the dispatch table, named after what they do;
      the comment on each gives its opcode pattern. */
  datatype Instruction =
    | ClearScreen         // 00E0
    | Return              // 00EE
    | SysCall             // 0NNN
    | Jump                // 1NNN
    | Call                // 2NNN
    | SkipIfEqualNN       // 3XNN
    | SkipIfNotEqualNN    // 4XNN
    | SkipIfVxVy          // 5XY0 (skips when Vx != Vy, see Machine.Execute)
    | SetNN               // 6XNN
    | AddNN               // 7XNN
    | Move                // 8XY0
    | Or                  // 8XY1
    | And                 // 8XY2
    | Xor                 // 8XY3
    | AddCarry            // 8XY4
    | SubBorrow           // 8XY5
    | ShiftRight          // 8XY6
    | SubReverse          // 8XY7
    | ShiftLeft           // 8XYE
    | SkipIfNotEqualVy    // 9XY0
    | SetIndex            // ANNN
    | JumpOffset          // BNNN
    | RandomAnd           // CXNN
    | Draw                // DXYN
    | SkipIfKey           // EX9E
    | SkipIfNotKey        // EXA1
    | GetDelay            // FX07
    | WaitKey             // FX0A
    | SetDelay            // FX15
    | SetSound            // FX18
    | AddIndex            // FX1E
    | FontChar            // FX29
    | StoreBcd            // FX33
    | DumpRegisters       // FX55
    | LoadRegisters       // FX65
    | Unmatched           // every other opcode: no effect

  /** The dispatch match of `process_opcode`, arm by arm and in the same
      order: 00E0 and 00EE are tried before the 0NNN catch-all. */
  function Decode(op: OpCode): (ins: Instruction)
    ensures ins == Unmatched <==>
      (op.first == 5 && op.fourth != 0) ||
      (op.first == 8 && op.fourth !in {0, 1, 2, 3, 4, 5, 6, 7, 0xE}) ||
      (op.first == 9 && op.fourth != 0) ||
      (op.first == 0xE && (op.third, op.fourth) !in {(9, 0xE), (0xA, 1)}) ||
      (op.first == 0xF && (op.third, op.fourth) !in
        {(0, 7), (0, 0xA), (1, 5), (1, 8), (1, 0xE), (2, 9), (3, 3), (5, 5), (6, 5)})
  {
    match (op.first, op.second, op.third, op.fourth)
    case (0, 0, 0xE, 0) => ClearScreen
    case (0, 0, 0xE, 0xE) => Return
    case (0, _, _, _) => SysCall
    case (1, _, _, _) => Jump
    case (2, _, _, _) => Call
    case (3, _, _, _) => SkipIfEqualNN
    case (4, _, _, _) => SkipIfNotEqualNN
    case (5, _, _, 0) => SkipIfVxVy
    case (6, _, _, _) => SetNN
    case (7, _, _, _) => AddNN
    case (8, _, _, 0) => Move
    case (8, _, _, 1) => Or
    case (8, _, _, 2) => And
    case (8, _, _, 3) => Xor
    case (8, _, _, 4) => AddCarry
    case (8, _, _, 5) => SubBorrow
    case (8, _, _, 6) => ShiftRight
    case (8, _, _, 7) => SubReverse
    case (8, _, _, 0xE) => ShiftLeft
    case (9, _, _, 0) => SkipIfNotEqualVy
    case (0xA, _, _, _) => SetIndex
    case (0xB, _, _, _) => JumpOffset
    case (0xC, _, _, _) => RandomAnd
    case (0xD, _, _, _) => Draw
    case (0xE, _, 9, 0xE) => SkipIfKey
    case (0xE, _, 0xA, 1) => SkipIfNotKey
    case (0xF, _, 0, 7) => GetDelay
    case (0xF, _, 0, 0xA) => WaitKey
    case (0xF, _, 1, 5) => SetDelay
    case (0xF, _, 1, 8) => SetSound
    case (0xF, _, 1, 0xE) => AddIndex
    case (0xF, _, 2, 9) => FontChar
    case (0xF, _, 3, 3) => StoreBcd
    case (0xF, _, 5, 5) => DumpRegisters
    case (0xF, _, 6, 5) => LoadRegisters
    case _ => Unmatched
  }

  /** One column of the opcode table: a fixed nibble or any nibble. */
  datatype Field = Any | Is(value: nibble)

  /** A row pattern of the opcode table, such as `8XY4` or `FX55`. */
  datatype Pattern = Pattern(a: Field, b: Field, c: Field, d: Field)

  predicate FieldMatches(f: Field, n: nibble) {
    f.Any? || f.value == n
  }

  predicate Matches(op: OpCode, p: Pattern) {
    FieldMatches(p.a, op.first) && FieldMatches(p.b, op.second) &&
    FieldMatches(p.c, op.third) && FieldMatches(p.d, op.fourth)
  }

  /** The opcode table the decoder follows, written as data: each
      instruction's pattern, with `X`, `Y`, `N` positions as `Any`. */
  function PatternOf(ins: Instruction): Pattern
    requires ins != Unmatched
  {
    match ins
    case ClearScreen => Pattern(Is(0), Is(0), Is(0xE), Is(0))
    case Return => Pattern(Is(0), Is(0), Is(0xE), Is(0xE))
    case SysCall => Pattern(Is(0), Any, Any, Any)
    case Jump => Pattern(Is(1), Any, Any, Any)
    case Call => Pattern(Is(2), Any, Any, Any)
    case SkipIfEqualNN => Pattern(Is(3), Any, Any, Any)
    case SkipIfNotEqualNN => Pattern(Is(4), Any, Any, Any)
    case SkipIfVxVy => Pattern(Is(5), Any, Any, Is(0))
    case SetNN => Pattern(Is(6), Any, Any, Any)
    case AddNN => Pattern(Is(7), Any, Any, Any)
    case Move => Pattern(Is(8), Any, Any, Is(0))
    case Or => Pattern(Is(8), Any, Any, Is(1))
    case And => Pattern(Is(8), Any, Any, Is(2))
    case Xor => Pattern(Is(8), Any, Any, Is(3))
    case AddCarry => Pattern(Is(8), Any, Any, Is(4))
    case SubBorrow => Pattern(Is(8), Any, Any, Is(5))
    case ShiftRight => Pattern(Is(8), Any, Any, Is(6))
    case SubReverse => Pattern(Is(8), Any, Any, Is(7))
    case ShiftLeft => Pattern(Is(8), Any, Any, Is(0xE))
    case SkipIfNotEqualVy => Pattern(Is(9), Any, Any, Is(0))
    case SetIndex => Pattern(Is(0xA), Any, Any, Any)
    case JumpOffset => Pattern(Is(0xB), Any, Any, Any)
    case RandomAnd => Pattern(Is(0xC), Any, Any, Any)
    case Draw => Pattern(Is(0xD), Any, Any, Any)
    case SkipIfKey => Pattern(Is(0xE), Any, Is(9), Is(0xE))
    case SkipIfNotKey => Pattern(Is(0xE), Any, Is(0xA), Is(1))
    case GetDelay => Pattern(Is(0xF), Any, Is(0), Is(7))
    case WaitKey => Pattern(Is(0xF), Any, Is(0), Is(0xA))
    case SetDelay => Pattern(Is(0xF), Any, Is(1), Is(5))
    case SetSound => Pattern(Is(0xF), Any, Is(1), Is(8))
    case AddIndex => Pattern(Is(0xF), Any, Is(1), Is(0xE))
    case FontChar => Pattern(Is(0xF), Any, Is(2), Is(9))
    case StoreBcd => Pattern(Is(0xF), Any, Is(3), Is(3))
    case DumpRegisters => Pattern(Is(0xF), Any, Is(5), Is(5))
    case LoadRegisters => Pattern(Is(0xF), Any, Is(6), Is(5))
  }

  /** Soundness of the decoder: the instruction chosen for an opcode is one
      whose table pattern the opcode matches. */
  lemma DecodeMatchesTable(op: OpCode)
    ensures Decode(op) != Unmatched ==> Matches(op, PatternOf(Decode(op)))
  {}

  /** Completeness of the decoder: an opcode matching an instruction's
      pattern decodes to that instruction; the only overlap in the table is
      0NNN, which yields to 00E0 and 00EE. */
  lemma TableDecodes(op: OpCode, ins: Instruction)
    requires ins != Unmatched && Matches(op, PatternOf(ins))
    ensures Decode(op) == ins || (ins == SysCall && Decode(op) in {ClearScreen, Return})
  {}
}
