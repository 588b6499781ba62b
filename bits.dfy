/** Fixed-width machine integers of the CHIP-8 machine and the bitwise
    operators the instruction set uses on them.

    Bytes and words are integers restricted to their range, so that carries,
    borrows and decimal digits are ordinary arithmetic. The bitwise operators
    `&`, `|` and `^` are defined bit by bit, from the least significant bit
    up, and `!` as `255 - a`, which is proved to flip every bit. The lemmas
    below prove the facts about them that the instruction set relies on (the
    low bit, the high bit, toggling twice, masking). */
module Bits {

  /** A Rust `u8`. */
  type u8 = x: int | 0 <= x < 0x100
  /** A Rust `u16`. */
  type u16 = x: int | 0 <= x < 0x1_0000
  /** A 4-bit field of an opcode. */
  type nibble = x: int | 0 <= x < 0x10

  /** `2^k`. */
  function Pow2(k: nat): (r: nat)
    ensures r >= 1
  {
    if k == 0 then 1 else 2 * Pow2(k - 1)
  }

  /** `a >> k`. */
  function Shr(a: nat, k: nat): (r: nat)
    ensures r <= a
  {
    if k == 0 then a else Shr(a / 2, k - 1)
  }

  /** Bit `k` of `a`, counted from the least significant bit. */
  function Bit(a: nat, k: nat): (r: nat)
    ensures r < 2
  {
    if k == 0 then a % 2 else Bit(a / 2, k - 1)
  }

  datatype BitOp = AndOp | OrOp | XorOp

  /** One output bit of `op` from the input bits `x` and `y`. */
  function Combine(op: BitOp, x: nat, y: nat): (r: nat)
    requires x < 2 && y < 2
    ensures r < 2
  {
    match op
    case AndOp => if x == 1 && y == 1 then 1 else 0
    case OrOp => if x == 1 || y == 1 then 1 else 0
    case XorOp => if x != y then 1 else 0
  }

  /** `op` applied bit by bit to the low `width` bits of `a` and `b`. */
  function Bitwise(op: BitOp, a: nat, b: nat, width: nat): nat {
    if width == 0 then 0
    else Combine(op, a % 2, b % 2) + 2 * Bitwise(op, a / 2, b / 2, width - 1)
  }

  /** The result of a bitwise operation has no bit above `width`. */
  lemma {:induction false} BitwiseBound(op: BitOp, a: nat, b: nat, width: nat)
    ensures Bitwise(op, a, b, width) < Pow2(width)
  {
    if width > 0 {
      BitwiseBound(op, a / 2, b / 2, width - 1);
    }
  }

  /** `a & b` on bytes. */
  function And8(a: u8, b: u8): u8 {
    BitwiseBound(AndOp, a, b, 8);
    Bitwise(AndOp, a, b, 8)
  }

  /** `a | b` on bytes. */
  function Or8(a: u8, b: u8): u8 {
    BitwiseBound(OrOp, a, b, 8);
    Bitwise(OrOp, a, b, 8)
  }

  /** `a ^ b` on bytes. */
  function Xor8(a: u8, b: u8): u8 {
    BitwiseBound(XorOp, a, b, 8);
    Bitwise(XorOp, a, b, 8)
  }

  /** `!a` on bytes, written as `255 - a`; NotIsComplement proves that this
      is `a` with all eight bits flipped. */
  function Not8(a: u8): u8 {
    0xFF - a
  }

  /** The sprite-row test `b & (0x80 >> i) != 0`: bit `i` of `b`, counted
      from the most significant bit. */
  predicate BitSet(b: u8, i: nat)
    requires i < 8
  {
    And8(b, Shr(0x80, i)) != 0
  }

  /** Quotient and remainder are unique: `w == n * q + r` with
      `0 <= r < n` determines `w / n` and `w % n`. */
  lemma DivModUnique(w: int, n: int, q: int, r: int)
    requires n > 0 && 0 <= r < n && w == n * q + r
    ensures w / n == q && w % n == r
  {
    var k := w / n - q;
    assert n * k == n * (w / n) - n * q;
    assert n * k == r - w % n;
    ZeroMultiple(n, k, r - w % n);
  }

  lemma ZeroMultiple(n: int, k: int, v: int)
    requires n > 0 && -n < v < n && n * k == v
    ensures k == 0
  {}

  // ---- properties the instruction set relies on ----

  /** The bits of a number below `2^width` are all within `width`: xoring
      them twice with the same `k` gives the number back. */
  lemma {:induction false} XorTwice(a: nat, k: nat, width: nat)
    requires a < Pow2(width)
    ensures Bitwise(XorOp, Bitwise(XorOp, a, k, width), k, width) == a
  {
    if width > 0 {
      var inner := Bitwise(XorOp, a, k, width);
      var rest := Bitwise(XorOp, a / 2, k / 2, width - 1);
      assert inner % 2 == Combine(XorOp, a % 2, k % 2) && inner / 2 == rest;
      XorTwice(a / 2, k / 2, width - 1);
    }
  }

  /** `x ^ k ^ k == x`: toggling the same bits twice restores the byte.
      This is what makes drawing a sprite twice undo the first drawing. */
  lemma XorInvolutive(a: u8, k: u8)
    ensures Xor8(Xor8(a, k), k) == a
  {
    XorTwice(a, k, 8);
  }

  /** Anding with zero clears every bit. */
  lemma {:induction false} AndZero(a: nat, width: nat)
    ensures Bitwise(AndOp, a, 0, width) == 0
  {
    if width > 0 {
      AndZero(a / 2, width - 1);
    }
  }

  /** Anding with `m` and then with the complement of `m` (within `width`
      bits) clears every bit. */
  lemma {:induction false} AndComplement(x: nat, m: nat, width: nat)
    requires m < Pow2(width)
    ensures Bitwise(AndOp, Bitwise(AndOp, x, m, width), Pow2(width) - 1 - m, width) == 0
  {
    if width > 0 {
      var inner := Bitwise(AndOp, x, m, width);
      var rest := Bitwise(AndOp, x / 2, m / 2, width - 1);
      assert inner % 2 == Combine(AndOp, x % 2, m % 2) && inner / 2 == rest;
      var n := Pow2(width) - 1 - m;
      assert n % 2 == 1 - m % 2 && n / 2 == Pow2(width - 1) - 1 - m / 2;
      AndComplement(x / 2, m / 2, width - 1);
    }
  }

  /** Xoring with all ones below `2^width` flips every bit: the result is
      `2^width - 1 - a`. */
  lemma {:induction false} XorAllOnes(a: nat, width: nat)
    requires a < Pow2(width)
    ensures Bitwise(XorOp, a, Pow2(width) - 1, width) == Pow2(width) - 1 - a
  {
    if width > 0 {
      var ones := Pow2(width) - 1;
      assert ones % 2 == 1 && ones / 2 == Pow2(width - 1) - 1;
      XorAllOnes(a / 2, width - 1);
    }
  }

  /** `!a == a ^ 0xFF`: the byte complement flips each of the eight bits. */
  lemma NotIsComplement(a: u8)
    ensures Not8(a) == Xor8(a, 0xFF)
  {
    assert Pow2(8) == 0x100;
    XorAllOnes(a, 8);
  }

  /** `x & m` never has a bit outside `m`: `(x & m) & !m == 0`. */
  lemma AndWithinMask(x: u8, m: u8)
    ensures And8(And8(x, m), Not8(m)) == 0
  {
    AndComplement(x, m, 8);
  }

  /** Anding with the single bit `2^k` keeps exactly bit `k`. */
  lemma {:induction false} AndPower(a: nat, k: nat, width: nat)
    requires k < width
    ensures Bitwise(AndOp, a, Pow2(k), width) == if Bit(a, k) == 1 then Pow2(k) else 0
  {
    if k == 0 {
      AndZero(a / 2, width - 1);
    } else {
      AndPower(a / 2, k - 1, width - 1);
    }
  }

  /** Below `2^(k+1)`, bit `k` is set exactly from `2^k` on. */
  lemma {:induction false} TopBit(a: nat, k: nat)
    requires a < 2 * Pow2(k)
    ensures Bit(a, k) == if a >= Pow2(k) then 1 else 0
  {
    if k > 0 {
      TopBit(a / 2, k - 1);
    }
  }

  /** `v & 1` is the low bit of `v`. */
  lemma LowBit(v: u8)
    ensures And8(v, 1) == v % 2
  {
    AndPower(v, 0, 8);
  }

  /** `v & 0x80` is the raw high bit: 0x80 when set, 0 otherwise. */
  lemma HighBit(v: u8)
    ensures And8(v, 0x80) == if v >= 0x80 then 0x80 else 0
  {
    AndPower(v, 7, 8);
    TopBit(v, 7);
  }
}
