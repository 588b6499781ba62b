/** The keyboard side of the interpreter: a host key going down or up sets
    or clears the keypad slot it is bound to. The sixteen bound keys form
    a 4x4 block on a QWERTY keyboard:

        1 2 3 4        1 2 3 C
        q w e r   ->   4 5 6 D
        a s d f        7 8 9 E
        z x c v        A 0 B F
*/
module Input {
  import opened Bits
  import opened Machine
  import Cpu

  datatype KeyState = Up | Down

  datatype Option<T> = None | Some(value: T)

  /** The host key bound to each keypad slot: slot `k` is `LAYOUT[k]`. */
  const LAYOUT: seq<char> := "x123qweasdzc4rfv"

  /** The keypad slot a host key is bound to, `None` for any other key. */
  function KeySlot(key: char): (r: Option<nibble>)
    ensures r.Some? ==> LAYOUT[r.value] == key
    ensures r.None? ==> key !in LAYOUT
  {
    match key
    case '1' => Some(0x1)
    case '2' => Some(0x2)
    case '3' => Some(0x3)
    case '4' => Some(0xC)
    case 'q' => Some(0x4)
    case 'w' => Some(0x5)
    case 'e' => Some(0x6)
    case 'r' => Some(0xD)
    case 'a' => Some(0x7)
    case 's' => Some(0x8)
    case 'd' => Some(0x9)
    case 'f' => Some(0xE)
    case 'z' => Some(0xA)
    case 'x' => Some(0x0)
    case 'c' => Some(0xB)
    case 'v' => Some(0xF)
    case _ => None
  }

  /** Every slot has exactly one key: the key listed for slot `k` maps
      back to `k`, so the binding is one-to-one and covers the keypad. */
  lemma EverySlotBound()
    ensures |LAYOUT| == KEYPAD_SIZE
    ensures forall k :: 0 <= k < KEYPAD_SIZE ==> KeySlot(LAYOUT[k]) == Some(k)
  {
    forall k | 0 <= k < KEYPAD_SIZE
      ensures KeySlot(LAYOUT[k]) == Some(k)
    {
      var r := KeySlot(LAYOUT[k]);
      assert r.Some?;
      LayoutDistinct(r.value, k);
    }
  }

  /** No key is listed for two slots. */
  lemma LayoutDistinct(i: int, j: int)
    requires 0 <= i < |LAYOUT| && 0 <= j < |LAYOUT| && LAYOUT[i] == LAYOUT[j]
    ensures i == j
  {}

  /** Whether a key in this state holds its slot down. */
  function Pressed(state: KeyState): (r: bool)
    ensures r <==> state == Down
  {
    match state
    case Up => false
    case Down => true
  }

  /** The keypad after a key event: the slot of a bound key records whether
      the key is down; an unbound key changes nothing. */
  function PressKey(keypad: seq<bool>, key: char, state: KeyState): (r: seq<bool>)
    requires |keypad| == KEYPAD_SIZE
    ensures |r| == KEYPAD_SIZE
    ensures forall k :: 0 <= k < KEYPAD_SIZE ==>
      r[k] == if LAYOUT[k] == key then state == Down else keypad[k]
  {
    EverySlotBound();
    match KeySlot(key)
    case None => keypad
    case Some(k) => keypad[k := Pressed(state)]
  }

  /** Only the last of two events on the same key matters; in particular a
      repeated event changes nothing more. */
  lemma LastEventWins(keypad: seq<bool>, key: char, first: KeyState, second: KeyState)
    requires |keypad| == KEYPAD_SIZE
    ensures PressKey(PressKey(keypad, key, first), key, second) == PressKey(keypad, key, second)
  {
    var r := PressKey(PressKey(keypad, key, first), key, second);
    assert forall k :: 0 <= k < KEYPAD_SIZE ==> r[k] == PressKey(keypad, key, second)[k];
  }

  /** Events on two different keys do not interfere: their order does not
      matter. */
  lemma DistinctKeysCommute(keypad: seq<bool>, a: char, sa: KeyState, b: char, sb: KeyState)
    requires |keypad| == KEYPAD_SIZE && a != b
    ensures PressKey(PressKey(keypad, a, sa), b, sb) == PressKey(PressKey(keypad, b, sb), a, sa)
  {
    var r := PressKey(PressKey(keypad, a, sa), b, sb);
    var s := PressKey(PressKey(keypad, b, sb), a, sa);
    assert forall k :: 0 <= k < KEYPAD_SIZE ==> r[k] == s[k];
  }

  /** `process_key`: sets the keypad slot bound to `key` to whether `state`
      is `Down`; any other key is ignored. Nothing but the keypad changes. */
  method ProcessKey(emulator: Cpu.Emulator, key: char, state: KeyState)
    requires emulator.Valid()
    modifies emulator.keypad
    ensures emulator.Valid()
    ensures emulator.keypad[..] == PressKey(old(emulator.keypad[..]), key, state)
    ensures emulator.Abs() == old(emulator.Abs()).(keypad := emulator.keypad[..])
  {
    var keyValue := Pressed(state);
    match key {
      case '1' => emulator.keypad[0x1] := keyValue;
      case '2' => emulator.keypad[0x2] := keyValue;
      case '3' => emulator.keypad[0x3] := keyValue;
      case '4' => emulator.keypad[0xC] := keyValue;
      case 'q' => emulator.keypad[0x4] := keyValue;
      case 'w' => emulator.keypad[0x5] := keyValue;
      case 'e' => emulator.keypad[0x6] := keyValue;
      case 'r' => emulator.keypad[0xD] := keyValue;
      case 'a' => emulator.keypad[0x7] := keyValue;
      case 's' => emulator.keypad[0x8] := keyValue;
      case 'd' => emulator.keypad[0x9] := keyValue;
      case 'f' => emulator.keypad[0xE] := keyValue;
      case 'z' => emulator.keypad[0xA] := keyValue;
      case 'x' => emulator.keypad[0x0] := keyValue;
      case 'c' => emulator.keypad[0xB] := keyValue;
      case 'v' => emulator.keypad[0xF] := keyValue;
      case _ =>
    }
    assert emulator.Screen() == old(emulator.Screen());
  }
}
