// Lengths and distances: slots with extra bits (decoder50.go:166-180, decoder50_items.go:61-126).

module Slots {
  import opened Basics
  import opened DecodeTypes
  import opened Bits
  import opened Canonical
  import BR = BitReader

  // A value read from the bits, or the error and the place the reader was left at.
  datatype Out = Out(value: nat, cur: Cursor) | Fail(err: Error, cur: Cursor)

  // How many extra bits a length slot takes, and the length they select.
  function LengthBits(slot: nat): nat {
    if slot >= 8 then slot / 4 - 1 else 0
  }

  function MatchLength(slot: nat, extra: nat): nat {
    (if slot >= 8 then Shl(4 + slot % 4, slot / 4 - 1) else slot) + extra + 2
  }

  // slotToLength.
  function SlotToLength(c: Cursor, slot: nat): Out {
    var bits := LengthBits(slot);
    if bits == 0 then Out(MatchLength(slot, 0), c)
    else
      match BR.ReadBits(c, bits)
      case BitsEOF => Fail(EOF, c)
      case BitsRead(x, c1) => Out(MatchLength(slot, x), c1)
  }

  // A distance slot's bits, without the four a low-offset symbol supplies once there are that many.
  function DistanceBits(slot: nat): nat {
    if slot < 4 then 0 else slot / 2 - 1
  }

  function DistanceBase(slot: nat): nat {
    if slot < 4 then slot else Shl(2 + slot % 2, slot / 2 - 1)
  }

  // extra is what the extra bits and the low offset make up together.
  function DistanceOf(slot: nat, extra: nat): nat {
    1 + DistanceBase(slot) + extra
  }

  // The length adjustment for far matches.
  function Lengthen(length: nat, distance: nat): nat {
    length + (if distance > 0x100 then 1 else 0) + (if distance > 0x2000 then 1 else 0) + (if distance > 0x40000 then 1 else 0)
  }

  function ReadDistance(ts: Tables, c: Cursor): Out {
    match ReadSym(ts.offset, c)
    case SymErr(err, c1) => Fail(err, c1)
    case Sym(slot, c1) => DistanceFrom(ts, c1, slot)
  }

  function DistanceFrom(ts: Tables, c: Cursor, slot: nat): Out {
    match ReadExtra(ts, c, DistanceBits(slot))
    case Fail(err, c1) => Fail(err, c1)
    case Out(x, c1) => Out(DistanceOf(slot, x), c1)
  }

  function ReadExtra(ts: Tables, c: Cursor, bits: nat): Out {
    if bits < 4 then HighBits(c, bits)
    else
      match HighBits(c, bits - 4)
      case Fail(err, c1) => Fail(err, c1)
      case Out(hi, c1) =>
        match ReadSym(ts.lowoffset, c1)
        case SymErr(err, c2) => Fail(err, c2)
        case Sym(low, c2) => Out(16 * hi + low, c2)
  }

  function HighBits(c: Cursor, k: nat): Out {
    if k == 0 then Out(0, c)
    else
      match BR.ReadBits(c, k)
      case BitsEOF => Fail(EOF, c)
      case BitsRead(x, c1) => Out(x, c1)
  }

  // decodeOffsetBits as an operation, mapInnerErr aside.
  datatype MatchRead = MatchRead(op: Op, cur: Cursor) | MatchErr(err: Error, cur: Cursor)

  function ReadMatch(ts: Tables, c: Cursor, slot: nat): MatchRead {
    match SlotToLength(c, slot)
    case Fail(err, c1) => MatchErr(err, c1)
    case Out(length, c1) =>
      match ReadDistance(ts, c1)
      case Fail(err, c2) => MatchErr(err, c2)
      case Out(distance, c2) => MatchRead(Match(Lengthen(length, distance), distance), c2)
  }

  // Lengths: every one from 2 to 4097 has exactly one slot and one setting of its extra bits.

  // The slot and extra bits for a value of at least 4: its top three bits, and the rest.
  function LengthSlot(x: nat): (nat, nat)
    decreases x
  {
    if x < 8 then (x, 0)
    else
      var (slot, extra) := LengthSlot(x / 2);
      (slot + 4, if slot < 8 then x % 2 else 2 * extra + x % 2)
  }

  lemma {:induction false} LengthSlotOf(x: nat)
    requires x < 4096
    ensures var (slot, extra) := LengthSlot(x);
      slot < 44 && extra < Shl(1, LengthBits(slot)) && MatchLength(slot, extra) == x + 2
      && (x >= 4 ==> slot >= 4)
  {
    LengthSlotIn(x, 12);
  }

  lemma {:induction false} LengthSlotIn(x: nat, k: nat)
    requires 3 <= k && x < Shl(1, k)
    ensures var (slot, extra) := LengthSlot(x);
      slot < 4 * (k - 1) && extra < Shl(1, LengthBits(slot)) && MatchLength(slot, extra) == x + 2
      && (x >= 4 ==> slot >= 4)
  {
    if k == 3 {
    } else if x >= 8 {
      LengthSlotIn(x / 2, k - 1);
      var (slot, extra) := LengthSlot(x / 2);
      assert (slot + 4) / 4 == slot / 4 + 1 && (slot + 4) % 4 == slot % 4;
      assert Shl(4 + slot % 4, slot / 4) == 2 * Shl(4 + slot % 4, slot / 4 - 1);
      if slot < 8 {
        assert Shl(4 + slot % 4, 0) == slot;
      }
    }
  }

  lemma {:induction false} SlotLengthOf(slot: nat, extra: nat)
    requires slot < 44 && extra < Shl(1, LengthBits(slot))
    ensures 2 <= MatchLength(slot, extra) <= 4097
    ensures LengthSlot(MatchLength(slot, extra) - 2) == (slot, extra)
  {
    SlotLengthIn(slot, extra);
    if slot >= 8 {
      LengthBound(4 + slot % 4, slot / 4 - 1, extra);
    }
  }

  // A top of three bits and the rest below it make at most twelve bits.
  lemma {:induction false} LengthBound(top: nat, bits: nat, extra: nat)
    requires top <= 7 && bits <= 9 && extra < Shl(1, bits)
    ensures Shl(top, bits) + extra < 4096
  {
    ShlAdd(top, 1, bits);
    ShlMono(top + 1, 8, bits);
    ShlShl(1, 3, bits);
    ShlMonoPower(3 + bits, 12);
  }

  lemma {:induction false} ShlAtLeast(x: nat, n: nat)
    ensures Shl(x, n) >= x
  {
    if n > 0 {
      ShlAtLeast(x, n - 1);
    }
  }

  lemma {:induction false} SlotLengthIn(slot: nat, extra: nat)
    requires extra < Shl(1, LengthBits(slot))
    ensures LengthSlot(MatchLength(slot, extra) - 2) == (slot, extra)
    decreases slot
  {
    if slot >= 8 {
      var slot', extra' := slot - 4, if slot - 4 >= 8 then extra / 2 else 0;
      var x, top, bits := MatchLength(slot, extra) - 2, 4 + slot % 4, slot / 4 - 1;
      assert (slot - 4) / 4 == bits && (slot - 4) % 4 == slot % 4;
      assert Shl(top, bits) == 2 * Shl(top, bits - 1);
      assert x / 2 == MatchLength(slot', extra') - 2 && x % 2 == extra % 2 && x >= 8 by {
        ShlAtLeast(top, bits - 1);
      }
      SlotLengthIn(slot', extra');
    }
  }

  // Distances: every one from 1 to 2^32 has exactly one slot and one setting of its extra bits, the
  // low offset included.

  // The slot and extra bits for distance-1: its top two bits, and the rest.
  function DistanceSlot(x: nat): (nat, nat)
    decreases x
  {
    if x < 4 then (x, 0)
    else
      var (slot, extra) := DistanceSlot(x / 2);
      (slot + 2, if slot < 4 then x % 2 else 2 * extra + x % 2)
  }

  lemma {:induction false} DistanceSlotIn(x: nat, k: nat)
    requires 2 <= k && x < Shl(1, k)
    ensures var (slot, extra) := DistanceSlot(x);
      slot < 2 * k && extra < Shl(1, DistanceBits(slot)) && DistanceOf(slot, extra) == x + 1
      && (x >= 2 ==> slot >= 2)
  {
    if x >= 4 {
      DistanceSlotIn(x / 2, k - 1);
      var (slot, extra) := DistanceSlot(x / 2);
      assert (slot + 2) / 2 == slot / 2 + 1 && (slot + 2) % 2 == slot % 2;
      assert Shl(2 + slot % 2, slot / 2) == 2 * Shl(2 + slot % 2, slot / 2 - 1);
      if slot < 4 {
        assert Shl(2 + slot % 2, 0) == slot;
      }
    }
  }

  lemma {:induction false} BaseDoubles(slot: nat)
    requires slot >= 4
    ensures DistanceBase(slot) == 2 * DistanceBase(slot - 2)
  {
    assert (slot - 2) / 2 == slot / 2 - 1 && (slot - 2) % 2 == slot % 2;
    if slot < 6 {
      assert slot / 2 == 2 && Shl(2 + slot % 2, 1) == 2 * (2 + slot % 2);
    }
  }

  lemma {:induction false} SlotDistanceIn(slot: nat, extra: nat)
    requires extra < Shl(1, DistanceBits(slot))
    ensures DistanceSlot(DistanceOf(slot, extra) - 1) == (slot, extra)
    decreases slot
  {
    if slot >= 4 {
      var slot', extra' := slot - 2, if slot - 2 >= 4 then extra / 2 else 0;
      assert (slot - 2) / 2 == slot / 2 - 1 && (slot - 2) % 2 == slot % 2;
      assert Shl(1, DistanceBits(slot)) == 2 * Shl(1, DistanceBits(slot'));
      SlotDistanceIn(slot', extra');
      var x, x' := DistanceOf(slot, extra) - 1, DistanceOf(slot', extra') - 1;
      BaseDoubles(slot);
      assert extra / 2 == extra' && x / 2 == x' && x % 2 == extra % 2;
    }
  }

  lemma {:induction false} SlotDistanceBound(slot: nat, extra: nat, k: nat)
    requires slot < 2 * k && extra < Shl(1, DistanceBits(slot)) && k >= 2
    ensures 1 <= DistanceOf(slot, extra) <= Shl(1, k)
  {
    var b := DistanceBits(slot);
    if slot < 4 {
      ShlMonoPower(2, k);
    } else {
      ShlMono(2 + slot % 2, 3, b);
      ShlAdd(3, 1, b);
      ShlShl(1, 2, b);
      ShlMonoPower(b + 2, k);
    }
  }

  lemma {:induction false} ShlMonoPower(a: nat, b: nat)
    requires a <= b
    ensures Shl(1, a) <= Shl(1, b)
  {
    if a < b {
      ShlMonoPower(a, b - 1);
    }
  }

  const MAX_DISTANCE: nat := 0x1_0000_0000

  // The distance code is a bijection onto 1..2^32; nothing outside is reachable, and both ends are.
  lemma {:induction false} DistancesAreCodes(distance: nat, slot: nat, extra: nat)
    ensures 1 <= distance <= MAX_DISTANCE ==>
      var (s, x) := DistanceSlot(distance - 1);
      s < 64 && x < Shl(1, DistanceBits(s)) && DistanceOf(s, x) == distance
    ensures slot < 64 && extra < Shl(1, DistanceBits(slot)) ==>
      1 <= DistanceOf(slot, extra) <= MAX_DISTANCE && DistanceSlot(DistanceOf(slot, extra) - 1) == (slot, extra)
  {
    Pow32();
    if 1 <= distance <= MAX_DISTANCE {
      DistanceSlotIn(distance - 1, 32);
    }
    if slot < 64 && extra < Shl(1, DistanceBits(slot)) {
      SlotDistanceIn(slot, extra);
      SlotDistanceBound(slot, extra, 32);
    }
  }

  // Likewise the length code onto 2..4097.
  lemma {:induction false} LengthsAreCodes(length: nat, slot: nat, extra: nat)
    ensures 2 <= length <= 4097 ==>
      var (s, x) := LengthSlot(length - 2);
      s < 44 && x < Shl(1, LengthBits(s)) && MatchLength(s, x) == length
    ensures slot < 44 && extra < Shl(1, LengthBits(slot)) ==>
      2 <= MatchLength(slot, extra) <= 4097 && LengthSlot(MatchLength(slot, extra) - 2) == (slot, extra)
  {
    if 2 <= length <= 4097 {
      LengthSlotOf(length - 2);
    }
    if slot < 44 && extra < Shl(1, LengthBits(slot)) {
      SlotLengthOf(slot, extra);
    }
  }

  lemma {:induction false} Pow32()
    ensures Shl(1, 32) == MAX_DISTANCE
  {
    ShlShl(1, 8, 8);
    ShlShl(1, 16, 16);
    ShlPower(16, 0x1_0000);
  }

  lemma {:induction false} ShlPower(n: nat, x: nat)
    ensures Shl(x, n) == x * Shl(1, n)
  {
    if n > 0 {
      ShlPower(n - 1, x);
    }
  }
}
