// One symbol and everything its bits determine (decodeSymbol's reading half; decoder50.go:182-238,
// decoder50_items.go:61-152).

module Symbols {
  import opened Basics
  import opened DecodeTypes
  import opened Bits
  import opened Canonical
  import opened Slots
  import BR = BitReader

  // mapInnerErr: running out of bits inside a symbol is out of data, not a clean end.
  function Inner(err: Error): Error {
    if err == EOF then OutOfData else err
  }

  // n little-endian bytes.
  function Bytes(c: Cursor, n: nat): (r: Out)
    ensures r.Out? ==> r.value < Shl(1, 8 * n)
  {
    if n == 0 then Out(0, c)
    else
      match Bytes(c, n - 1)
      case Fail(err, c1) => Fail(err, c1)
      case Out(low, c1) =>
        match BR.ReadBits(c1, 8)
        case BitsEOF => Fail(EOF, c1)
        case BitsRead(b, c2) =>
          ValueBound(c1.buf, c1.pos, 8);
          BytePlaced(low, b, n - 1);
          Out(low + Shl(b, 8 * (n - 1)), c2)
  }

  // Little-endian: byte i of the value is the i-th byte of the stream.
  lemma {:induction false} BytesAre(c: Cursor, n: nat, i: nat)
    requires i < n && Bytes(c, n).Out?
    ensures Low(Shr(Bytes(c, n).value, 8 * i), 8) == Value(c.buf, c.pos + 8 * i, 8)
    ensures Bytes(c, n).cur == c.(pos := c.pos + 8 * n)
  {
    BytesPlace(c, n - 1);
    var low := Bytes(c, n - 1);
    var b := Value(c.buf, c.pos + 8 * (n - 1), 8);
    ValueBound(c.buf, c.pos + 8 * (n - 1), 8);
    if i == n - 1 {
      ShrOfShl(b, low.value, 8 * i);
      LowAll(b, 8);
    } else {
      BytesAre(c, n - 1, i);
      LowOfSum(low.value, b, 8 * i, 8 * (n - 1));
    }
  }

  lemma {:induction false} BytesPlace(c: Cursor, n: nat)
    ensures Bytes(c, n).Out? ==> Bytes(c, n).cur == c.(pos := c.pos + 8 * n)
  {
    if n > 0 {
      BytesPlace(c, n - 1);
    }
  }

  lemma {:induction false} LowAll(x: nat, n: nat)
    requires x < Shl(1, n)
    ensures Low(x, n) == x
  {
    if n > 0 {
      LowAll(x / 2, n - 1);
    }
  }

  // What is added at bit b and above does not reach the eight bits from a on.
  lemma {:induction false} LowOfSum(x: nat, y: nat, a: nat, b: nat)
    requires a + 8 <= b
    ensures Low(Shr(x + Shl(y, b), a), 8) == Low(Shr(x, a), 8)
  {
    if a > 0 {
      assert (x + Shl(y, b)) / 2 == x / 2 + Shl(y, b - 1);
      LowOfSum(x / 2, y, a - 1, b - 1);
    } else {
      LowPlus(x, y, 8, b);
    }
  }

  lemma {:induction false} LowPlus(x: nat, y: nat, n: nat, b: nat)
    requires n <= b
    ensures Low(x + Shl(y, b), n) == Low(x, n)
  {
    if n > 0 {
      assert (x + Shl(y, b)) / 2 == x / 2 + Shl(y, b - 1) && (x + Shl(y, b)) % 2 == x % 2;
      LowPlus(x / 2, y, n - 1, b - 1);
    }
  }

  lemma {:induction false} BytePlaced(low: nat, b: nat, k: nat)
    requires low < Shl(1, 8 * k) && b < Shl(1, 8)
    ensures low + Shl(b, 8 * k) < Shl(1, 8 * (k + 1))
  {
    ShlShl(1, 8, 8 * k);
    ShlMono(b, Shl(1, 8), 8 * k);
  }

  // readFilter5Data: a 2-bit count of bytes, then the bytes.
  function FilterData(c: Cursor): (r: Out)
    ensures r.Out? ==> r.value < MAX_DISTANCE
  {
    match BR.ReadBits(c, 2)
    case BitsEOF => Fail(EOF, c)
    case BitsRead(n, c1) =>
      ValueBound(c.buf, c.pos, 2);
      ShlMonoPower(8 * (n + 1), 32);
      Pow32();
      Bytes(c1, n + 1)
  }

  // readFilterBits: offset, length, type, and delta's channel count.
  function ReadFilter(c: Cursor): MatchRead {
    match FilterData(c)
    case Fail(err, c1) => MatchErr(err, c1)
    case Out(offset, c1) =>
      match FilterData(c1)
      case Fail(err, c2) => MatchErr(err, c2)
      case Out(flen, c2) => FilterFrom(c2, offset, flen)
  }

  function FilterFrom(c: Cursor, offset: nat, flen: nat): MatchRead {
    match BR.ReadBits(c, 3)
    case BitsEOF => MatchErr(EOF, c)
    case BitsRead(ftype, c1) =>
      if ftype != 0 then MatchRead(Filter(offset, flen, ftype, 0), c1)
      else
        match BR.ReadBits(c1, 5)
        case BitsEOF => MatchErr(EOF, c1)
        case BitsRead(n, c2) => MatchRead(Filter(offset, flen, 0, n + 1), c2)
  }

  // decodeLengthBits for a repeat-distance symbol.
  function ReadRepeat(ts: Tables, c: Cursor, slot: nat): MatchRead {
    match ReadSym(ts.length, c)
    case SymErr(err, c1) => MatchErr(err, c1)
    case Sym(sl, c1) =>
      match SlotToLength(c1, sl)
      case Fail(err, c2) => MatchErr(err, c2)
      case Out(length, c2) => MatchRead(RepDist(slot, length), c2)
  }

  function ReadOperands(ts: Tables, c: Cursor, sym: nat): MatchRead {
    if sym < 256 then MatchRead(Literal(sym), c)
    else if sym >= 262 then ReadMatch(ts, c, sym - 262)
    else if sym >= 258 then ReadRepeat(ts, c, sym - 258)
    else if sym == 257 then MatchRead(RepLast, c)
    else ReadFilter(c)
  }

  function ParseSymbol(ts: Tables, c: Cursor): Parsed {
    match ReadSym(ts.main, c)
    case SymErr(err, c1) => if err == EOF then BlockEnd else Stop(err, c1)
    case Sym(sym, c1) =>
      match ReadOperands(ts, c1, sym)
      case MatchErr(err, c2) => Stop(Inner(err), c2)
      case MatchRead(op, c2) => Symbol(op, c2)
  }

  // Readers only move forward, and never past the limit.
  ghost predicate Onward(c: Cursor, c': Cursor) {
    c'.limit == c.limit && c.pos <= c'.pos <= c.limit
  }

  lemma {:induction false} SymbolOnward(lens: seq<byte>, c: Cursor)
    ensures ReadSym(lens, c).Sym? ==>
      var r := ReadSym(lens, c); Onward(c, r.cur) && r.cur.pos > c.pos && (lens != [] ==> r.sym < |lens|)
  {
    if ReadSym(lens, c).Sym? {
      SymbolBound(lens, |lens|, IndexOf(lens, Value(c.buf, c.pos, MAX_LEN)));
    }
  }

  lemma {:induction false} SymbolBound(lens: seq<byte>, n: nat, i: nat)
    requires n <= |lens|
    ensures SymbolAt(lens, n, i) < n || SymbolAt(lens, n, i) == 0
  {
    if n > 0 {
      SymbolBound(lens, n - 1, i);
    }
  }

  lemma {:induction false} LengthInRange(c: Cursor, slot: nat)
    requires slot < 44 && c.pos <= c.limit
    ensures var r := SlotToLength(c, slot); r.Out? ==> 2 <= r.value <= 4097 && Onward(c, r.cur)
  {
    var bits := LengthBits(slot);
    if bits == 0 {
      SlotLengthOf(slot, 0);
    } else {
      ValueBound(c.buf, c.pos, bits);
      SlotLengthOf(slot, Value(c.buf, c.pos, bits));
    }
  }

  lemma {:induction false} HighBitsInRange(c: Cursor, k: nat)
    requires c.pos <= c.limit
    ensures var r := HighBits(c, k); r.Out? ==> r.value < Shl(1, k) && Onward(c, r.cur)
  {
    ValueBound(c.buf, c.pos, k);
  }

  lemma {:induction false} LowOffsetFits(hi: nat, low: nat, bits: nat)
    requires bits >= 4 && hi < Shl(1, bits - 4) && low < 16
    ensures 16 * hi + low < Shl(1, bits)
  {
    ShlShl(1, bits - 4, 4);
    ShlPower(4, Shl(1, bits - 4));
  }

  lemma {:induction false} ExtraInRange(ts: Tables, c: Cursor, bits: nat)
    requires c.pos <= c.limit
    ensures var r := ReadExtra(ts, c, bits); r.Out? ==> r.value < Shl(1, bits) && Onward(c, r.cur)
  {
    if bits < 4 {
      HighBitsInRange(c, bits);
    } else {
      HighBitsInRange(c, bits - 4);
      var hi := HighBits(c, bits - 4);
      if hi.Out? {
        SymbolOnward(ts.lowoffset, hi.cur);
        var low := ReadSym(ts.lowoffset, hi.cur);
        if low.Sym? {
          LowOffsetFits(hi.value, low.sym, bits);
        }
      }
    }
  }

  lemma {:induction false} DistanceInRange(ts: Tables, c: Cursor)
    requires c.pos <= c.limit
    ensures var r := ReadDistance(ts, c); r.Out? ==> 1 <= r.value <= MAX_DISTANCE && Onward(c, r.cur)
  {
    SymbolOnward(ts.offset, c);
    var s := ReadSym(ts.offset, c);
    if s.Sym? {
      var bits := DistanceBits(s.sym);
      ExtraInRange(ts, s.cur, bits);
      var x := ReadExtra(ts, s.cur, bits);
      if x.Out? {
        DistancesAreCodes(1, s.sym, x.value);
      }
    }
  }

  lemma {:induction false} BytesOnward(c: Cursor, n: nat)
    requires c.pos <= c.limit
    ensures Bytes(c, n).Out? ==> Onward(c, Bytes(c, n).cur)
  {
    if n > 0 {
      BytesOnward(c, n - 1);
    }
  }

  lemma {:induction false} FilterInRange(c: Cursor)
    requires c.pos <= c.limit
    ensures var r := ReadFilter(c); r.MatchRead? ==> InRange(r.op) && Onward(c, r.cur)
  {
    var r := ReadFilter(c);
    if r.MatchRead? {
      FilterDataOnward(c);
      var c1 := FilterData(c).cur;
      FilterDataOnward(c1);
      var c2 := FilterData(c1).cur;
      ValueBound(c2.buf, c2.pos, 3);
      ValueBound(c2.buf, c2.pos + 3, 5);
    }
  }

  lemma {:induction false} FilterDataOnward(c: Cursor)
    requires c.pos <= c.limit
    ensures FilterData(c).Out? ==> Onward(c, FilterData(c).cur)
  {
    if c.pos + 2 <= c.limit {
      BytesOnward(c.(pos := c.pos + 2), Value(c.buf, c.pos, 2) + 1);
    }
  }

  lemma {:induction false} OperandsInRange(ts: Tables, c: Cursor, sym: nat)
    requires c.pos <= c.limit && sym < MAIN_SIZE
    ensures var r := ReadOperands(ts, c, sym); r.MatchRead? ==> InRange(r.op) && Onward(c, r.cur)
  {
    if sym >= 262 {
      LengthInRange(c, sym - 262);
      var l := SlotToLength(c, sym - 262);
      if l.Out? {
        DistanceInRange(ts, l.cur);
      }
    } else if sym >= 258 {
      SymbolOnward(ts.length, c);
      var s := ReadSym(ts.length, c);
      if s.Sym? {
        LengthInRange(s.cur, s.sym);
      }
    } else if sym == 256 {
      FilterInRange(c);
    }
  }

  // What an item has room for is what the bits can say: lengths 2..4100, distances 1..2^32.
  lemma {:induction false} ParsedInRange(ts: Tables, c: Cursor)
    ensures var p := ParseSymbol(ts, c);
      && (p.Symbol? ==> InRange(p.op) && p.cur.Left() < c.Left())
      && (p.Stop? ==> p.err != EOF)
  {
    var s := ReadSym(ts.main, c);
    if s.Sym? {
      SymbolOnward(ts.main, c);
      OperandsInRange(ts, s.cur, s.sym);
    }
  }
}
