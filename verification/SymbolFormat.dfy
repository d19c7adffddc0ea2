// The symbols of a block as an encoder writes them: what decoding is supposed to undo
// (decoder50.go:166-290, decoder50_items.go:61-152).

module SymbolFormat {
  import opened Basics
  import opened DecodeTypes
  import opened Bits
  import opened Canonical
  import opened Fields
  import opened CodeTables
  import opened Slots
  import opened Symbols
  import BR = BitReader

  // ---- What is written.

  // A length from 2 to 4097: the slot's codeword was symbol's, or is; then its extra bits.
  function LengthExtra(length: nat): seq<Field>
    requires length >= 2
  {
    var (slot, extra) := LengthSlot(length - 2);
    Number(extra, LengthBits(slot))
  }

  // A number, or nothing if it takes no bits.
  function Number(x: nat, width: nat): seq<Field> {
    if width == 0 then [] else [Field(x, width)]
  }

  // The adjustment a decoder makes for a far match.
  function Farther(distance: nat): nat {
    if distance > 0x40000 then 3 else if distance > 0x2000 then 2 else if distance > 0x100 then 1 else 0
  }

  // From four extra bits on the lowest four are a symbol of their own.
  function WriteExtra(lowoffset: seq<byte>, extra: nat, bits: nat): seq<Field>
    requires bits >= 4 ==> Coded(lowoffset, extra % 16)
  {
    if bits < 4 then Number(extra, bits) else Number(extra / 16, bits - 4) + [Codeword(lowoffset, extra % 16)]
  }

  function WriteDistance(ts: Tables, distance: nat): seq<Field>
    requires distance >= 1 && CanWriteDistance(ts, distance)
  {
    var (slot, extra) := DistanceSlot(distance - 1);
    [Codeword(ts.offset, slot)] + WriteExtra(ts.lowoffset, extra, DistanceBits(slot))
  }

  predicate CanWriteDistance(ts: Tables, distance: nat)
    requires distance >= 1
  {
    var (slot, extra) := DistanceSlot(distance - 1);
    Coded(ts.offset, slot) && (DistanceBits(slot) >= 4 ==> Coded(ts.lowoffset, extra % 16))
  }

  // How many bytes a filter's value takes.
  function ByteCount(x: nat): nat {
    if x < 0x100 then 1 else if x < 0x1_0000 then 2 else if x < 0x100_0000 then 3 else 4
  }

  function Pow256(k: nat): (p: nat)
    ensures p > 0
  {
    if k == 0 then 1 else 0x100 * Pow256(k - 1)
  }

  // Its low n bytes, least significant first.
  function WriteBytes(x: nat, n: nat): (fs: seq<Field>)
    ensures |fs| == n
  {
    if n == 0 then [] else WriteBytes(x, n - 1) + [Field(x / Pow256(n - 1) % 0x100, 8)]
  }

  function WriteValue(x: nat): seq<Field> {
    WriteWide(x, ByteCount(x))
  }

  // A value may be written with more bytes than it needs.
  function WriteWide(x: nat, n: nat): seq<Field>
    requires n > 0
  {
    [Field(n - 1, 2)] + WriteBytes(x, n)
  }

  // The record of a filter: where, how long, what kind, and delta's channels.
  function WriteFilter(offset: nat, flen: nat, ftype: nat, param: nat): seq<Field> {
    WriteValue(offset) + (WriteValue(flen) + WriteKind(ftype, param))
  }

  function WriteKind(ftype: nat, param: nat): seq<Field> {
    [Field(ftype, 3)] + if ftype == 0 && param > 0 then [Field(param - 1, 5)] else []
  }

  // The main symbol that says what comes.
  function MainSymbol(op: Op): nat
    requires CanSay(op)
  {
    match op
    case Literal(b) => b
    case Filter(_, _, _, _) => 256
    case RepLast => 257
    case RepDist(slot, _) => 258 + slot
    case Match(length, distance) => 262 + LengthSlot(length - Farther(distance) - 2).0
  }

  // What there is a way of writing at all.
  predicate CanSay(op: Op) {
    match op
    case Literal(_) => true
    case Filter(offset, flen, ftype, param) =>
      offset < 0x1_0000_0000 && flen < 0x1_0000_0000 && ftype < 8 && if ftype == 0 then 1 <= param <= 32 else param == 0
    case RepLast => true
    case RepDist(slot, length) => slot < 4 && 2 <= length <= 4097
    case Match(length, distance) => 1 <= distance <= 0x1_0000_0000 && 2 + Farther(distance) <= length <= 4097 + Farther(distance)
  }

  // And with these tables: every symbol it takes has a codeword.
  predicate CanWrite(ts: Tables, op: Op) {
    && CanSay(op) && Coded(ts.main, MainSymbol(op))
    && (op.RepDist? ==> Coded(ts.length, LengthSlot(op.replen - 2).0))
    && (op.Match? ==> CanWriteDistance(ts, op.distance))
  }

  function WriteOperands(ts: Tables, op: Op): seq<Field>
    requires CanWrite(ts, op)
  {
    match op
    case Literal(_) => []
    case Filter(offset, flen, ftype, param) => WriteFilter(offset, flen, ftype, param)
    case RepLast => []
    case RepDist(_, length) => [Codeword(ts.length, LengthSlot(length - 2).0)] + LengthExtra(length)
    case Match(length, distance) => LengthExtra(length - Farther(distance)) + WriteDistance(ts, distance)
  }

  function WriteOp(ts: Tables, op: Op): (fs: seq<Field>)
    requires CanWrite(ts, op)
  {
    [Codeword(ts.main, MainSymbol(op))] + WriteOperands(ts, op)
  }

  // ---- What is read.

  // A reader gave x and stands behind fs, or the limit came before and it stands where that stopped it.
  predicate Gave(r: Out, x: nat, c: Cursor, fs: seq<Field>) {
    r == if Fits(c, fs) then Out(x, Past(c, fs)) else Fail(EOF, Reached(c, fs))
  }

  predicate GaveOp(r: MatchRead, op: Op, c: Cursor, fs: seq<Field>) {
    r == if Fits(c, fs) then MatchRead(op, Past(c, fs)) else MatchErr(EOF, Reached(c, fs))
  }

  lemma {:induction false} LengthRead(c: Cursor, length: nat)
    requires 2 <= length <= 4097 && Says(c, LengthExtra(length)) && c.pos <= c.limit
    ensures Gave(SlotToLength(c, LengthSlot(length - 2).0), length, c, LengthExtra(length))
  {
    LengthsAreCodes(length, 0, 0);
    var (slot, extra) := LengthSlot(length - 2);
    if LengthBits(slot) > 0 {
      NumberRead(c, Field(extra, LengthBits(slot)));
    }
  }

  lemma {:induction false} HighRead(c: Cursor, x: nat, k: nat)
    requires Says(c, Number(x, k)) && (k == 0 ==> x == 0) && c.pos <= c.limit
    ensures Gave(HighBits(c, k), x, c, Number(x, k))
  {
    if k > 0 {
      NumberRead(c, Field(x, k));
    }
  }

  lemma {:induction false} ExtraRead(ts: Tables, c: Cursor, extra: nat, bits: nat)
    requires Accepted(ts.lowoffset) && extra < Shl(1, bits) && c.pos <= c.limit && (bits >= 4 ==> Coded(ts.lowoffset, extra % 16))
    requires Says(c, WriteExtra(ts.lowoffset, extra, bits))
    ensures Gave(ReadExtra(ts, c, bits), extra, c, WriteExtra(ts.lowoffset, extra, bits))
  {
    if bits < 4 {
      HighRead(c, extra, bits);
    } else {
      assert Shl(1, 4) == 16;
      LowRead(ts, c, extra / 16, extra % 16, bits - 4);
    }
  }

  lemma {:induction false} LowRead(ts: Tables, c: Cursor, high: nat, low: nat, k: nat)
    requires Accepted(ts.lowoffset) && c.pos <= c.limit && Coded(ts.lowoffset, low) && (k == 0 ==> high == 0)
    requires Says(c, Number(high, k) + [Codeword(ts.lowoffset, low)])
    ensures Gave(ReadExtra(ts, c, k + 4), 16 * high + low, c, Number(high, k) + [Codeword(ts.lowoffset, low)])
  {
    var h, f := Number(high, k), Codeword(ts.lowoffset, low);
    SaysSplit(c, h, [f]);
    WidthSplit(h, [f]);
    HighRead(c, high, k);
    SymbolRead(ts.lowoffset, low, Past(c, h));
  }

  lemma {:induction false} DistanceRead(ts: Tables, c: Cursor, distance: nat)
    requires Accepted(ts.offset) && Accepted(ts.lowoffset) && 1 <= distance <= MAX_DISTANCE && c.pos <= c.limit
    requires CanWriteDistance(ts, distance) && Says(c, WriteDistance(ts, distance))
    ensures Gave(ReadDistance(ts, c), distance, c, WriteDistance(ts, distance))
  {
    var (slot, extra) := DistanceSlot(distance - 1);
    DistancesAreCodes(distance, 0, 0);
    var f, more := Codeword(ts.offset, slot), WriteExtra(ts.lowoffset, extra, DistanceBits(slot));
    SaysSplit(c, [f], more);
    WidthSplit([f], more);
    SymbolRead(ts.offset, slot, c);
    if Fits(c, [f]) {
      ExtraRead(ts, Past(c, [f]), extra, DistanceBits(slot));
    }
  }

  lemma {:induction false} FartherIs(length: nat, distance: nat)
    ensures Lengthen(length, distance) == length + Farther(distance)
  {
  }

  lemma {:induction false} PairRead(ts: Tables, c: Cursor, near: nat, distance: nat)
    requires 2 <= near <= 4097 && 1 <= distance <= MAX_DISTANCE && CanWriteDistance(ts, distance)
    requires AllAccepted(ts) && c.pos <= c.limit && Says(c, LengthExtra(near) + WriteDistance(ts, distance))
    ensures GaveOp(ReadMatch(ts, c, LengthSlot(near - 2).0), Match(Lengthen(near, distance), distance), c,
                   LengthExtra(near) + WriteDistance(ts, distance))
  {
    var a, b := LengthExtra(near), WriteDistance(ts, distance);
    SaysSplit(c, a, b);
    WidthSplit(a, b);
    LengthRead(c, near);
    if Fits(c, a) {
      DistanceRead(ts, Past(c, a), distance);
    }
  }

  lemma {:induction false} RepeatRead(ts: Tables, c: Cursor, slot: nat, length: nat)
    requires 2 <= length <= 4097 && Coded(ts.length, LengthSlot(length - 2).0)
    requires AllAccepted(ts) && c.pos <= c.limit && Says(c, [Codeword(ts.length, LengthSlot(length - 2).0)] + LengthExtra(length))
    ensures GaveOp(ReadRepeat(ts, c, slot), RepDist(slot, length), c,
                   [Codeword(ts.length, LengthSlot(length - 2).0)] + LengthExtra(length))
  {
    var a, b := [Codeword(ts.length, LengthSlot(length - 2).0)], LengthExtra(length);
    SaysSplit(c, a, b);
    WidthSplit(a, b);
    SymbolRead(ts.length, LengthSlot(length - 2).0, c);
    if Fits(c, a) {
      LengthRead(Past(c, a), length);
    }
  }

  // ---- A filter's record.

  lemma {:induction false} ModIs(x: nat, m: nat, q: nat, r: nat)
    requires r < m && x == m * q + r
    ensures x % m == r && x / m == q
  {
    var d := x / m - q;
    Multiple(m, d);
    assert x == m * (x / m) + x % m;
    assert m * d == m * (x / m) - m * q;
  }

  // No multiple of m but 0 lies strictly between -m and m.
  lemma {:induction false} Multiple(m: nat, d: int)
    ensures d >= 1 ==> m * d >= m
    ensures d <= -1 ==> m * d + m <= 0
  {
  }

  // One more byte of a number.
  lemma {:induction false} ModMore(x: nat, p: nat)
    requires p > 0
    ensures x % (0x100 * p) == x % p + p * (x / p % 0x100)
  {
    var q, r := x / p, x % p;
    var b := q % 0x100;
    assert q == 0x100 * (q / 0x100) + b;
    assert x == p * q + r == (0x100 * p) * (q / 0x100) + (p * b + r);
    assert p * b <= p * 0xff;
    ModIs(x, 0x100 * p, q / 0x100, p * b + r);
  }

  lemma {:induction false} ShlBytes(b: nat, k: nat)
    ensures Shl(b, 8 * k) == Pow256(k) * b
  {
    if k > 0 {
      ShlBytes(b, k - 1);
      ShlBy8(b, 8 * (k - 1));
      assert 0x100 * (Pow256(k - 1) * b) == Pow256(k) * b;
    }
  }

  lemma {:induction false} BytesRead(c: Cursor, x: nat, n: nat)
    requires Says(c, WriteBytes(x, n)) && c.pos <= c.limit
    ensures Gave(Bytes(c, n), x % Pow256(n), c, WriteBytes(x, n))
  {
    if n > 0 {
      var front, b := WriteBytes(x, n - 1), x / Pow256(n - 1) % 0x100;
      SaysSplit(c, front, [Field(b, 8)]);
      WidthSplit(front, [Field(b, 8)]);
      BytesRead(c, x, n - 1);
      NumberRead(Past(c, front), Field(b, 8));
      ShlBytes(b, n - 1);
      ModMore(x, Pow256(n - 1));
    }
  }

  lemma {:induction false} WideRead(c: Cursor, x: nat, n: nat)
    requires 1 <= n <= 4 && x < Pow256(n) && Says(c, WriteWide(x, n)) && c.pos <= c.limit
    ensures Gave(FilterData(c), x, c, WriteWide(x, n))
  {
    SaysSplit(c, [Field(n - 1, 2)], WriteBytes(x, n));
    WidthSplit([Field(n - 1, 2)], WriteBytes(x, n));
    NumberRead(c, Field(n - 1, 2));
    if Fits(c, [Field(n - 1, 2)]) {
      BytesRead(Past(c, [Field(n - 1, 2)]), x, n);
      ModIs(x, Pow256(n), 0, x);
    }
  }

  lemma {:induction false} ValueRead(c: Cursor, x: nat)
    requires x < 0x1_0000_0000 && Says(c, WriteValue(x)) && c.pos <= c.limit
    ensures Gave(FilterData(c), x, c, WriteValue(x))
  {
    assert Pow256(1) == 0x100 && Pow256(2) == 0x1_0000 && Pow256(3) == 0x100_0000 && Pow256(4) == 0x1_0000_0000;
    WideRead(c, x, ByteCount(x));
  }

  lemma {:induction false} KindRead(c: Cursor, offset: nat, flen: nat, ftype: nat, param: nat)
    requires CanSay(Filter(offset, flen, ftype, param)) && c.pos <= c.limit && Says(c, WriteKind(ftype, param))
    ensures GaveOp(FilterFrom(c, offset, flen), Filter(offset, flen, ftype, param), c, WriteKind(ftype, param))
  {
    var a, b := [Field(ftype, 3)], if ftype == 0 && param > 0 then [Field(param - 1, 5)] else [];
    SaysSplit(c, a, b);
    WidthSplit(a, b);
    NumberRead(c, Field(ftype, 3));
    if b != [] {
      NumberRead(Past(c, a), Field(param - 1, 5));
    }
  }

  lemma {:induction false} FilterRead(c: Cursor, offset: nat, flen: nat, ftype: nat, param: nat)
    requires CanSay(Filter(offset, flen, ftype, param)) && c.pos <= c.limit && Says(c, WriteFilter(offset, flen, ftype, param))
    ensures GaveOp(ReadFilter(c), Filter(offset, flen, ftype, param), c, WriteFilter(offset, flen, ftype, param))
  {
    var a, b, k := WriteValue(offset), WriteValue(flen), WriteKind(ftype, param);
    SaysSplit(c, a, b + k);
    WidthSplit(a, b + k);
    SaysSplit(Past(c, a), b, k);
    WidthSplit(b, k);
    ValueRead(c, offset);
    if Fits(c, a) {
      ValueRead(Past(c, a), flen);
      if Fits(Past(c, a), b) {
        KindRead(Past(Past(c, a), b), offset, flen, ftype, param);
      }
    }
  }

  // ---- Any operation.

  lemma {:induction false} OperandsRead(ts: Tables, c: Cursor, op: Op)
    requires AllAccepted(ts) && CanWrite(ts, op) && c.pos <= c.limit && Says(c, WriteOperands(ts, op))
    ensures GaveOp(ReadOperands(ts, c, MainSymbol(op)), op, c, WriteOperands(ts, op))
  {
    WhichOperands(ts, c, op);
    match op
    case Literal(_) =>
    case Filter(offset, flen, ftype, param) => FilterRead(c, offset, flen, ftype, param);
    case RepLast =>
    case RepDist(slot, length) => RepeatRead(ts, c, slot, length);
    case Match(length, distance) => PairIsRead(ts, c, length, distance);
  }

  lemma {:induction false} WhichOperands(ts: Tables, c: Cursor, op: Op)
    requires CanSay(op)
    ensures ReadOperands(ts, c, MainSymbol(op)) ==
      match op
      case Literal(_) => MatchRead(op, c)
      case Filter(_, _, _, _) => ReadFilter(c)
      case RepLast => MatchRead(op, c)
      case RepDist(slot, _) => ReadRepeat(ts, c, slot)
      case Match(length, distance) => ReadMatch(ts, c, LengthSlot(length - Farther(distance) - 2).0)
  {
  }

  lemma {:induction false} PairIsRead(ts: Tables, c: Cursor, length: nat, distance: nat)
    requires AllAccepted(ts) && CanWrite(ts, Match(length, distance)) && c.pos <= c.limit
    requires Says(c, WriteOperands(ts, Match(length, distance)))
    ensures GaveOp(ReadMatch(ts, c, LengthSlot(length - Farther(distance) - 2).0), Match(length, distance), c,
                   WriteOperands(ts, Match(length, distance)))
  {
    var near := length - Farther(distance);
    FartherIs(near, distance);
    PairRead(ts, c, near, distance);
  }

  // Decoding undoes encoding: bits that say an operation give that operation and leave the reader behind
  // them. If the limit comes before their end the block is over, when not even the first codeword is
  // there, or out of data, with the reader in front of the first number or codeword that is not all there.
  lemma {:induction false} WrittenRead(ts: Tables, c: Cursor, op: Op)
    requires AllAccepted(ts) && CanWrite(ts, op) && Says(c, WriteOp(ts, op))
    ensures var r := ParseSymbol(ts, c); var fs := WriteOp(ts, op);
      if Fits(c, fs) then r == Symbol(op, Past(c, fs))
      else if Fits(c, fs[..1]) then r == Stop(OutOfData, Reached(c, fs))
      else r == BlockEnd
  {
    var a, b := [Codeword(ts.main, MainSymbol(op))], WriteOperands(ts, op);
    SaysSplit(c, a, b);
    WidthSplit(a, b);
    assert (a + b)[..1] == a;
    SymbolRead(ts.main, MainSymbol(op), c);
    if Fits(c, a) {
      OperandsRead(ts, Past(c, a), op);
    }
  }

  // And nothing is ever read that could not have been written.
  lemma {:induction false} ReadCanBeSaid(ts: Tables, c: Cursor)
    ensures var r := ParseSymbol(ts, c); r.Symbol? ==> CanSay(r.op)
  {
    var s := ReadSym(ts.main, c);
    if s.Sym? {
      SymbolOnward(ts.main, c);
      OperandsInRange(ts, s.cur, s.sym);
      if s.sym >= 262 {
        LengthInRange(s.cur, s.sym - 262);
        MatchCanBeSaid(ts, s.cur, s.sym - 262);
      } else if s.sym >= 258 {
        RepeatCanBeSaid(ts, s.cur, s.sym - 258);
      } else if s.sym == 256 {
        FilterCanBeSaid(s.cur);
      }
    }
  }

  lemma {:induction false} MatchCanBeSaid(ts: Tables, c: Cursor, slot: nat)
    requires slot < 44 && c.pos <= c.limit
    ensures var r := ReadMatch(ts, c, slot); r.MatchRead? ==> CanSay(r.op)
  {
    LengthInRange(c, slot);
    var l := SlotToLength(c, slot);
    if l.Out? {
      DistanceInRange(ts, l.cur);
      var d := ReadDistance(ts, l.cur);
      if d.Out? {
        FartherIs(l.value, d.value);
      }
    }
  }

  lemma {:induction false} RepeatCanBeSaid(ts: Tables, c: Cursor, slot: nat)
    requires slot < 4 && c.pos <= c.limit
    ensures var r := ReadRepeat(ts, c, slot); r.MatchRead? ==> CanSay(r.op)
  {
    SymbolOnward(ts.length, c);
    var s := ReadSym(ts.length, c);
    if s.Sym? {
      LengthInRange(s.cur, s.sym);
    }
  }

  lemma {:induction false} FilterCanBeSaid(c: Cursor)
    requires c.pos <= c.limit
    ensures var r := ReadFilter(c); r.MatchRead? ==> CanSay(r.op)
  {
    FilterInRange(c);
    var a := FilterData(c);
    if a.Out? {
      var b := FilterData(a.cur);
      if b.Out? {
        ValueBound(b.cur.buf, b.cur.pos, 3);
        ValueBound(b.cur.buf, b.cur.pos + 3, 5);
      }
    }
  }
}
