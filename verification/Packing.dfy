// Putting fields into bytes: that whatever has to be said can be said.

module Packing {
  import opened Basics
  import opened DecodeTypes
  import opened Bits
  import opened Canonical
  import opened CodeTables
  import opened Fields
  import opened Slots
  import opened SymbolFormat
  import opened TableFormat
  import opened Written
  import BH = BlockHeader

  // k bits of x, most significant first.
  function NumberBits(x: nat, k: nat): (bs: seq<nat>)
    ensures |bs| == k && forall i :: 0 <= i < k ==> bs[i] < 2
  {
    if k == 0 then [] else NumberBits(x / 2, k - 1) + [x % 2]
  }

  function FieldBits(fs: seq<Field>): (bs: seq<nat>)
    ensures |bs| == Width(fs) && forall i :: 0 <= i < |bs| ==> bs[i] < 2
  {
    if fs == [] then [] else NumberBits(fs[0].value, fs[0].width) + FieldBits(fs[1..])
  }

  function BitOr0(bs: seq<nat>, i: nat): (b: nat)
    ensures b < 2
  {
    if i < |bs| && bs[i] < 2 then bs[i] else 0
  }

  // The first n of them as a number.
  function FirstBits(bs: seq<nat>, n: nat): nat {
    if n == 0 then 0 else 2 * FirstBits(bs, n - 1) + BitOr0(bs, n - 1)
  }

  lemma {:induction false} FirstBitsBound(bs: seq<nat>, n: nat)
    ensures FirstBits(bs, n) < Shl(1, n)
  {
    if n > 0 {
      FirstBitsBound(bs, n - 1);
    }
  }

  // Eight to a byte, the last one padded.
  function ByteOf(bs: seq<nat>): byte {
    ShlBy8(1, 0);
    FirstBitsBound(bs, 8);
    FirstBits(bs, 8)
  }

  function Pack(bs: seq<nat>): (buf: seq<byte>)
    ensures |buf| == (|bs| + 7) / 8
    decreases |bs|
  {
    if bs == [] then [] else [ByteOf(bs)] + Pack(if |bs| > 8 then bs[8..] else [])
  }

  lemma {:induction false} FirstBit(bs: seq<nat>, n: nat, i: nat)
    requires i < n
    ensures Shr(FirstBits(bs, n), n - 1 - i) % 2 == BitOr0(bs, i)
  {
    var y, b := FirstBits(bs, n - 1), BitOr0(bs, n - 1);
    if i < n - 1 {
      FirstBit(bs, n - 1, i);
      ShrHalf(y, b, n - 2 - i);
    } else {
      assert (2 * y + b) % 2 == b;
    }
  }

  lemma {:induction false} ShrHalf(x: nat, b: nat, m: nat)
    requires b < 2
    ensures Shr(2 * x + b, m + 1) == Shr(x, m)
  {
  }

  lemma {:induction false} PackedBit(bs: seq<nat>, i: nat)
    requires i < |bs| && forall j :: 0 <= j < |bs| ==> bs[j] < 2
    ensures BitAt(Pack(bs), i) == bs[i]
    decreases |bs|
  {
    if i < 8 {
      FirstBit(bs, 8, i);
    } else {
      PackedBit(bs[8..], i - 8);
      assert (i - 8) / 8 == i / 8 - 1 && (i - 8) % 8 == i % 8;
    }
  }

  lemma {:induction false} NumberSaid(buf: seq<byte>, p: nat, x: nat, k: nat)
    requires x < Shl(1, k) && forall j :: 0 <= j < k ==> BitAt(buf, p + j) == NumberBits(x, k)[j]
    ensures Value(buf, p, k) == x
  {
    if k > 0 {
      var front := NumberBits(x / 2, k - 1);
      assert forall j :: 0 <= j < k - 1 ==> NumberBits(x, k)[j] == front[j];
      NumberSaid(buf, p, x / 2, k - 1);
      assert BitAt(buf, p + (k - 1)) == NumberBits(x, k)[k - 1] == x % 2;
    }
  }

  // The numbers fit their widths.
  ghost predicate Narrow(fs: seq<Field>) {
    forall i :: 0 <= i < |fs| ==> fs[i].value < Shl(1, fs[i].width)
  }

  lemma {:induction false} BitsSay(c: Cursor, fs: seq<Field>)
    requires Narrow(fs) && forall j :: 0 <= j < Width(fs) ==> BitAt(c.buf, c.pos + j) == FieldBits(fs)[j]
    ensures Says(c, fs)
    decreases |fs|
  {
    if fs != [] {
      var f, rest := fs[0], fs[1..];
      FieldSplit(c.buf, c.pos, fs);
      NumberSaid(c.buf, c.pos, f.value, f.width);
      BitsSay(c.(pos := c.pos + f.width), rest);
    }
  }

  lemma {:induction false} JoinAt(a: seq<nat>, b: seq<nat>, j: nat)
    requires j < |b|
    ensures (a + b)[|a| + j] == b[j]
  {
  }

  lemma {:induction false} FieldSplit(buf: seq<byte>, p: nat, fs: seq<Field>)
    requires fs != [] && forall j :: 0 <= j < Width(fs) ==> BitAt(buf, p + j) == FieldBits(fs)[j]
    ensures var f := fs[0]; forall j :: 0 <= j < f.width ==> BitAt(buf, p + j) == NumberBits(f.value, f.width)[j]
    ensures var q := p + fs[0].width; forall j :: 0 <= j < Width(fs[1..]) ==> BitAt(buf, q + j) == FieldBits(fs[1..])[j]
  {
    var f, rest := fs[0], fs[1..];
    var a, b := NumberBits(f.value, f.width), FieldBits(rest);
    assert FieldBits(fs) == a + b;
    forall j | 0 <= j < f.width ensures BitAt(buf, p + j) == a[j] {
      assert (a + b)[j] == a[j];
    }
    var q := p + f.width;
    forall j | 0 <= j < Width(rest) ensures BitAt(buf, q + j) == b[j] {
      JoinAt(a, b, j);
      assert BitAt(buf, p + (f.width + j)) == FieldBits(fs)[f.width + j];
    }
  }

  // Bytes that say the fields.
  lemma {:induction false} PackSays(fs: seq<Field>, limit: int)
    requires Narrow(fs)
    ensures Says(Cursor(Pack(FieldBits(fs)), 0, limit), fs)
  {
    forall j | 0 <= j < Width(fs) ensures BitAt(Pack(FieldBits(fs)), 0 + j) == FieldBits(fs)[j] {
      PackedBit(FieldBits(fs), j);
    }
    BitsSay(Cursor(Pack(FieldBits(fs)), 0, limit), fs);
  }

  // ---- What is written fits.

  lemma {:induction false} NarrowJoin(a: seq<Field>, b: seq<Field>)
    requires Narrow(a) && Narrow(b)
    ensures Narrow(a + b)
  {
    forall i | 0 <= i < |a + b| ensures (a + b)[i].value < Shl(1, (a + b)[i].width) {
      if i < |a| {
        assert (a + b)[i] == a[i];
      } else {
        assert (a + b)[i] == b[i - |a|];
      }
    }
  }

  lemma {:induction false} CodeFits(lens: seq<byte>, s: nat)
    requires Accepted(lens) && Coded(lens, s)
    ensures Code(lens, s) < Shl(1, lens[s])
  {
    var n := lens[s];
    LimitIsNextCode(lens, n);
    CountPrefix(lens, s, n);
    LimitMono(lens, n, 15);
    var last := NextCode(lens, n) + Count(lens, n);
    ShlAdd(NextCode(lens, n), Count(lens, n), 15 - n);
    ShlBy8(1, 7);
    ShlBy8(1, 0);
    assert Shl(1, 7) == 64 * Shl(1, 1) by {
      assert Shl(1, 4) == 8 * Shl(1, 1);
      assert Shl(1, 7) == 8 * Shl(1, 4);
    }
    ShlShl(1, n, 15 - n);
    if last > Shl(1, n) {
      ShlMono(Shl(1, n), last, 15 - n);
      ShlPositive(15 - n);
    }
  }

  lemma {:induction false} CodewordNarrow(lens: seq<byte>, s: nat)
    requires Accepted(lens) && Coded(lens, s)
    ensures Narrow([Codeword(lens, s)])
  {
    CodeFits(lens, s);
  }

  lemma {:induction false} NumberNarrow(x: nat, k: nat)
    requires x < Shl(1, k)
    ensures Narrow(Number(x, k))
  {
  }

  lemma {:induction false} LengthNarrow(length: nat)
    requires 2 <= length <= 4097
    ensures Narrow(LengthExtra(length))
  {
    LengthsAreCodes(length, 0, 0);
    var (slot, extra) := LengthSlot(length - 2);
    NumberNarrow(extra, LengthBits(slot));
  }

  lemma {:induction false} ExtraNarrow(lowoffset: seq<byte>, extra: nat, bits: nat)
    requires Accepted(lowoffset) && extra < Shl(1, bits) && (bits >= 4 ==> Coded(lowoffset, extra % 16))
    ensures Narrow(WriteExtra(lowoffset, extra, bits))
  {
    if bits < 4 {
      NumberNarrow(extra, bits);
    } else {
      ShlShl(1, bits - 4, 4);
      ShlPower(4, Shl(1, bits - 4));
      assert Shl(1, 4) == 16;
      NumberNarrow(extra / 16, bits - 4);
      CodewordNarrow(lowoffset, extra % 16);
      NarrowJoin(Number(extra / 16, bits - 4), [Codeword(lowoffset, extra % 16)]);
    }
  }

  lemma {:induction false} DistanceNarrow(ts: Tables, distance: nat)
    requires AllAccepted(ts) && 1 <= distance <= MAX_DISTANCE && CanWriteDistance(ts, distance)
    ensures Narrow(WriteDistance(ts, distance))
  {
    DistancesAreCodes(distance, 0, 0);
    var (slot, extra) := DistanceSlot(distance - 1);
    CodewordNarrow(ts.offset, slot);
    ExtraNarrow(ts.lowoffset, extra, DistanceBits(slot));
    NarrowJoin([Codeword(ts.offset, slot)], WriteExtra(ts.lowoffset, extra, DistanceBits(slot)));
  }

  lemma {:induction false} BytesNarrow(x: nat, n: nat)
    ensures Narrow(WriteBytes(x, n))
  {
    if n > 0 {
      BytesNarrow(x, n - 1);
      ShlBy8(1, 0);
      NarrowJoin(WriteBytes(x, n - 1), [Field(x / Pow256(n - 1) % 0x100, 8)]);
    }
  }

  lemma {:induction false} ValueNarrow(x: nat)
    ensures Narrow(WriteValue(x))
  {
    BytesNarrow(x, ByteCount(x));
    assert Shl(1, 2) == 4;
    NarrowJoin([Field(ByteCount(x) - 1, 2)], WriteBytes(x, ByteCount(x)));
  }

  lemma {:induction false} FilterNarrow(offset: nat, flen: nat, ftype: nat, param: nat)
    requires CanSay(Filter(offset, flen, ftype, param))
    ensures Narrow(WriteFilter(offset, flen, ftype, param))
  {
    ValueNarrow(offset);
    ValueNarrow(flen);
    assert Shl(1, 2) == 4 && Shl(1, 3) == 2 * Shl(1, 2) && Shl(1, 5) == 4 * Shl(1, 3);
    NarrowJoin([Field(ftype, 3)], if ftype == 0 && param > 0 then [Field(param - 1, 5)] else []);
    NarrowJoin(WriteValue(flen), WriteKind(ftype, param));
    NarrowJoin(WriteValue(offset), WriteValue(flen) + WriteKind(ftype, param));
  }

  lemma {:induction false} OpNarrow(ts: Tables, op: Op)
    requires AllAccepted(ts) && CanWrite(ts, op)
    ensures Narrow(WriteOp(ts, op))
  {
    CodewordNarrow(ts.main, MainSymbol(op));
    match op {
      case Literal(_) =>
      case Filter(offset, flen, ftype, param) => FilterNarrow(offset, flen, ftype, param);
      case RepLast =>
      case RepDist(_, length) =>
        CodewordNarrow(ts.length, LengthSlot(length - 2).0);
        LengthNarrow(length);
        NarrowJoin([Codeword(ts.length, LengthSlot(length - 2).0)], LengthExtra(length));
      case Match(length, distance) =>
        LengthNarrow(length - Farther(distance));
        DistanceNarrow(ts, distance);
        NarrowJoin(LengthExtra(length - Farther(distance)), WriteDistance(ts, distance));
    }
    NarrowJoin([Codeword(ts.main, MainSymbol(op))], WriteOperands(ts, op));
  }

  lemma {:induction false} OpsNarrow(ts: Tables, ops: seq<Op>)
    requires AllWritable(ts, ops)
    ensures Narrow(OpsFields(ts, ops))
  {
    if ops != [] {
      OpNarrow(ts, ops[0]);
      OpsNarrow(ts, ops[1..]);
      NarrowJoin(WriteOp(ts, ops[0]), OpsFields(ts, ops[1..]));
    }
  }

  lemma {:induction false} PiecesNarrow(ps: seq<Piece>)
    requires forall i :: 0 <= i < |ps| ==> PieceOk(ps[i])
    ensures Narrow(PiecesFields(ps))
  {
    if ps != [] {
      assert Shl(1, 2) == 4 && Shl(1, 4) == 4 * Shl(1, 2);
      assert Narrow(PieceFields(ps[0]));
      PiecesNarrow(ps[1..]);
      NarrowJoin(PieceFields(ps[0]), PiecesFields(ps[1..]));
    }
  }

  lemma {:induction false} RunNarrow(bl: seq<byte>, r: Run, acc: seq<byte>)
    requires Accepted(bl) && RunOk(r, acc) && Coded(bl, RunSymbol(r))
    ensures Narrow(RunFields(bl, r))
  {
    assert Shl(1, 3) == 8 && Shl(1, 5) == 4 * Shl(1, 3) && Shl(1, 7) == 4 * Shl(1, 5);
    CodewordNarrow(bl, RunSymbol(r));
    NarrowJoin([Codeword(bl, RunSymbol(r))], RunCount(r));
  }

  lemma {:induction false} RunsNarrow(bl: seq<byte>, acc: seq<byte>, rs: seq<Run>, size: nat)
    requires Accepted(bl) && RunsOk(bl, acc, rs, size)
    ensures Narrow(RunsFields(bl, acc, rs, size))
    decreases |rs|
  {
    if rs != [] {
      var next := Clip(SpreadRun(acc, rs[0]), size);
      RunNarrow(bl, rs[0], acc);
      RunsNarrow(bl, next, rs[1..], size);
      NarrowJoin(RunFields(bl, rs[0]), RunsFields(bl, next, rs[1..], size));
    }
  }

  lemma {:induction false} TableNarrow(b: BlockText)
    requires TableOk(b)
    ensures Narrow(TableFields(b))
  {
    if b.table.Some? {
      var t := b.table.value;
      var bl := SpreadPieces([], t.pieces);
      AllPiecesOk([], t.pieces);
      PiecesNarrow(t.pieces);
      RunsNarrow(bl, [], t.runs, TABLE_SIZE);
      NarrowJoin(PiecesFields(t.pieces), RunsFields(bl, [], t.runs, TABLE_SIZE));
    }
  }

  // ---- Any operations that fit into a block have one.

  function ThreeBytes(x: nat): seq<byte>
    requires x < 0x100_0000
  {
    [x % 0x100, x / 0x100 % 0x100, x / 0x1_0000]
  }

  lemma {:induction false} ThreeBytesAre(x: nat)
    requires x < 0x100_0000
    ensures BH.LittleEndian(ThreeBytes(x)) == x
  {
    var a: byte, b: byte, c: byte := x % 0x100, x / 0x100 % 0x100, x / 0x1_0000;
    ThreeAre(a, b, c);
    assert x / 0x100 / 0x100 == c;
  }

  lemma {:induction false} ThreeAre(a: byte, b: byte, c: byte)
    ensures BH.LittleEndian([a, b, c]) as int == a as int + 0x100 * b as int + 0x1_0000 * c as int
  {
    assert [c][1..] == [];
    assert BH.LittleEndian([c]) == c;
    assert [b, c][1..] == [c];
    assert [a, b, c][1..] == [b, c];
  }

  // With tables in force, or tables of its own written however one likes.
  lemma {:induction false} BlockExists(ts: Tables, last: bool, table: Option<Text>, ops: seq<Op>) returns (b: BlockText)
    requires var t := BlockText(1, last, table, ops, [], []);
      && TableOk(t) && AllWritable(InForce(t, ts), ops)
      && 0 < Width(TableFields(t) + OpsFields(InForce(t, ts), ops)) <= 8 * 0xff_ffff
    ensures BlockOk(ts, b) && b.last == last && b.table == table && b.ops == ops
  {
    var t := BlockText(1, last, table, ops, [], []);
    var fs := TableFields(t) + OpsFields(InForce(t, ts), ops);
    TableNarrow(t);
    OpsNarrow(InForce(t, ts), ops);
    NarrowJoin(TableFields(t), OpsFields(InForce(t, ts), ops));
    var n := Width(fs);
    var payload := Pack(FieldBits(fs));
    b := BlockText((n - 1) % 8 + 1, last, table, ops, ThreeBytes(|payload|), payload);
    PackSays(fs, n);
    ThreeBytesAre(|payload|);
    assert Start(b).limit == n;
  }
}
