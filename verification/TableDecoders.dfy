// tableSet and the readers that use it: the bit reader and the four Huffman decoders at work on one
// symbol, against the specification in Symbols.

module TableDecoders {
  import opened Basics
  import opened DecodeTypes
  import opened Bits
  import opened Slots
  import opened Symbols
  import opened CodeTables
  import C = Canonical
  import BR = BitReader
  import H = Huffman

  // slotToLength.
  method ReadLength(br: BR.BitReader, slot: nat) returns (length: nat, err: Option<Error>)
    requires br.Valid() && slot < LENGTH_SIZE
    modifies br
    ensures br.Valid()
    ensures SlotToLength(old(br.C()), slot) == if err.None? then Out(length, br.C()) else Fail(err.value, br.C())
  {
    length, err := slot, None;
    if slot >= 8 {
      var bits := slot / 4 - 1;
      length := Shl(4 + slot % 4, bits);
      if bits > 0 {
        var b;
        b, err := br.Read(bits);
        if err.Some? {
          return;
        }
        length := length + b; // the shift left these bits clear
      }
    }
    length := length + 2;
  }

  // A far distance makes its match longer.
  method FarLength(length: nat, distance: nat) returns (len: nat)
    ensures len == Lengthen(length, distance)
  {
    len := length;
    if distance > 0x100 {
      len := len + 1;
      if distance > 0x2000 {
        len := len + 1;
        if distance > 0x40000 {
          len := len + 1;
        }
      }
    }
  }

  method ReadFilterData(br: BR.BitReader) returns (data: nat, err: Option<Error>)
    requires br.Valid()
    modifies br
    ensures br.Valid()
    ensures FilterData(old(br.C())) == if err.None? then Out(data, br.C()) else Fail(err.value, br.C())
  {
    var n;
    data := 0;
    n, err := br.Read(2);
    if err.Some? {
      return;
    }
    data, err := ReadBytes(br, n + 1);
  }

  // Least significant byte first.
  method ReadBytes(br: BR.BitReader, count: nat) returns (data: nat, err: Option<Error>)
    requires br.Valid()
    modifies br
    ensures br.Valid()
    ensures Bytes(old(br.C()), count) == if err.None? then Out(data, br.C()) else Fail(err.value, br.C())
  {
    ghost var c0 := br.C();
    data, err := 0, None;
    for i := 0 to count
      invariant br.Valid() && err.None?
      invariant Bytes(c0, i) == Out(data, br.C())
    {
      var b;
      b, err := br.Read(8);
      if err.Some? {
        BytesStopped(c0, i + 1, count);
        return;
      }
      data := data + Shl(b, 8 * i);
    }
  }

  lemma {:induction false} BytesStopped(c: Cursor, i: nat, n: nat)
    requires i <= n && Bytes(c, i).Fail?
    ensures Bytes(c, n) == Bytes(c, i)
  {
    if i < n {
      BytesStopped(c, i, n - 1);
    }
  }

  method ReadFilterBits(br: BR.BitReader) returns (op: Op, err: Option<Error>)
    requires br.Valid()
    modifies br
    ensures br.Valid()
    ensures ReadFilter(old(br.C())) == if err.None? then MatchRead(op, br.C()) else MatchErr(err.value, br.C())
  {
    op := RepLast;
    var offset, flen;
    offset, err := ReadFilterData(br);
    if err.Some? {
      return;
    }
    flen, err := ReadFilterData(br);
    if err.Some? {
      return;
    }
    op, err := ReadFilterKind(br, offset, flen);
  }

  // The type, and delta's channel count.
  method ReadFilterKind(br: BR.BitReader, offset: nat, flen: nat) returns (op: Op, err: Option<Error>)
    requires br.Valid()
    modifies br
    ensures br.Valid()
    ensures FilterFrom(old(br.C()), offset, flen) == if err.None? then MatchRead(op, br.C()) else MatchErr(err.value, br.C())
  {
    op := RepLast;
    var ftype, n;
    ftype, err := br.Read(3);
    if err.Some? {
      return;
    }
    n := 0;
    if ftype == 0 {
      n, err := br.Read(5);
      if err.Some? {
        return;
      }
      n := n + 1;
    }
    op := Filter(offset, flen, ftype, n);
  }

  datatype Table = Main | Offset | LowOffset | Length

  class Decoders {
    const main: H.HuffmanDecoder
    const offset: H.HuffmanDecoder
    const lowoffset: H.HuffmanDecoder
    const length: H.HuffmanDecoder

    ghost const front: set<object>  // main and offset
    ghost const back: set<object>   // lowoffset and length
    ghost const repr: set<object>   // everything the decoders consist of

    // Four decoders with nothing in common.
    ghost predicate Shape() {
      && main.Shape() && offset.Shape() && lowoffset.Shape() && length.Shape()
      && main.repr <= front && offset.repr <= front && main.repr !! offset.repr
      && lowoffset.repr <= back && length.repr <= back && lowoffset.repr !! length.repr
      && front !! back && front <= repr && back <= repr
    }

    ghost predicate Holds(ts: Tables)
      reads repr
    {
      && Shape()
      && forall t :: Ready(t, ts)
    }

    // One of the four is ready for its table.
    ghost predicate Ready(t: Table, ts: Tables)
      requires Shape()
      reads repr
    {
      match t
      case Main => main.Valid() && main.lens == ts.main
      case Offset => offset.Valid() && offset.lens == ts.offset
      case LowOffset => lowoffset.Valid() && lowoffset.lens == ts.lowoffset
      case Length => length.Valid() && length.lens == ts.length
    }

    constructor (m: H.HuffmanDecoder, o: H.HuffmanDecoder, lo: H.HuffmanDecoder, l: H.HuffmanDecoder, ghost f: set<object>, ghost b: set<object>)
      ensures main == m && offset == o && lowoffset == lo && length == l && front == f && back == b && repr == f + b
    {
      main, offset, lowoffset, length, front, back, repr := m, o, lo, l, f, b, f + b;
    }

    // prewarm: tables with no codewords.
    static method New() returns (d: Decoders)
      ensures d.Holds(NO_TABLES) && fresh(d.repr)
    {
      ghost var f, b;
      var m, o, lo, l;
      m, o, f := NewPair(NO_TABLES.main, NO_TABLES.offset);
      lo, l, b := NewPair(NO_TABLES.lowoffset, NO_TABLES.length);
      d := new Decoders(m, o, lo, l, f, b);
      d.AllReady(NO_TABLES);
    }

    lemma {:induction false} AllReady(ts: Tables)
      requires Shape() && main.Valid() && offset.Valid() && lowoffset.Valid() && length.Valid()
      requires main.lens == ts.main && offset.lens == ts.offset && lowoffset.lens == ts.lowoffset && length.lens == ts.length
      ensures Holds(ts)
    {
    }

    // Two decoders with no codewords yet.
    static method NewPair(ghost m: seq<byte>, ghost n: seq<byte>) returns (a: H.HuffmanDecoder, b: H.HuffmanDecoder, ghost both: set<object>)
      requires forall i :: 0 <= i < |m| ==> m[i] == 0
      requires forall i :: 0 <= i < |n| ==> n[i] == 0
      ensures a.Shape() && b.Shape() && a.repr !! b.repr && a.repr <= both && b.repr <= both && fresh(both)
      ensures a.Valid() && a.lens == m && b.Valid() && b.lens == n
    {
      a := new H.HuffmanDecoder(m);
      b := new H.HuffmanDecoder(n);
      both := a.repr + b.repr;
    }

    // A match: length slot, offset slot, high bits, low offset.
    method ReadMatchBits(br: BR.BitReader, ghost ts: Tables, slot: nat) returns (op: Op, err: Option<Error>)
      requires br.Valid() && br !in offset.repr && br !in lowoffset.repr
      requires offset.Valid() && lowoffset.Valid() && offset.lens == ts.offset && lowoffset.lens == ts.lowoffset && slot < LENGTH_SIZE
      modifies br
      ensures br.Valid()
      ensures ReadMatch(ts, old(br.C()), slot) == if err.None? then MatchRead(op, br.C()) else MatchErr(err.value, br.C())
    {
      op := RepLast;
      var len, distance;
      len, err := ReadLength(br, slot);
      if err.Some? {
        return;
      }
      distance, err := ReadDistanceBits(br, ts);
      if err.Some? {
        return;
      }
      len := FarLength(len, distance);
      op := Match(len, distance);
    }

    method ReadDistanceBits(br: BR.BitReader, ghost ts: Tables) returns (distance: nat, err: Option<Error>)
      requires br.Valid() && br !in offset.repr && br !in lowoffset.repr
      requires offset.Valid() && lowoffset.Valid() && offset.lens == ts.offset && lowoffset.lens == ts.lowoffset
      modifies br
      ensures br.Valid()
      ensures ReadDistance(ts, old(br.C())) == if err.None? then Out(distance, br.C()) else Fail(err.value, br.C())
    {
      distance := 1;
      SymbolOnward(ts.offset, br.C());
      var slot;
      slot, err := offset.Read(br);
      if err.Some? {
        return;
      }
      distance, err := ReadFromSlot(br, ts, slot);
    }

    method ReadFromSlot(br: BR.BitReader, ghost ts: Tables, slot: nat) returns (distance: nat, err: Option<Error>)
      requires br.Valid() && br !in lowoffset.repr && lowoffset.Valid() && lowoffset.lens == ts.lowoffset && slot < OFFSET_SIZE
      modifies br
      ensures br.Valid()
      ensures DistanceFrom(ts, old(br.C()), slot) == if err.None? then Out(distance, br.C()) else Fail(err.value, br.C())
    {
      distance := 1;
      if slot < 4 {
        return distance + slot, None;
      }
      distance := distance + Shl(2 + slot % 2, slot / 2 - 1);
      var n;
      n, err := ReadExtraBits(br, ts, slot / 2 - 1);
      distance := distance + n;
    }

    // The high bits of a far distance and its low-offset symbol, or a near one's few bits.
    method ReadExtraBits(br: BR.BitReader, ghost ts: Tables, bits: nat) returns (n: nat, err: Option<Error>)
      requires br.Valid() && br !in lowoffset.repr && lowoffset.Valid() && lowoffset.lens == ts.lowoffset && bits <= 32
      modifies br
      ensures br.Valid()
      ensures ReadExtra(ts, old(br.C()), bits) == if err.None? then Out(n, br.C()) else Fail(err.value, br.C())
    {
      n, err := ReadHighBits(br, if bits < 4 then bits else bits - 4);
      if err.Some? || bits < 4 {
        return;
      }
      n := 16 * n;
      var low;
      low, err := lowoffset.Read(br);
      n := n + low;
    }

    static method ReadHighBits(br: BR.BitReader, k: nat) returns (n: nat, err: Option<Error>)
      requires br.Valid() && k <= 32
      modifies br
      ensures br.Valid()
      ensures HighBits(old(br.C()), k) == if err.None? then Out(n, br.C()) else Fail(err.value, br.C())
    {
      n, err := 0, None;
      if k > 0 {
        n, err := br.Read(k);
      }
    }

    method ReadRepeatBits(br: BR.BitReader, ghost ts: Tables, slot: nat) returns (op: Op, err: Option<Error>)
      requires br.Valid() && br !in length.repr && length.Valid() && length.lens == ts.length
      modifies br
      ensures br.Valid()
      ensures ReadRepeat(ts, old(br.C()), slot) == if err.None? then MatchRead(op, br.C()) else MatchErr(err.value, br.C())
    {
      op := RepLast;
      SymbolOnward(ts.length, br.C());
      var sl, len;
      sl, err := length.Read(br);
      if err.Some? {
        return;
      }
      len, err := ReadLength(br, sl);
      op := RepDist(slot, len);
    }

    // What follows main symbol sym reads as r. Said of any tables equal to ts, so that what reading it comes
    // to is looked at only where it is asked for.
    static ghost predicate Operands(ts: Tables, c: Cursor, sym: nat, r: MatchRead) {
      forall u :: Same(u, ts) ==> ReadOperands(u, c, sym) == r
    }

    static ghost predicate Same(u: Tables, ts: Tables) {
      u == ts
    }

    method ReadOperandBits(br: BR.BitReader, ghost ts: Tables, sym: nat) returns (op: Op, err: Option<Error>)
      requires br.Valid() && Holds(ts) && br !in repr && sym < MAIN_SIZE
      modifies br
      ensures br.Valid()
      ensures Operands(ts, old(br.C()), sym, if err.None? then MatchRead(op, br.C()) else MatchErr(err.value, br.C()))
    {
      if sym >= 262 {
        op, err := ReadMatchSymbol(br, ts, sym);
      } else if sym >= 258 {
        op, err := ReadRepeatSymbol(br, ts, sym);
      } else {
        op, err := ReadOtherSymbol(br, ts, sym);
      }
    }

    method ReadMatchSymbol(br: BR.BitReader, ghost ts: Tables, sym: nat) returns (op: Op, err: Option<Error>)
      requires br.Valid() && Holds(ts) && br !in repr && 262 <= sym < MAIN_SIZE
      modifies br
      ensures br.Valid()
      ensures Operands(ts, old(br.C()), sym, if err.None? then MatchRead(op, br.C()) else MatchErr(err.value, br.C()))
    {
      assert Ready(Offset, ts) && Ready(LowOffset, ts);
      op, err := ReadMatchBits(br, ts, sym - 262);
    }

    method ReadRepeatSymbol(br: BR.BitReader, ghost ts: Tables, sym: nat) returns (op: Op, err: Option<Error>)
      requires br.Valid() && Holds(ts) && br !in repr && 258 <= sym < 262
      modifies br
      ensures br.Valid()
      ensures Operands(ts, old(br.C()), sym, if err.None? then MatchRead(op, br.C()) else MatchErr(err.value, br.C()))
    {
      assert Ready(Length, ts);
      op, err := ReadRepeatBits(br, ts, sym - 258);
    }

    method ReadOtherSymbol(br: BR.BitReader, ghost ts: Tables, sym: nat) returns (op: Op, err: Option<Error>)
      requires br.Valid() && sym < 258
      modifies br
      ensures br.Valid()
      ensures Operands(ts, old(br.C()), sym, if err.None? then MatchRead(op, br.C()) else MatchErr(err.value, br.C()))
    {
      if sym < 256 {
        return Literal(sym), None;
      }
      if sym == 257 {
        return RepLast, None;
      }
      op, err := ReadFilterBits(br);
    }

    // One symbol: what the block machinery calls Engine.parse.
    method ReadSymbol(br: BR.BitReader, ghost ts: Tables) returns (p: Parsed)
      requires br.Valid() && Holds(ts) && br !in repr
      modifies br
      ensures br.Valid()
      ensures p == ParseSymbol(ts, old(br.C()))
      ensures if p.BlockEnd? then br.C() == old(br.C()) else br.C() == p.cur
    {
      SymbolOnward(ts.main, br.C());
      assert Ready(Main, ts);
      var sym, err := main.Read(br);
      var c := Cursor(br.buf, br.bitsRead, br.limit);
      if err.Some? {
        return if err.value == EOF then BlockEnd else Stop(err.value, c);
      }
      var op;
      op, err := ReadOperandBits(br, ts, sym);
      assert Same(ts, ts);
      c := Cursor(br.buf, br.bitsRead, br.limit);
      p := if err.Some? then Stop(Inner(err.value), c) else Symbol(op, c);
    }

    // h stands for these lengths if ok, and is as it was otherwise.
    static twostate predicate Loaded(h: H.HuffmanDecoder, new lens: seq<byte>, new ok: bool)
      reads h.repr
    {
      if ok then h.Valid() && h.lens == lens else unchanged(h.repr)
    }

    // load: the four tables in the order the header stores them. If one is refused, the ones before
    // it have been replaced.
    method LoadTables(cl: seq<byte>) returns (err: Option<Error>)
      requires Shape() && |cl| == TABLE_SIZE
      modifies repr
      ensures err == if Load(cl).Some? then None else Some(InvalidLengthTable)
      ensures Load(cl).Some? ==> Holds(Load(cl).value)
      ensures var ts := Cut(cl);
        var one := C.Accepted(ts.main);
        var two := one && C.Accepted(ts.offset);
        var three := two && C.Accepted(ts.lowoffset);
        && Loaded(main, ts.main, one) && Loaded(offset, ts.offset, two)
        && Loaded(lowoffset, ts.lowoffset, three) && Loaded(length, ts.length, three && C.Accepted(ts.length))
    {
      err := InitBoth(main, offset, cl[..MAIN_SIZE], cl[MAIN_SIZE..MAIN_SIZE + OFFSET_SIZE]);
      if err.Some? {
        return;
      }
      err := InitBoth(lowoffset, length, cl[MAIN_SIZE + OFFSET_SIZE..MAIN_SIZE + OFFSET_SIZE + LOW_OFFSET_SIZE],
                      cl[MAIN_SIZE + OFFSET_SIZE + LOW_OFFSET_SIZE..]);
    }

    static method InitBoth(a: H.HuffmanDecoder, b: H.HuffmanDecoder, la: seq<byte>, lb: seq<byte>) returns (err: Option<Error>)
      requires a.Shape() && b.Shape() && a.repr !! b.repr && |la| < 0x1_0000 && |lb| < 0x1_0000
      modifies a.repr, b.repr
      ensures err == if C.Accepted(la) && C.Accepted(lb) then None else Some(InvalidLengthTable)
      ensures Loaded(a, la, C.Accepted(la)) && Loaded(b, lb, C.Accepted(la) && C.Accepted(lb))
    {
      err := a.Init(la);
      if err.Some? {
        return;
      }
      err := b.Init(lb);
    }
  }
}
