// fill's symbol loop on the real parts: ring buffer, 64-bit bit reader, Huffman tables, distance
// history (decoder50.go:297-322, decoder50_items.go:416-442).

module BlockFill {
  import opened Basics
  import opened DecodeTypes
  import opened Serial
  import opened Rar5Laws
  import opened Emission
  import Apply
  import Symbols
  import BH = BlockHeader
  import BR = BitReader
  import CT = CodeTables
  import H = Huffman
  import TD = TableDecoders
  import WD = WindowDecoder

  // The decoder and the reader share nothing with the tables.
  ghost predicate Apart(dec: WD.WindowDecoder, br: BR.BitReader, tables: TD.Decoders)
    reads dec.win
  {
    Clear(dec, tables.repr) && br !in tables.repr
  }

  ghost predicate Clear(dec: WD.WindowDecoder, s: set<object>)
    reads dec.win
  {
    dec !in s && dec.offset !in s && dec.win !in s && dec.win.buf !in s
  }

  // One symbol read from the bits: the window is not touched.
  method ReadStep(dec: WD.WindowDecoder, br: BR.BitReader, tables: TD.Decoders, ghost ts: Tables) returns (p: Parsed)
    requires dec.Valid() && br.Valid() && tables.Holds(ts) && Apart(dec, br, tables)
    modifies br
    ensures dec.Valid() && br.Valid() && tables.Holds(ts) && dec.D() == old(dec.D())
    ensures p == Symbols.ParseSymbol(ts, old(br.C())) && br.C() == (if p.BlockEnd? then old(br.C()) else p.cur)
  {
    p := tables.ReadSymbol(br, ts);
  }

  // And applied to the window: the reader and the tables are not touched.
  method ApplyStep(dec: WD.WindowDecoder, br: BR.BitReader, tables: TD.Decoders, ghost ts: Tables, op: Op) returns (err: Option<Error>)
    requires dec.Valid() && br.Valid() && tables.Holds(ts) && Apart(dec, br, tables)
    requires Apply.DecOk(dec.D()) && InRange(op) && dec.win.unread < dec.win.Target()
    modifies dec, dec.offset, dec.win, dec.win.buf
    ensures dec.Valid() && br.Valid() && tables.Holds(ts) && dec.win.buf == old(dec.win.buf) && br.C() == old(br.C())
    ensures Applied(dec.D(), err) == Apply.ApplyOp(old(dec.D()), op)
  {
    err := dec.ApplySymbol(op);
  }

  method DecodeSymbol(dec: WD.WindowDecoder, br: BR.BitReader, tables: TD.Decoders, ghost ts: Tables)
    returns (p: Parsed, err: Option<Error>)
    requires dec.Valid() && br.Valid() && tables.Holds(ts) && Apart(dec, br, tables)
    requires Apply.DecOk(dec.D()) && dec.win.unread < dec.win.Target()
    modifies br, dec, dec.offset, dec.win, dec.win.buf
    ensures dec.Valid() && br.Valid() && tables.Holds(ts) && dec.win.buf == old(dec.win.buf)
    ensures p == Symbols.ParseSymbol(ts, old(br.C())) && br.C() == (if p.BlockEnd? then old(br.C()) else p.cur)
    ensures if p.Symbol? then Applied(dec.D(), err) == Apply.ApplyOp(old(dec.D()), p.op) else dec.D() == old(dec.D())
  {
    ghost var c := br.C();
    p := ReadStep(dec, br, tables, ts);
    err := None;
    if p.Symbol? {
      Symbols.ParsedInRange(ts, c);
      err := ApplyStep(dec, br, tables, ts, p.op);
    }
  }

  // The specification's fill from s0 ends in f, and it passes through s. Both are said of any engine that
  // is the repository's, of which there is one.
  ghost predicate IsRar5(e: Engine) {
    e == Rar5Engine() && Lawful(e)
  }

  ghost predicate FillEnds(s0: Ser, target: nat, f: Filled) {
    forall e :: IsRar5(e) ==> SerialFill(e, s0, target) == f
  }

  ghost predicate FillPasses(s0: Ser, s: Ser, target: nat) {
    forall e :: IsRar5(e) ==> SerialFill(e, s0, target) == SerialFill(e, s, target)
  }

  // The block at hand has no more symbols.
  ghost predicate Over(at: Place) {
    forall e :: IsRar5(e) ==> AtEnd(e, at)
  }

  ghost predicate Takes(src: seq<byte>, b: BlockRead) {
    forall e :: IsRar5(e) ==> ReadBlock(e, src) == b
  }

  // fill has got to s from s0, or ended there.
  ghost predicate Gets(s0: Ser, s: Ser, target: nat, err: Option<Error>) {
    if err.Some? then FillEnds(s0, target, Filled(s, err)) else FillPasses(s0, s, target)
  }

  lemma {:induction false} GetsOn(s0: Ser, s1: Ser, s2: Ser, target: nat, err: Option<Error>)
    requires FillPasses(s0, s1, target) && Gets(s1, s2, target, err)
    ensures Gets(s0, s2, target, err)
  {
  }

  lemma {:induction false} FillIs(s0: Ser, target: nat, f: Filled)
    requires FillEnds(s0, target, f)
    ensures Lawful(Rar5Engine()) && SerialFill(Rar5Engine(), s0, target) == f
  {
    Rar5Lawful(Rar5Engine());
    assert IsRar5(Rar5Engine());
  }

  lemma {:induction false} TargetMet(s0: Ser, s: Ser, target: nat)
    requires FillPasses(s0, s, target) && s.d.win.unread >= target
    ensures FillEnds(s0, target, Filled(s, None))
  {
  }

  ghost function Standing(d: Dec, c: Cursor, ts: Tables, last: bool, src: seq<byte>): Ser {
    Ser(d, Place(Some(c), ts, last, src))
  }

  // One trip of the loop, on values.
  lemma {:induction false} SymbolStep(d: Dec, c: Cursor, ts: Tables, last: bool, src: seq<byte>, target: nat, a: Applied, c': Cursor)
    requires d.win.unread < target
    requires var p := Symbols.ParseSymbol(ts, c);
      match p
      case BlockEnd => false
      case Stop(err, c1) => a == Applied(d, Some(err)) && c' == c1
      case Symbol(op, c1) => a == Apply.ApplyOp(d, op) && c' == c1
    ensures Gets(Standing(d, c, ts, last, src), Standing(a.d, c', ts, last, src), target, a.err)
    ensures a.err.None? ==> c'.Left() < c.Left()
  {
    var e := Rar5Engine();
    Rar5Lawful(e);
    assert Laws(e, Now);
    Rar5Is(e);
    var s := Standing(d, c, ts, last, src);
    if Symbols.ParseSymbol(ts, c).Symbol? {
      FollowSymbol(e, s, s, target);
    }
  }

  // Runs until the block ends, the window stages target bytes, or an error: the very point fill gets
  // to from the same state, whatever block and bytes come after.
  method FillBlock(dec: WD.WindowDecoder, br: BR.BitReader, tables: TD.Decoders, target: nat,
                   ghost ts: Tables, ghost last: bool, ghost src: seq<byte>)
    returns (ended: bool, err: Option<Error>)
    requires dec.Valid() && br.Valid() && tables.Holds(ts) && Apart(dec, br, tables)
    requires Apply.DecOk(dec.D()) && target <= dec.win.Target()
    modifies br, dec, dec.offset, dec.win, dec.win.buf
    ensures dec.Valid() && br.Valid() && tables.Holds(ts) && Apply.DecOk(dec.D()) && dec.win.buf == old(dec.win.buf)
    ensures Gets(Standing(old(dec.D()), old(br.C()), ts, last, src), Standing(dec.D(), br.C(), ts, last, src), target, err)
    ensures if ended then err.None? && Over(Place(Some(br.C()), ts, last, src)) && dec.win.unread < target
            else err.None? ==> dec.win.unread >= target
  {
    ghost var s0 := Standing(dec.D(), br.C(), ts, last, src);
    ended, err := false, None;
    while dec.win.Available() < target
      invariant err.None? && !ended
      invariant dec.Valid() && br.Valid() && tables.Holds(ts) && dec.win.buf == old(dec.win.buf)
      invariant Apply.DecOk(dec.D()) && target <= dec.win.Target()
      invariant FillPasses(s0, Standing(dec.D(), br.C(), ts, last, src), target)
      decreases br.C().Left()
    {
      ghost var d, c := dec.D(), br.C();
      var p;
      p, err := DecodeSymbol(dec, br, tables, ts);
      if p.BlockEnd? {
        BlockOver(Standing(d, c, ts, last, src).at);
        ended, err := true, None;
        return;
      }
      if p.Stop? {
        err := Some(p.err);
      } else {
        Symbols.ParsedInRange(ts, c);
        Apply.AppliedFits(d, p.op);
      }
      SymbolStep(d, c, ts, last, src, target, Applied(dec.D(), err), br.C());
      GetsOn(s0, Standing(d, c, ts, last, src), Standing(dec.D(), br.C(), ts, last, src), target, err);
      if err.Some? {
        return;
      }
    }
  }

  // A block at its end is left, or ends the member.
  lemma {:induction false} BlockLeft(s0: Ser, s: Ser, target: nat)
    requires FillPasses(s0, s, target) && s.d.win.unread < target && Over(s.at)
    ensures if s.at.lastBlock then FillEnds(s0, target, Filled(s, Some(EOF))) else FillPasses(s0, s.(at := s.at.(br := None)), target)
  {
  }

  lemma {:induction false} BlockOver(at: Place)
    requires at.br.Some? && Symbols.ParseSymbol(at.tables, at.br.value).BlockEnd?
    ensures Over(at)
  {
    Rar5Is(Rar5Engine());
  }

  // The next block is entered, or the error is the end.
  lemma {:induction false} BlockMet(s: Ser, target: nat, b: BlockRead)
    requires s.d.win.unread < target && s.at.br.None? && Takes(s.at.src, b)
    ensures var Entered(at, err) := Enter(s.at, b); Gets(s, s.(at := at), target, err)
  {
  }

  // What taking a block comes to, by how far it gets.
  lemma {:induction false} HeadMissing(src: seq<byte>, err: Error, rest: seq<byte>)
    requires BH.ReadHead(src) == HeadErr(err, rest)
    ensures Takes(src, NoBlock(err, rest))
  {
    Rar5Is(Rar5Engine());
  }

  lemma {:induction false} PayloadMissing(src: seq<byte>, h: BlockHead, rest: seq<byte>)
    requires BH.ReadHead(src) == Head(h, rest) && |rest| < h.blockBytes
    ensures Takes(src, NoBlock(ShortRead(rest), []))
  {
    Rar5Is(Rar5Engine());
  }

  // A block's own tables, read from c on: loaded, or the error, and where the reader is left.
  datatype Fetched = Fetched(loaded: Option<Tables>, err: Option<Error>, cur: Cursor)

  ghost function Fetch(c: Cursor): (t: Fetched)
    ensures t.err.None? <==> t.loaded.Some?
  {
    match CT.ReadTable(c, TABLE_SIZE)
    case TablesErr(err, c1) => Fetched(None, Some(err), c1)
    case TablesOk(cl, c1) =>
      match CT.Load(cl)
      case None => Fetched(None, Some(InvalidLengthTable), c1)
      case Some(ts) => Fetched(Some(ts), None, c1)
  }

  ghost predicate Fetches(c: Cursor, t: Fetched) {
    (t.err.None? <==> t.loaded.Some?) && forall now :: Looked(now) ==> Fetch(c) == t
  }

  // A block that is all there, with the tables t if it brings its own.
  ghost function Arrived(h: BlockHead, rest: seq<byte>, t: Fetched): BlockRead
    requires |rest| >= h.blockBytes
  {
    var c, after := Cursor(rest[..h.blockBytes], 0, h.blockBits), rest[h.blockBytes..];
    if !h.newTables then Block(c, None, h.lastBlock, h.blockBytes, after)
    else if t.err.Some? then BadTables(t.err.value, t.cur, h.lastBlock, after)
    else Block(t.cur, t.loaded, h.lastBlock, h.blockBytes, after)
  }

  lemma {:induction false} BlockTaken(src: seq<byte>, h: BlockHead, rest: seq<byte>) returns (t: Fetched)
    requires BH.ReadHead(src) == Head(h, rest) && |rest| >= h.blockBytes
    ensures Fetches(Cursor(rest[..h.blockBytes], 0, h.blockBits), t) && Takes(src, Arrived(h, rest, t))
    ensures h.blockBits <= 8 * h.blockBytes
  {
    Rar5Is(Rar5Engine());
    t := Fetch(Cursor(rest[..h.blockBytes], 0, h.blockBits));
  }

  // decoder50 as far as decoding goes, on the real parts.
  class SerialDecoder {
    const dec: WD.WindowDecoder
    const tables: TD.Decoders
    const codeLength: array<byte>
    const bitlen: H.HuffmanDecoder
    var br: BR.BitReader?
    var lastBlock: bool
    var src: seq<byte>
    ghost const scratch: set<object>   // bitlen and codeLength
    ghost var ts: Tables   // what the decoders were last loaded with in full

    // Nothing is shared between the parts, and all of them are sound, out of sight but for Looked.
    ghost predicate Valid()
      reads this, dec, dec.win, dec.win.buf, dec.offset, br, tables.repr
    {
      && dec.Valid() && Clear(dec, tables.repr) && Clear(dec, scratch)
      && this !in tables.repr && this !in scratch && (br != null ==> br !in tables.repr && br !in scratch)
      && forall now :: Looked(now) ==> Sound()
    }

    ghost predicate Sound()
      requires dec.Valid()
      reads this, dec, dec.win, dec.win.buf, dec.offset, br, tables.repr
    {
      && Apply.DecOk(dec.D())
      && (br != null ==> br.Valid())
      && tables.Holds(ts) && scratch !! tables.repr
      && bitlen.Shape() && codeLength.Length == TABLE_SIZE
      && bitlen.repr <= scratch && codeLength in scratch && codeLength !in bitlen.repr
    }

    // Where the serial decoder of the specification stands.
    ghost function At(): Place
      reads this, br
    {
      Place(if br == null then None else Some(br.C()), ts, lastBlock, src)
    }

    constructor (dec: WD.WindowDecoder, tables: TD.Decoders, bitlen: H.HuffmanDecoder, codeLength: array<byte>, src: seq<byte>)
      ensures this.dec == dec && this.tables == tables && this.bitlen == bitlen && this.codeLength == codeLength
      ensures scratch == bitlen.repr + {codeLength} && br == null && !lastBlock && this.src == src && ts == NO_TABLES
    {
      this.dec, this.tables, this.bitlen, this.codeLength := dec, tables, bitlen, codeLength;
      scratch := bitlen.repr + {codeLength};
      br, lastBlock, this.src, ts := null, false, src, NO_TABLES;
    }

    // newDecoder50, pointed at a source.
    static method New(dec: WD.WindowDecoder, src: seq<byte>) returns (s: SerialDecoder)
      requires dec.Valid() && Apply.DecOk(dec.D())
      ensures fresh(s) && s.Valid() && s.dec == dec && s.At() == Place(None, NO_TABLES, false, src)
      ensures fresh(s.tables.repr) && fresh(s.scratch)
    {
      assert Looked(Now);
      var t, b, cl := Parts();
      s := new SerialDecoder(dec, t, b, cl, src);
    }

    static method Parts() returns (t: TD.Decoders, b: H.HuffmanDecoder, cl: array<byte>)
      ensures t.Holds(NO_TABLES) && b.Shape() && cl.Length == TABLE_SIZE
      ensures fresh(t.repr) && fresh(b.repr + {cl}) && b.repr + {cl} !! t.repr && cl !in b.repr
    {
      t := TD.Decoders.New();
      b := new H.HuffmanDecoder(Zeros(CT.BIT_LENGTHS));
      cl := new byte[TABLE_SIZE];
    }

    // fill: blocks and symbols until the window stages its target of unread bytes, or an error. It is the
    // specification's fill, as FillIs spells out.
    method Fill() returns (err: Option<Error>)
      requires Valid()
      modifies this, if br != null then {br} else {}, dec, dec.offset, dec.win, dec.win.buf, tables.repr, scratch
      ensures dec.Valid() && (Soft(err) ==> Valid())
      ensures FillEnds(old(Ser(dec.D(), At())), old(dec.win.Target()), Filled(Ser(dec.D(), At()), err))
      ensures (br == old(br) || br == null || fresh(br)) && dec.win.buf == old(dec.win.buf)
    {
      ghost var s0 := Ser(dec.D(), At());
      var target := dec.win.Target();
      err := Decode(target, s0);
      if err.None? {
        TargetMet(s0, Ser(dec.D(), At()), target);
      }
    }

    // Its loop.
    method Decode(target: nat, ghost s0: Ser) returns (err: Option<Error>)
      requires Valid() && s0 == Ser(dec.D(), At()) && target <= dec.win.Target()
      modifies this, if br != null then {br} else {}, dec, dec.offset, dec.win, dec.win.buf, tables.repr, scratch
      ensures dec.Valid() && (Soft(err) ==> Valid()) && (err.None? ==> dec.win.unread >= target)
      ensures (br == old(br) || br == null || fresh(br)) && dec.win.buf == old(dec.win.buf)
      ensures Gets(s0, Ser(dec.D(), At()), target, err)
    {
      err := None;
      while dec.win.Available() < target
        invariant Valid() && err.None? && target <= dec.win.Target() && dec.win.buf == old(dec.win.buf)
        invariant br == old(br) || br == null || fresh(br)
        invariant FillPasses(s0, Ser(dec.D(), At()), target)
        decreases |src|, br != null, dec.win.unread < target
      {
        if br == null {
          err := EnterBlock(target, s0);
        } else {
          err := RunBlock(target, s0);
        }
        if err.Some? {
          return;
        }
      }
    }

    method RunBlock(target: nat, ghost s0: Ser) returns (err: Option<Error>)
      requires Valid() && br != null && target <= dec.win.Target() && FillPasses(s0, Ser(dec.D(), At()), target)
      modifies this`br, br, dec, dec.offset, dec.win, dec.win.buf
      ensures Valid() && dec.win.buf == old(dec.win.buf) && src == old(src)
      ensures br == old(br) || br == null
      ensures Gets(s0, Ser(dec.D(), At()), target, err) && (err.None? ==> br == null || dec.win.unread >= target)
    {
      var ended;
      ended, err := Run(target, s0);
      if !ended {
        return;
      }
      err := Leave(target, s0);
    }

    // Between blocks: the next one.
    method EnterBlock(target: nat, ghost s0: Ser) returns (err: Option<Error>)
      requires Valid() && br == null && dec.win.unread < target && FillPasses(s0, Ser(dec.D(), At()), target)
      modifies this`br, this`lastBlock, this`src, this`ts, tables.repr, scratch
      ensures dec.Valid() && dec.D() == old(dec.D()) && (br == null || fresh(br))
      ensures (Soft(err) ==> Valid()) && (err.None? ==> br != null && |src| < |old(src)|)
      ensures Gets(s0, Ser(dec.D(), At()), target, err)
    {
      ghost var s := Ser(dec.D(), At());
      ghost var b;
      err, b := NextBlock();
      BlockMet(s, target, b);
      GetsOn(s0, s, Ser(dec.D(), At()), target, err);
    }

    // The block br stands in: up to its end, the target or an error.
    method Run(target: nat, ghost s0: Ser) returns (ended: bool, err: Option<Error>)
      requires Valid() && br != null && target <= dec.win.Target() && FillPasses(s0, Ser(dec.D(), At()), target)
      modifies br, dec, dec.offset, dec.win, dec.win.buf
      ensures Valid() && dec.win.buf == old(dec.win.buf)
      ensures Gets(s0, Ser(dec.D(), At()), target, err)
      ensures if ended then err.None? && Over(At()) && dec.win.unread < target
              else err.None? ==> dec.win.unread >= target
    {
      assert Looked(Now);
      ghost var s := Ser(dec.D(), At());
      ended, err := FillBlock(dec, br, tables, target, ts, lastBlock, src);
      GetsOn(s0, s, Ser(dec.D(), At()), target, err);
    }

    // The end of a block.
    method Leave(target: nat, ghost s0: Ser) returns (err: Option<Error>)
      requires Valid() && br != null && dec.win.unread < target && Over(At()) && FillPasses(s0, Ser(dec.D(), At()), target)
      modifies this`br
      ensures Valid() && (if err.Some? then br == old(br) else br == null)
      ensures Gets(s0, Ser(dec.D(), At()), target, err)
    {
      BlockLeft(s0, Ser(dec.D(), At()), target);
      if lastBlock {
        return Some(EOF);
      }
      br, err := null, None;
    }

    // readBlockHeader: the header, the payload, and the tables if the block brings its own. After a hard
    // error the decoders may hold some of the new tables.
    method NextBlock() returns (err: Option<Error>, ghost b: BlockRead)
      requires Valid() && br == null
      modifies this`br, this`lastBlock, this`src, this`ts, tables.repr, scratch
      ensures dec.Valid() && dec.D() == old(dec.D()) && (br == null || fresh(br)) && (br != null ==> br.Valid())
      ensures Takes(old(src), b) && Enter(old(At()), b) == Entered(At(), err)
      ensures Soft(err) ==> Valid()
      ensures err.None? ==> br != null && |src| < |old(src)|
    {
      assert Looked(Now);
      var h, rest;
      h, rest, err := BH.ReadBlockHead(src);
      if err.Some? {
        HeadMissing(src, err.value, rest);
        b := NoBlock(err.value, rest);
        src := rest;
        return;
      }
      if |rest| < h.blockBytes {
        PayloadMissing(src, h, rest);
        err := Some(ShortRead(rest));
        b := NoBlock(err.value, []);
        src := [];
        return;
      }
      HeadsConsumed(src);
      ghost var t := BlockTaken(src, h, rest);
      b := Arrived(h, rest, t);
      err := Start(h, rest, t);
    }

    // A block that is all there.
    method Start(h: BlockHead, rest: seq<byte>, ghost t: Fetched) returns (err: Option<Error>)
      requires Valid() && br == null && |rest| >= h.blockBytes && h.blockBits <= 8 * h.blockBytes
      requires Fetches(Cursor(rest[..h.blockBytes], 0, h.blockBits), t)
      modifies this`br, this`lastBlock, this`src, this`ts, tables.repr, scratch
      ensures dec.Valid() && dec.D() == old(dec.D()) && br != null && fresh(br) && br.Valid()
      ensures Enter(old(At()), Arrived(h, rest, t)) == Entered(At(), err) && src == rest[h.blockBytes..]
      ensures Soft(err) ==> Valid()
    {
      Attach(rest[..h.blockBytes], h.blockBits, h.lastBlock, rest[h.blockBytes..]);
      if !h.newTables {
        return None;
      }
      err := ReadTables(t);
    }

    method Attach(payload: seq<byte>, limit: int, last: bool, after: seq<byte>)
      requires Valid() && br == null && limit <= 8 * |payload|
      modifies this`br, this`lastBlock, this`src
      ensures Valid() && fresh(br) && br.Valid() && At() == Place(Some(Cursor(payload, 0, limit)), ts, last, after)
    {
      assert Looked(Now);
      br := new BR.BitReader(payload, limit);
      lastBlock, src := last, after;
    }

    // Its tables: the code lengths read, and the decoders loaded with them.
    method ReadTables(ghost t: Fetched) returns (err: Option<Error>)
      requires Valid() && br != null && Fetches(br.C(), t)
      modifies this`ts, br, tables.repr, scratch
      ensures dec.Valid() && dec.D() == old(dec.D()) && br.Valid() && (Soft(err) ==> Valid())
      ensures err == t.err && br.C() == t.cur && ts == t.loaded.GetOr(old(ts))
    {
      assert Looked(Now);
      err := ReadLengths();
      if err.None? {
        err := Load();
      }
    }

    method ReadLengths() returns (err: Option<Error>)
      requires Valid() && br != null
      modifies br, scratch
      ensures Valid() && dec.D() == old(dec.D())
      ensures match CT.ReadTable(old(br.C()), TABLE_SIZE)
        case TablesErr(e, c) => err == Some(e) && br.C() == c
        case TablesOk(cl, c) => err == None && br.C() == c && codeLength[..] == cl
    {
      assert Looked(Now);
      err := CT.ReadCodeLengthTable(br, codeLength, bitlen);
    }

    method Load() returns (err: Option<Error>)
      requires Valid() && br != null
      modifies this`ts, tables.repr
      ensures dec.Valid() && dec.D() == old(dec.D()) && br.Valid() && br.C() == old(br.C())
      ensures match CT.Load(codeLength[..])
        case None => err == Some(InvalidLengthTable) && ts == old(ts)
        case Some(loaded) => err == None && ts == loaded && Valid()
    {
      assert Looked(Now);
      var cl := codeLength[..];
      err := tables.LoadTables(cl);
      if err.None? {
        ts := CT.Cut(cl);
      }
    }
  }
}
