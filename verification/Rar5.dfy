// The block machinery's theorems for the repository's own engine.

module Rar5 {
  import opened Basics
  import opened DecodeTypes
  import opened Serial
  import opened Emission
  import opened Emitted
  import opened Rar5Laws
  import Agreement
  import Bits
  import BH = BlockHeader
  import Bounds
  import C = Canonical
  import CodeTables

  // No code-length table in src is cut off by its own block's bit limit.
  ghost predicate TablesWhole(src: seq<byte>) {
    Rar5Lawful(Rar5Engine());
    Agreement.TablesWhole(Rar5Engine(), src)
  }

  // The serial decoder and the pipeline return the same bytes and error from every call, for the
  // repository's own symbols, tables, matches and filters.
  method BothDecoders(d: Dec, tables: Tables, src: seq<byte>, sizes: seq<nat>, workers: nat, itemCap: nat, payloadLimit: int)
    returns (a: seq<Reply>, b: seq<Reply>)
    requires Consumed(d.win) >= 0 && workers > 1 && TablesWhole(src)
    ensures a == b && Lawful(Rar5Engine())
    ensures a == Run(Rar5Engine(), Ser(d, Place(None, tables, false, src)), sizes).replies
  {
    Rar5Lawful(Rar5Engine());
    a, b := Agreement.BothDecoders(Rar5Engine(), d, tables, src, sizes, workers, itemCap, payloadLimit);
  }

  // A member whose decoder has just been reset (init with reset set, BeginFile done).
  function Fresh(win: Win, dictSize: int): Dec {
    Dec(win.(unread := 0), [0, 0, 0, 0], 0, [], [], 0, 0, dictSize)
  }

  // Read from the start of a member, with any buffer sizes: what came out is the decoded stream up
  // to tot with each range in applied filtered at its own position, less what outbuf holds, and the
  // ranges applied and, behind them, those still queued are all the ones the stream's filter records
  // announced; nothing unread was overrun and every decoded byte is accounted for.
  lemma {:induction false} MemberRun(win: Win, dictSize: int, tables: Tables, src: seq<byte>, sizes: seq<nat>)
    returns (applied: seq<FilterBlock>)
    requires win.size >= 0x4_0000
    ensures var e := Rar5Engine();
      && Lawful(e)
      && var s := Ser(Fresh(win, dictSize), Place(None, tables, false, src));
      && var r := Run(e, s, sizes);
      && Bounds.Counted(r.ser.d, Bounds.RunHolds(e, s, sizes))
      && (Soft(r.Err()) ==>
            && EmitInv(e, r.ser.d, |win.hist|, r.Out(), applied)
            && applied + r.ser.d.fl == RunAnnounces(e, s, sizes))
  {
    Rar5Lawful(Rar5Engine());
    applied := FreshRun(Rar5Engine(), win, dictSize, Place(None, tables, false, src), sizes);
  }

  lemma {:induction false} FreshRun(e: Engine, win: Win, dictSize: int, at: Place, sizes: seq<nat>) returns (applied: seq<FilterBlock>)
    requires Lawful(e) && Bounds.AppliesFit(e) && win.size >= 0x4_0000
    ensures var s := Ser(Fresh(win, dictSize), at);
      var r := Run(e, s, sizes);
      && Bounds.Counted(r.ser.d, Bounds.RunHolds(e, s, sizes))
      && (Soft(r.Err()) ==>
            && EmitInv(e, r.ser.d, |win.hist|, r.Out(), applied)
            && applied + r.ser.d.fl == RunAnnounces(e, s, sizes))
  {
    assert Laws(e, Now);
    var s := Ser(Fresh(win, dictSize), at);
    assert Stream(s.d, |win.hist|)[..0] == [];
    Bounds.RunFits(e, s, sizes);
    applied := RunEmits(e, s, sizes, |win.hist|, [], []);
    var out, said := Run(e, s, sizes).Out(), RunAnnounces(e, s, sizes);
    assert [] + out == out && [] + [] + said == said;
  }

  // One block of one byte, with the new-tables flag: its tables run out of its eight bits.
  const CUT_KIND: BH.Kind := BH.Kind(1, 8, true, false)

  function CutSource(): seq<byte> {
    BH.WriteHead(CUT_KIND, [0x01]) + [0x00]
  }

  lemma {:induction false} CutHead()
    ensures BH.ReadHead(CutSource()) == Head(BlockHead(1, 8, true, false), [0x00])
  {
    BH.HeadRoundTrip(CUT_KIND, [0x01], [0x00]);
    assert [0x01][1..] == [] && BH.LittleEndian([0x01]) == 1;
  }

  lemma {:induction false} NoBits(k: nat)
    ensures Bits.Shr(0, k) == 0
  {
    if k > 0 {
      NoBits(k - 1);
    }
  }

  lemma {:induction false} ZeroByte(p: nat, k: nat)
    ensures Bits.Value([0x00], p, k) == 0
  {
    if k > 0 {
      ZeroByte(p, k - 1);
      NoBits(7 - (p + k - 1) % 8);
    }
  }

  // After one 4-bit length there is a second, and no third.
  lemma {:induction false} CutTables(c: Cursor, acc: seq<byte>)
    requires c.buf == [0x00] && c.limit == 8 && (c.pos == 0 || c.pos == 4 || c.pos == 8) && |acc| <= c.pos
    ensures CodeTables.BitLengths(c, acc) == TablesErr(EOF, c.(pos := 8))
    decreases 8 - c.pos
  {
    if c.pos < 8 {
      ZeroNibble(c);
      CutTables(c.(pos := c.pos + 4), CodeTables.Extend(acc, 0, 1, CodeTables.BIT_LENGTHS));
    } else {
      NoNibble(c);
    }
  }

  lemma {:induction false} ZeroNibble(c: Cursor)
    requires c.buf == [0x00] && c.limit == 8 && c.pos <= 4
    ensures CodeTables.BitLengthAt(c) == CodeTables.RunRead(0, 1, c.(pos := c.pos + 4))
  {
    ZeroByte(c.pos, 4);
  }

  lemma {:induction false} NoNibble(c: Cursor)
    requires c.buf == [0x00] && c.limit == 8 && c.pos == 8
    ensures CodeTables.BitLengthAt(c) == CodeTables.RunErr(EOF, c)
  {
  }

  // What the serial loop makes of it: the member goes on inside that block, with the tables it had.
  lemma {:induction false} CutBlock(e: Engine)
    requires e.(sealed := false) == Rar5Engine()
    ensures TakeBlock(e, CutSource()) == BadTables(EOF, Cursor([0x00], 8, 8), false, [])
  {
    CutHead();
    Rar5Is(e);
    CutTables(Cursor([0x00], 0, 8), []);
    assert [0x00][..1] == [0x00] && [0x00][1..] == [];
  }

  // The agreement does need its condition: on this source, from a reset decoder, two one-byte reads
  // end in a decode error serially and in a clean end of file through the pipeline.
  lemma {:induction false} CutTablesDisagree(win: Win)
    ensures var e := Rar5Engine();
      && Lawful(Agreement.Unsealed(e)) && Lawful(Agreement.Sealing(e))
      && (FillTarget(win) > 0 ==>
            var s := Ser(Fresh(win, 0), Place(None, NO_TABLES, false, CutSource()));
            && Run(Agreement.Unsealed(e), s, [1, 1]).replies == [Reply([], Some(EOF)), Reply([], Some(HuffDecodeFailed))]
            && Run(Agreement.Sealing(e), s, [1, 1]).replies == [Reply([], Some(EOF)), Reply([], Some(EOF))])
  {
    var e := Rar5Engine();
    Rar5Lawful(e);
    SealedLawful(e, false);
    SealedLawful(e, true);
    if FillTarget(win) > 0 {
      CutSerial(win, Agreement.Unsealed(e));
      CutPipeline(win, Agreement.Sealing(e));
    }
  }

  lemma {:induction false} CutSerial(win: Win, e: Engine)
    requires e == Agreement.Unsealed(Rar5Engine()) && Lawful(e) && FillTarget(win) > 0
    ensures Run(e, Ser(Fresh(win, 0), Place(None, NO_TABLES, false, CutSource())), [1, 1]).replies
      == [Reply([], Some(EOF)), Reply([], Some(HuffDecodeFailed))]
  {
    var c := Cursor([0x00], 8, 8);
    var s0 := Ser(Fresh(win, 0), Place(None, NO_TABLES, false, CutSource()));
    var s1 := Ser(Fresh(win, 0), Place(Some(c), NO_TABLES, false, []));
    CutBlock(e);
    assert SerialFill(e, s0, FillTarget(win)) == Filled(s1, Some(EOF));
    assert Read(e, s0, 1) == Got(s1, [], Some(EOF));
    C.NoneUsed(15, NO_TABLES.main);
    Rar5Is(e);
    assert e.Parse(NO_TABLES, c) == Stop(HuffDecodeFailed, c);
    assert SerialFill(e, s1, FillTarget(win)).err == Some(HuffDecodeFailed);
    assert Read(e, s1, 1).err == Some(HuffDecodeFailed) && Read(e, s1, 1).out == [];
    assert [1, 1][1..] == [1];
    assert Run(e, s1, [1]).replies == [Reply([], Some(HuffDecodeFailed))];
  }

  lemma {:induction false} CutPipeline(win: Win, e: Engine)
    requires e == Agreement.Sealing(Rar5Engine()) && Lawful(e) && FillTarget(win) > 0
    ensures Run(e, Ser(Fresh(win, 0), Place(None, NO_TABLES, false, CutSource())), [1, 1]).replies
      == [Reply([], Some(EOF)), Reply([], Some(EOF))]
  {
    var s0 := Ser(Fresh(win, 0), Place(None, NO_TABLES, false, CutSource()));
    var s1 := Ser(Fresh(win, 0), Place(None, NO_TABLES, false, []));
    CutBlock(e);
    assert ReadBlock(e, CutSource()) == NoBlock(EOF, []);
    assert Read(e, s0, 1) == Got(s1, [], Some(EOF));
    assert TakeBlock(e, []) == NoBlock(EOF, []);
    assert Read(e, s1, 1) == Got(s1, [], Some(EOF));
    assert [1, 1][1..] == [1] && [1][1..] == [];
    assert Run(e, s1, [1]).replies == [Reply([], Some(EOF))] + Run(e, s1, []).replies;
  }
}
