// A member as an encoder writes it, block by block, and that filling the window from it applies exactly the
// operations that were written (decoder50.go:138-164, 294-322).

module Written {
  import opened Basics
  import opened DecodeTypes
  import opened Serial
  import opened Canonical
  import opened CodeTables
  import opened Fields
  import opened SymbolFormat
  import opened TableFormat
  import Apply
  import BH = BlockHeader
  import Rar5Laws

  // A block: its last byte's bits, its flag, its tables if it brings its own, its operations; and the bytes
  // that say so.
  datatype BlockText = BlockText(bits: nat, last: bool, table: Option<Text>, ops: seq<Op>, size: seq<byte>, payload: seq<byte>)

  // The tables its operations are written with.
  function InForce(b: BlockText, ts: Tables): Tables {
    if b.table.Some? && TextOk(b.table.value, TABLE_SIZE) then Load(TextTable(b.table.value, TABLE_SIZE)).GetOr(ts) else ts
  }

  predicate AllWritable(ts: Tables, ops: seq<Op>) {
    AllAccepted(ts) && !Empty(ts.main) && forall i :: 0 <= i < |ops| ==> CanWrite(ts, ops[i])
  }

  function OpsFields(ts: Tables, ops: seq<Op>): seq<Field>
    requires AllWritable(ts, ops)
  {
    if ops == [] then [] else WriteOp(ts, ops[0]) + OpsFields(ts, ops[1..])
  }

  predicate TableOk(b: BlockText) {
    b.table.Some? ==> TextOk(b.table.value, TABLE_SIZE) && Load(TextTable(b.table.value, TABLE_SIZE)).Some?
  }

  function TableFields(b: BlockText): seq<Field>
    requires TableOk(b)
  {
    if b.table.Some? then TextFields(b.table.value, TABLE_SIZE) else []
  }

  function Start(b: BlockText): Cursor {
    Cursor(b.payload, 0, 8 * |b.payload| - 8 + b.bits)
  }

  // The payload says the tables and the operations, and nothing more.
  predicate BlockOk(ts: Tables, b: BlockText) {
    && 1 <= |b.size| <= 3 && 1 <= b.bits <= 8 && BH.LittleEndian(b.size) == |b.payload| > 0
    && TableOk(b) && AllWritable(InForce(b, ts), b.ops)
    && var fs := TableFields(b) + OpsFields(InForce(b, ts), b.ops); Says(Start(b), fs) && Width(fs) == Start(b).limit
  }

  function BlockBytes(b: BlockText): seq<byte>
    requires 1 <= |b.size| <= 3 && 1 <= b.bits <= 8
  {
    BH.WriteHead(BH.Kind(|b.size|, b.bits, b.table.Some?, b.last), b.size) + b.payload
  }

  // One block after another, the last one marked.
  predicate SourceOk(ts: Tables, blocks: seq<BlockText>)
    decreases |blocks|
  {
    blocks != [] ==> BlockOk(ts, blocks[0]) && (blocks[0].last <==> |blocks| == 1) && SourceOk(InForce(blocks[0], ts), blocks[1..])
  }

  function Source(ts: Tables, blocks: seq<BlockText>, tail: seq<byte>): seq<byte>
    requires SourceOk(ts, blocks)
    decreases |blocks|
  {
    if blocks == [] then tail else BlockBytes(blocks[0]) + Source(InForce(blocks[0], ts), blocks[1..], tail)
  }

  function AllOps(blocks: seq<BlockText>): seq<Op> {
    if blocks == [] then [] else blocks[0].ops + AllOps(blocks[1..])
  }

  // A place with ops still to come of the block it stands in, and blocks after that.
  ghost predicate Stands(at: Place, ops: seq<Op>, blocks: seq<BlockText>, tail: seq<byte>) {
    (at.br.None? ==> ops == [] && blocks != []) && forall now: Asked :: StandsNow(at, ops, blocks, tail, now)
  }

  // The rest of it, out of sight until a proof asks with Now.
  ghost predicate StandsNow(at: Place, ops: seq<Op>, blocks: seq<BlockText>, tail: seq<byte>, now: Asked) {
    && SourceOk(at.tables, blocks) && at.src == Source(at.tables, blocks, tail)
    && (at.br.Some? ==>
         && AllWritable(at.tables, ops) && (at.lastBlock <==> blocks == [])
         && Says(at.br.value, OpsFields(at.tables, ops)) && at.br.value.pos + Width(OpsFields(at.tables, ops)) == at.br.value.limit)
  }

  // Applying operations until target bytes are unread, or one is refused.
  datatype Played = Played(d: Dec, rest: seq<Op>, err: Option<Error>)

  function Play(d: Dec, ops: seq<Op>, target: nat): Played
    decreases |ops|
  {
    if d.win.unread >= target || ops == [] then Played(d, ops, None)
    else
      var a := Apply.ApplyOp(d, ops[0]);
      if a.err.Some? then Played(a.d, ops[1..], a.err) else Play(a.d, ops[1..], target)
  }

  // ---- Taking a block.

  lemma {:induction false} HeadTaken(b: BlockText, rest: seq<byte>)
    requires 1 <= |b.size| <= 3 && 1 <= b.bits <= 8 && BH.LittleEndian(b.size) == |b.payload|
    ensures BH.ReadHead(BlockBytes(b) + rest) ==
      Head(BlockHead(|b.payload|, Start(b).limit, b.table.Some?, b.last), b.payload + rest)
  {
    var k := BH.Kind(|b.size|, b.bits, b.table.Some?, b.last);
    BH.HeadRoundTrip(k, b.size, b.payload + rest);
    var head := BH.WriteHead(k, b.size);
    assert (head + b.payload) + rest == head + (b.payload + rest);
  }

  // What the tables leave to be read.
  lemma {:induction false} OpsBehind(ts: Tables, b: BlockText)
    requires BlockOk(ts, b)
    ensures var c := Past(Start(b), TableFields(b)); var gs := OpsFields(InForce(b, ts), b.ops);
      Says(Start(b), TableFields(b)) && Fits(Start(b), TableFields(b)) && Says(c, gs) && c.pos + Width(gs) == c.limit
  {
    var fs, gs := TableFields(b), OpsFields(InForce(b, ts), b.ops);
    SaysSplit(Start(b), fs, gs);
    WidthSplit(fs, gs);
  }

  lemma {:induction false} TablesTaken(ts: Tables, b: BlockText)
    requires BlockOk(ts, b) && b.table.Some?
    ensures var t := TextTable(b.table.value, TABLE_SIZE);
      ReadTable(Start(b), TABLE_SIZE) == TablesOk(t, Past(Start(b), TableFields(b))) && Load(t) == Some(InForce(b, ts))
  {
    OpsBehind(ts, b);
    TextRead(b.table.value, TABLE_SIZE, Start(b));
  }

  // A block that was written is taken as it was written.
  lemma {:induction false} BlockTaken(e: Engine, ts: Tables, b: BlockText, rest: seq<byte>)
    requires e == Rar5Laws.Rar5Engine() && BlockOk(ts, b)
    ensures ReadBlock(e, BlockBytes(b) + rest) ==
      Block(Past(Start(b), TableFields(b)), if b.table.Some? then Some(InForce(b, ts)) else None, b.last, |b.payload|, rest)
  {
    Rar5Laws.Rar5Is(e);
    HeadTaken(b, rest);
    assert (b.payload + rest)[..|b.payload|] == b.payload && (b.payload + rest)[|b.payload|..] == rest;
    if b.table.Some? {
      TablesTaken(ts, b);
    } else {
      assert Past(Start(b), TableFields(b)) == Start(b);
    }
  }

  // A payload that is cut short is the end of the source if none of it is there, and an error otherwise.
  lemma {:induction false} PayloadCut(e: Engine, b: BlockText, k: nat)
    requires e == Rar5Laws.Rar5Engine() && 1 <= |b.size| <= 3 && 1 <= b.bits <= 8
    requires BH.LittleEndian(b.size) == |b.payload| && k < |b.payload|
    ensures ReadBlock(e, BlockBytes(b)[..|BlockBytes(b)| - |b.payload| + k]) == NoBlock(if k == 0 then EOF else UnexpectedEOF, [])
  {
    Rar5Laws.Rar5Is(e);
    var kind := BH.Kind(|b.size|, b.bits, b.table.Some?, b.last);
    var head := BH.WriteHead(kind, b.size);
    var front := b.payload[..k];
    FrontOf(head, b.payload, k);
    BH.HeadRoundTrip(kind, b.size, front);
    assert TakeBlock(e, head + front) == NoBlock(ShortRead(front), []);
  }

  lemma {:induction false} FrontOf(head: seq<byte>, payload: seq<byte>, k: nat)
    requires k <= |payload|
    ensures (head + payload)[..|head| + k] == head + payload[..k]
  {
  }

  // Tables cut off by their own block's bit limit: the reader is left where that stopped it.
  lemma {:induction false} TablesCutOff(e: Engine, b: BlockText, rest: seq<byte>)
    requires e == Rar5Laws.Rar5Engine() && 1 <= |b.size| <= 3 && 1 <= b.bits <= 8
    requires BH.LittleEndian(b.size) == |b.payload| > 0 && b.table.Some? && TableOk(b)
    requires Says(Start(b), TableFields(b)) && !Fits(Start(b), TableFields(b))
    ensures TakeBlock(e, BlockBytes(b) + rest) == BadTables(EOF, Reached(Start(b), TableFields(b)), b.last, rest)
  {
    Rar5Laws.Rar5Is(e);
    HeadTaken(b, rest);
    assert (b.payload + rest)[..|b.payload|] == b.payload && (b.payload + rest)[|b.payload|..] == rest;
    TextRead(b.table.value, TABLE_SIZE, Start(b));
  }

  // An operation cut off inside stops the fill, out of data, in front of what is not all there.
  lemma {:induction false} OpCut(e: Engine, s: Ser, op: Op, target: nat)
    requires e == Rar5Laws.Rar5Engine() && Lawful(e) && s.d.win.unread < target && s.at.br.Some?
    requires AllAccepted(s.at.tables) && CanWrite(s.at.tables, op)
    requires var c, fs := s.at.br.value, WriteOp(s.at.tables, op); Says(c, fs) && !Fits(c, fs) && Fits(c, fs[..1])
    ensures SerialFill(e, s, target) ==
      Filled(Ser(s.d, s.at.(br := Some(Reached(s.at.br.value, WriteOp(s.at.tables, op))))), Some(OutOfData))
  {
    Rar5Laws.Rar5Is(e);
    WrittenRead(s.at.tables, s.at.br.value, op);
  }

  // Between blocks, the next one is entered.
  lemma {:induction false} BlockEntered(e: Engine, at: Place, blocks: seq<BlockText>, tail: seq<byte>)
    requires e == Rar5Laws.Rar5Engine() && Stands(at, [], blocks, tail) && at.br.None?
    ensures var r := Enter(at, ReadBlock(e, at.src)); r.err.None? && r.at.br.Some? && Stands(r.at, blocks[0].ops, blocks[1..], tail)
  {
    assert StandsNow(at, [], blocks, tail, Now);
    var b, ts := blocks[0], at.tables;
    var rest := Source(InForce(b, ts), blocks[1..], tail);
    BlockTaken(e, ts, b, rest);
    OpsBehind(ts, b);
  }

  // Inside one, the next operation is read.
  lemma {:induction false} OpNext(e: Engine, at: Place, ops: seq<Op>, blocks: seq<BlockText>, tail: seq<byte>)
    requires e == Rar5Laws.Rar5Engine() && Stands(at, ops, blocks, tail) && at.br.Some? && ops != []
    ensures var p := e.Parse(at.tables, at.br.value);
      p.Symbol? && p.op == ops[0] && Stands(at.(br := Some(p.cur)), ops[1..], blocks, tail)
  {
    assert StandsNow(at, ops, blocks, tail, Now);
    Rar5Laws.Rar5Is(e);
    var c, ts := at.br.value, at.tables;
    var fs, gs := WriteOp(ts, ops[0]), OpsFields(ts, ops[1..]);
    SaysSplit(c, fs, gs);
    WidthSplit(fs, gs);
    WrittenRead(ts, c, ops[0]);
  }

  // And behind the last, its end.
  lemma {:induction false} EndNext(e: Engine, at: Place, blocks: seq<BlockText>, tail: seq<byte>)
    requires e == Rar5Laws.Rar5Engine() && Stands(at, [], blocks, tail) && at.br.Some?
    ensures e.Parse(at.tables, at.br.value).BlockEnd? && (at.lastBlock <==> blocks == [])
    ensures blocks != [] ==> Stands(at.(br := None), [], blocks, tail)
  {
    assert StandsNow(at, [], blocks, tail, Now);
    Rar5Laws.Rar5Is(e);
  }

  // ---- Filling.

  // A fill comes to what playing the operations comes to, and stands in front of those that are left.
  ghost predicate Plays(e: Engine, s: Ser, ops: seq<Op>, target: nat, ops': seq<Op>, blocks': seq<BlockText>, tail: seq<byte>)
    requires Lawful(e)
  {
    forall now: Asked :: PlaysNow(e, s, ops, target, ops', blocks', tail, now)
  }

  ghost predicate PlaysNow(e: Engine, s: Ser, ops: seq<Op>, target: nat, ops': seq<Op>, blocks': seq<BlockText>, tail: seq<byte>, now: Asked)
    requires Lawful(e)
  {
    var r, p := SerialFill(e, s, target), Play(s.d, ops, target);
    && r.ser.d == p.d
    && r.err == (if p.err.Some? then p.err else if p.d.win.unread < target then Some(EOF) else None)
    && (p.err.None? ==> Stands(r.ser.at, ops', blocks', tail) && p.rest == ops' + AllOps(blocks'))
  }

  lemma {:induction false} PlaysSame(e: Engine, s: Ser, s1: Ser, ops: seq<Op>, target: nat, ops': seq<Op>, blocks': seq<BlockText>, tail: seq<byte>)
    requires Lawful(e) && SerialFill(e, s, target) == SerialFill(e, s1, target) && s.d == s1.d
    requires Plays(e, s1, ops, target, ops', blocks', tail)
    ensures Plays(e, s, ops, target, ops', blocks', tail)
  {
    assert PlaysNow(e, s1, ops, target, ops', blocks', tail, Now);
  }

  // The next block.
  lemma {:induction false} FillEnters(e: Engine, s: Ser, blocks: seq<BlockText>, tail: seq<byte>, target: nat) returns (s1: Ser)
    requires e == Rar5Laws.Rar5Engine() && Lawful(e) && Stands(s.at, [], blocks, tail) && s.at.br.None? && s.d.win.unread < target
    ensures SerialFill(e, s, target) == SerialFill(e, s1, target) && s1.d == s.d
    ensures s1.at.br.Some? && Stands(s1.at, blocks[0].ops, blocks[1..], tail)
  {
    BlockEntered(e, s.at, blocks, tail);
    s1 := Ser(s.d, Enter(s.at, ReadBlock(e, s.at.src)).at);
  }

  // The block's end.
  lemma {:induction false} FillLeaves(e: Engine, s: Ser, blocks: seq<BlockText>, tail: seq<byte>, target: nat)
    requires e == Rar5Laws.Rar5Engine() && Lawful(e) && Stands(s.at, [], blocks, tail) && s.at.br.Some? && s.d.win.unread < target
    ensures if blocks == [] then SerialFill(e, s, target) == Filled(s, Some(EOF))
            else SerialFill(e, s, target) == SerialFill(e, Ser(s.d, s.at.(br := None)), target) && Stands(s.at.(br := None), [], blocks, tail)
  {
    EndNext(e, s.at, blocks, tail);
  }

  // One operation.
  lemma {:induction false} FillApplies(e: Engine, s: Ser, ops: seq<Op>, blocks: seq<BlockText>, tail: seq<byte>, target: nat) returns (s1: Ser)
    requires e == Rar5Laws.Rar5Engine() && Lawful(e) && Stands(s.at, ops, blocks, tail) && s.at.br.Some? && ops != [] && s.d.win.unread < target
    ensures var a := Apply.ApplyOp(s.d, ops[0]);
      && s1.d == a.d && s1.at.br.Some? && Stands(s1.at, ops[1..], blocks, tail)
      && SerialFill(e, s, target) == if a.err.Some? then Filled(s1, a.err) else SerialFill(e, s1, target)
  {
    OpNext(e, s.at, ops, blocks, tail);
    Rar5Laws.Rar5Is(e);
    var p := e.Parse(s.at.tables, s.at.br.value);
    s1 := Ser(Apply.ApplyOp(s.d, ops[0]).d, s.at.(br := Some(p.cur)));
  }

  lemma {:induction false} PlaysOp(e: Engine, s: Ser, s1: Ser, op: Op, more: seq<Op>, target: nat, ops': seq<Op>, blocks': seq<BlockText>, tail: seq<byte>)
    requires Lawful(e) && s.d.win.unread < target
    requires var a := Apply.ApplyOp(s.d, op);
      && s1.d == a.d && (a.err.None? ==> Plays(e, s1, more, target, ops', blocks', tail))
      && SerialFill(e, s, target) == if a.err.Some? then Filled(s1, a.err) else SerialFill(e, s1, target)
    ensures Plays(e, s, [op] + more, target, ops', blocks', tail)
  {
    assert ([op] + more)[0] == op && ([op] + more)[1..] == more;
    assert Apply.ApplyOp(s.d, op).err.None? ==> PlaysNow(e, s1, more, target, ops', blocks', tail, Now);
  }

  // There is enough, or there is no more.
  lemma {:induction false} PlaysNone(e: Engine, s: Ser, ops: seq<Op>, blocks: seq<BlockText>, tail: seq<byte>, target: nat)
    requires Lawful(e) && Stands(s.at, ops, blocks, tail)
    requires s.d.win.unread >= target || (ops == [] && blocks == [] && SerialFill(e, s, target) == Filled(s, Some(EOF)))
    ensures Plays(e, s, ops + AllOps(blocks), target, ops, blocks, tail)
  {
  }

  lemma {:induction false} FirstOps(blocks: seq<BlockText>)
    requires blocks != []
    ensures [] + AllOps(blocks) == blocks[0].ops + AllOps(blocks[1..])
  {
  }

  lemma {:induction false} FirstOp(ops: seq<Op>, more: seq<Op>)
    requires ops != []
    ensures ops + more == [ops[0]] + (ops[1..] + more)
  {
  }

  // A fill from a source that was written applies the operations that were written, in order, until there is
  // enough or one is refused; when none is left it ends. Where it stops it can go on.
  lemma {:induction false} FillPlays(e: Engine, s: Ser, ops: seq<Op>, blocks: seq<BlockText>, tail: seq<byte>, target: nat)
    returns (ops': seq<Op>, blocks': seq<BlockText>)
    requires e == Rar5Laws.Rar5Engine() && Lawful(e) && Stands(s.at, ops, blocks, tail)
    ensures Plays(e, s, ops + AllOps(blocks), target, ops', blocks', tail)
    decreases |blocks|, |ops|, s.at.br.Some?
  {
    ops', blocks' := ops, blocks;
    if s.d.win.unread >= target {
      PlaysNone(e, s, ops, blocks, tail, target);
    } else if s.at.br.None? {
      var s1 := FillEnters(e, s, blocks, tail, target);
      ops', blocks' := FillPlays(e, s1, blocks[0].ops, blocks[1..], tail, target);
      FirstOps(blocks);
      PlaysSame(e, s, s1, ops + AllOps(blocks), target, ops', blocks', tail);
    } else if ops == [] {
      FillLeaves(e, s, blocks, tail, target);
      if blocks == [] {
        PlaysNone(e, s, ops, blocks, tail, target);
      } else {
        var s1 := Ser(s.d, s.at.(br := None));
        ops', blocks' := FillPlays(e, s1, [], blocks, tail, target);
        PlaysSame(e, s, s1, [] + AllOps(blocks), target, ops', blocks', tail);
      }
    } else {
      var s1 := FillApplies(e, s, ops, blocks, tail, target);
      if Apply.ApplyOp(s.d, ops[0]).err.None? {
        ops', blocks' := FillPlays(e, s1, ops[1..], blocks, tail, target);
      }
      PlaysOp(e, s, s1, ops[0], ops[1..] + AllOps(blocks), target, ops', blocks', tail);
      FirstOp(ops, AllOps(blocks));
    }
  }
}
