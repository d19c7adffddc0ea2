// The vocabulary of the RAR5 block decoder, and the interface ("engine") the block
// machinery is written against.
//
// The engine's members are function values, so everything proved about the serial loop and
// the pipeline holds for every engine that keeps the laws below. Rar5.dfy supplies the one the
// repository uses and proves that it keeps them.

module DecodeTypes {
  import opened Basics

  // A bit position in a block's payload. The imperative 64-bit cache over it is BitReader.
  datatype Cursor = Cursor(buf: seq<byte>, pos: nat, limit: int) {
    function Left(): nat {
      if limit > pos then limit - pos else 0
    }
  }

  // The four code-length tables a block is decoded with (decoder50_items.go:9-11).
  datatype TableSet = TableSet(main: seq<byte>, offset: seq<byte>, lowoffset: seq<byte>, length: seq<byte>)

  const MAIN_SIZE: nat := 306
  const OFFSET_SIZE: nat := 64
  const LOW_OFFSET_SIZE: nat := 16
  const LENGTH_SIZE: nat := 44
  const TABLE_SIZE: nat := 430

  const NO_TABLES: TableSet :=
    TableSet(Zeros(MAIN_SIZE), Zeros(OFFSET_SIZE), Zeros(LOW_OFFSET_SIZE), Zeros(LENGTH_SIZE))

  type Tables = t: TableSet |
    |t.main| == MAIN_SIZE && |t.offset| == OFFSET_SIZE && |t.lowoffset| == LOW_OFFSET_SIZE && |t.length| == LENGTH_SIZE
    witness NO_TABLES

  datatype FilterBlock = FilterBlock(start: nat, length: nat, ftype: nat, param: nat)

  // One decoded symbol with everything the block's bits determine on their own.
  datatype Op =
    | Literal(value: byte)
    | Match(length: nat, distance: int)
    | RepDist(slot: nat, replen: nat)
    | RepLast
    | Filter(offset: nat, flen: nat, ftype: nat, param: nat)

  // The ranges an item's fixed-width fields have to hold (decoder50_items.go:250-262).
  predicate InRange(op: Op) {
    match op
    case Literal(_) => true
    case Match(length, distance) => 2 <= length <= 4100 && 1 <= distance <= 0x1_0000_0000
    case RepDist(slot, length) => slot < 4 && 2 <= length <= 4097
    case RepLast => true
    case Filter(offset, flen, ftype, param) =>
      offset < 0x1_0000_0000 && flen < 0x1_0000_0000 && ftype < 8 && param <= 32
  }

  // What reading one symbol's bits gives: the block's end, an error as fill reports it (with the
  // position it left the reader at), or a symbol.
  datatype Parsed =
    | BlockEnd
    | Stop(err: Error, cur: Cursor)
    | Symbol(op: Op, cur: Cursor)

  datatype BlockHead = BlockHead(blockBytes: nat, blockBits: int, newTables: bool, lastBlock: bool)
  datatype HeadRead = HeadErr(err: Error, rest: seq<byte>) | Head(h: BlockHead, rest: seq<byte>)
  datatype TableRead = TablesErr(err: Error, cur: Cursor) | TablesOk(codeLength: seq<byte>, cur: Cursor)

  // The window as the decoder sees it: everything written since the history was last discarded,
  // and how many of those bytes are still unread. Window.dfy proves the ring buffer refines it.
  datatype Win = Win(hist: seq<byte>, unread: nat, size: nat)

  // How many of the history's bytes have been read.
  function Consumed(w: Win): int {
    |w.hist| - w.unread
  }

  // The last four distances, most recent first.
  type Offsets = s: seq<int> | |s| == 4 witness [0, 0, 0, 0]

  // The decoder state a symbol acts on.
  datatype Dec = Dec(
    win: Win,
    offset: Offsets,
    length: nat,
    fl: seq<FilterBlock>,
    outbuf: seq<byte>,
    tot: nat,
    decoded: nat,
    dictSize: int
  )

  datatype Applied = Applied(d: Dec, err: Option<Error>)

  datatype Engine = Engine(
    readHead: seq<byte> -> HeadRead,
    readTables: Cursor -> TableRead,
    load: seq<byte> -> Option<Tables>,
    parse: (Tables, Cursor) -> Parsed,
    apply: (Dec, Op) -> Applied,
    filter: (FilterBlock, seq<byte>, nat) -> seq<byte>,
    // Not something the code reads: whether a block whose code-length tables are cut off by its own
    // bit limit counts as the end of the source. It is what the pipeline makes of such a block,
    // and the serial loop does not; see Serial.ReadBlock.
    sealed: bool
  ) {
    function ReadHead(src: seq<byte>): HeadRead { readHead(src) }
    function ReadTables(c: Cursor): TableRead { readTables(c) }
    function Load(codeLength: seq<byte>): Option<Tables> { load(codeLength) }
    function Parse(ts: Tables, c: Cursor): Parsed { parse(ts, c) }
    function Apply(d: Dec, op: Op): Applied { apply(d, op) }
    function RunFilter(f: FilterBlock, buf: seq<byte>, pos: nat): seq<byte> { filter(f, buf, pos) }
  }

  // A header that was read consumed something; a clean EOF means the source is empty, and stays so.
  ghost predicate HeadsConsume(e: Engine) {
    && (forall src :: e.ReadHead(src).Head? ==> |e.ReadHead(src).rest| < |src|)
    && (forall src :: e.ReadHead(src).HeadErr? && Soft(Some(e.ReadHead(src).err)) ==>
          e.ReadHead(src) == HeadErr(EOF, []))
    && e.ReadHead([]) == HeadErr(EOF, [])
  }

  // Tables that run out of bits say so with EOF.
  ghost predicate TablesEnd(e: Engine) {
    forall c :: e.ReadTables(c).TablesErr? && Soft(Some(e.ReadTables(c).err)) ==> e.ReadTables(c).err == EOF
  }

  // A symbol that was read consumed something and fits an item; a symbol that was not never
  // reads as a clean end of block.
  ghost predicate SymbolsConsume(e: Engine) {
    && (forall ts, c :: e.Parse(ts, c).Symbol? ==>
          e.Parse(ts, c).cur.Left() < c.Left() && InRange(e.Parse(ts, c).op))
    && (forall ts, c :: e.Parse(ts, c).Stop? ==> e.Parse(ts, c).err != EOF)
  }

  // Applying a symbol only appends: to the history, and at the back of the filter queue. A
  // refusal is always a hard error.
  ghost predicate AppliesGrow(e: Engine) {
    forall d, op :: Grown(d, e.Apply(d, op).d) && (e.Apply(d, op).err.Some? ==> !Soft(e.Apply(d, op).err))
  }

  ghost predicate Grown(d: Dec, d': Dec) {
    && d.win.hist <= d'.win.hist
    && d'.win.unread == d.win.unread + |d'.win.hist| - |d.win.hist|
    && d'.decoded == d.decoded + |d'.win.hist| - |d.win.hist|
    && d'.win.size == d.win.size
    && d'.tot == d.tot && d'.outbuf == d.outbuf
    && (d'.fl == d.fl || Queued(d, d'))
  }

  ghost predicate Queued(d: Dec, d': Dec) {
    && d'.fl != [] && d.fl == d'.fl[..|d'.fl| - 1]
    && var f := d'.fl[|d'.fl| - 1];
    && f.start >= d.decoded && f.length > 0 && f.ftype <= 3
    && (d.fl != [] ==> d.fl[|d.fl| - 1].start <= f.start)
  }

  // A filter record announces a block at its own distance ahead of the decoded stream, an empty one
  // none.
  function Announced(decoded: nat, op: Op): seq<FilterBlock> {
    if op.Filter? && op.flen > 0 then [FilterBlock(decoded + op.offset, op.flen, op.ftype, op.param)] else []
  }

  // What is queued is what a symbol announces, unless it is refused.
  ghost predicate AppliesQueue(e: Engine) {
    forall d, op :: e.Apply(d, op).d.fl == d.fl + (if e.Apply(d, op).err.None? then Announced(d.decoded, op) else [])
  }

  // Every filter keeps its input's length.
  ghost predicate FiltersKeepLength(e: Engine) {
    forall f, buf, pos :: |e.RunFilter(f, buf, pos)| == |buf|
  }

  // The laws, kept out of sight until a proof asks for them with Laws(e, Now).
  ghost predicate Lawful(e: Engine) {
    forall now: Asked :: Laws(e, now)
  }

  ghost predicate Laws(e: Engine, now: Asked) {
    HeadsConsume(e) && TablesEnd(e) && SymbolsConsume(e) && AppliesGrow(e) && AppliesQueue(e) && FiltersKeepLength(e)
  }

  function FillTarget(w: Win): nat {
    Min(w.size / 2, 0x100_0000)
  }
}
