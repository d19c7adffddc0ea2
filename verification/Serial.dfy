// decoder50.fill as a specification: blocks and symbols taken strictly in order from a finite
// source. Everything the pipeline does is compared with these functions.

module Serial {
  import opened Basics
  import opened DecodeTypes

  // What one trip through readBlockHeader takes from the source.
  datatype BlockRead =
    | NoBlock(err: Error, rest: seq<byte>)
    | BadTables(err: Error, cur: Cursor, lastBlock: bool, rest: seq<byte>)
    | Block(cur: Cursor, loaded: Option<Tables>, lastBlock: bool, size: nat, rest: seq<byte>)
  {
    function TablesAfter(ts: Tables): Tables
      requires Block?
    {
      if loaded.Some? then loaded.value else ts
    }
  }

  // io.ReadFull over what is left of a finite source whose EOF is sticky.
  function ShortRead(rest: seq<byte>): Error {
    if rest == [] then EOF else UnexpectedEOF
  }

  function TakeBlock(e: Engine, src: seq<byte>): (b: BlockRead)
    ensures HeadsConsume(e) && !b.NoBlock? ==> |b.rest| < |src|
  {
    match e.ReadHead(src)
    case HeadErr(err, rest) => NoBlock(err, rest)
    case Head(h, rest) =>
      if |rest| < h.blockBytes then NoBlock(ShortRead(rest), [])
      else
        var c := Cursor(rest[..h.blockBytes], 0, h.blockBits);
        var after := rest[h.blockBytes..];
        if !h.newTables then Block(c, None, h.lastBlock, h.blockBytes, after)
        else
          match e.ReadTables(c)
          case TablesErr(err, c') => BadTables(err, c', h.lastBlock, after)
          case TablesOk(cl, c') =>
            match e.Load(cl)
            case None => BadTables(InvalidLengthTable, c', h.lastBlock, after)
            case Some(ts) => Block(c', Some(ts), h.lastBlock, h.blockBytes, after)
  }

  // The next block's code-length tables run out of the block's own bits.
  predicate TableCut(e: Engine, src: seq<byte>) {
    var b := TakeBlock(e, src);
    b.BadTables? && Soft(Some(b.err))
  }

  // The one thing the two decoders disagree on. The serial one is left inside a block whose tables
  // were cut, with the previous tables, and goes on from there at the next call; the pipeline takes
  // it for the end of the source.
  function ReadBlock(e: Engine, src: seq<byte>): (b: BlockRead)
    ensures HeadsConsume(e) && !b.NoBlock? ==> |b.rest| < |src|
  {
    if e.sealed && TableCut(e, src) then NoBlock(EOF, []) else TakeBlock(e, src)
  }

  lemma {:induction false} SealedLawful(e: Engine, sealed: bool)
    requires Lawful(e)
    ensures Lawful(e.(sealed := sealed))
  {
    assert Laws(e, Now);
    var s := e.(sealed := sealed);
    assert forall src :: s.ReadHead(src) == e.ReadHead(src);
    assert forall c :: s.ReadTables(c) == e.ReadTables(c);
    assert forall ts, c :: s.Parse(ts, c) == e.Parse(ts, c);
    assert forall d, op :: s.Apply(d, op) == e.Apply(d, op);
    assert forall f, buf, pos :: s.RunFilter(f, buf, pos) == e.RunFilter(f, buf, pos);
  }

  // Where a serial decoder stands: br is the block being decoded, None between blocks.
  datatype Place = Place(br: Option<Cursor>, tables: Tables, lastBlock: bool, src: seq<byte>)

  datatype Ser = Ser(d: Dec, at: Place)

  datatype Entered = Entered(at: Place, err: Option<Error>)

  function Enter(at: Place, b: BlockRead): Entered {
    match b
    case NoBlock(err, rest) => Entered(at.(src := rest), Some(err))
    case BadTables(err, c, last, rest) => Entered(at.(br := Some(c), lastBlock := last, src := rest), Some(err))
    case Block(c, _, last, _, rest) => Entered(Place(Some(c), b.TablesAfter(at.tables), last, rest), None)
  }

  function InBlock(at: Place): nat {
    if at.br.None? then 0 else 1 + at.br.value.Left()
  }

  datatype Filled = Filled(ser: Ser, err: Option<Error>)

  // fill (decoder50.go:297-322).
  function SerialFill(e: Engine, s: Ser, target: nat): (r: Filled)
    requires Lawful(e)
    ensures Consumed(r.ser.d.win) == Consumed(s.d.win) && s.d.win.hist <= r.ser.d.win.hist
    decreases |s.at.src|, InBlock(s.at)
  {
    assert Laws(e, Now);
    if s.d.win.unread >= target then Filled(s, None)
    else if s.at.br.None? then
      var Entered(at, err) := Enter(s.at, ReadBlock(e, s.at.src));
      if err.Some? then Filled(Ser(s.d, at), err) else SerialFill(e, Ser(s.d, at), target)
    else
      match e.Parse(s.at.tables, s.at.br.value)
      case BlockEnd =>
        if s.at.lastBlock then Filled(s, Some(EOF)) else SerialFill(e, Ser(s.d, s.at.(br := None)), target)
      case Stop(err, c) => Filled(Ser(s.d, s.at.(br := Some(c))), Some(err))
      case Symbol(op, c) =>
        var a := e.Apply(s.d, op);
        var s' := Ser(a.d, s.at.(br := Some(c)));
        if a.err.Some? then Filled(s', a.err) else SerialFill(e, s', target)
  }

  ghost predicate AtEnd(e: Engine, at: Place) {
    at.br.Some? && e.Parse(at.tables, at.br.value).BlockEnd?
  }

  // A place at the end of a block that is not the last, seen as having left it: the pipeline pops
  // such a block at once, the serial loop on its next trip.
  ghost function Settled(e: Engine, at: Place): Place {
    if AtEnd(e, at) && !at.lastBlock then at.(br := None) else at
  }

  lemma {:induction false} FillSettled(e: Engine, s: Ser, target: nat)
    requires Lawful(e) && s.d.win.unread < target
    ensures SerialFill(e, s, target) == SerialFill(e, Ser(s.d, Settled(e, s.at)), target)
  {
  }

  // s1 is a point the run of fill from s0 passes through.
  ghost predicate Follows(e: Engine, s0: Ser, s1: Ser, target: nat)
    requires Lawful(e)
  {
    SerialFill(e, s0, target) == SerialFill(e, s1, target)
  }

  // fill from s0 must be seen to end like this: the same decoder state and, unless both ends are
  // soft, the same error.
  ghost predicate Ends(e: Engine, s0: Ser, target: nat, d: Dec, err: Option<Error>)
    requires Lawful(e)
  {
    var Filled(s, serr) := SerialFill(e, s0, target);
    s.d == d && (Soft(err) <==> Soft(serr)) && (!Soft(err) ==> err == serr)
  }

  // One symbol further on.
  lemma {:induction false} FollowSymbol(e: Engine, s0: Ser, s1: Ser, target: nat)
    requires Lawful(e) && Follows(e, s0, s1, target) && s1.d.win.unread < target
    requires s1.at.br.Some? && e.Parse(s1.at.tables, s1.at.br.value).Symbol?
    ensures var q := e.Parse(s1.at.tables, s1.at.br.value);
      var a := e.Apply(s1.d, q.op);
      var s2 := Ser(a.d, s1.at.(br := Some(q.cur)));
      if a.err.Some? then SerialFill(e, s0, target) == Filled(s2, a.err) && !Soft(a.err) else Follows(e, s0, s2, target)
  {
    assert Laws(e, Now);
    var q := e.Parse(s1.at.tables, s1.at.br.value);
    assert Grown(s1.d, e.Apply(s1.d, q.op).d);
  }
}
