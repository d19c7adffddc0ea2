// One block on its own: decoding it to items, replaying those, and finishing inline what did not fit,
// against reading it symbol by symbol (decoder50_items.go:294-442, decoder50_parallel.go:527-579).

module BlockReplay {
  import opened Basics
  import opened DecodeTypes
  import opened Emission
  import opened Items
  import opened PipeState

  // Where the pipeline stands in the block: replaying items, on the bits themselves, or past it.
  datatype Stand = Replaying(o: Outcome) | Inline(c: Cursor) | Past

  // What one fill does inside the block: the decoder, where it stands, and the error. Out of data
  // leaves it in the block; any other error, like the end, does not.
  datatype Turn<T> = Turn(d: Dec, at: T, err: Option<Error>)

  function SerialTurn(e: Engine, ts: Tables, d: Dec, c: Cursor, target: nat): Turn<Option<Cursor>>
    requires Lawful(e)
    decreases c.Left()
  {
    assert Laws(e, Now);
    if d.win.unread >= target then Turn(d, Some(c), None)
    else
      match e.Parse(ts, c)
      case BlockEnd => Turn(d, None, None)
      case Stop(err, c') => Turn(d, if err == OutOfData then Some(c') else None, Some(err))
      case Symbol(op, c') =>
        var a := e.Apply(d, op);
        if a.err.Some? then Turn(a.d, None, a.err) else SerialTurn(e, ts, a.d, c', target)
  }

  function InlineTurn(e: Engine, ts: Tables, d: Dec, c: Cursor, target: nat): Turn<Stand>
    requires Lawful(e)
  {
    var t := SerialTurn(e, ts, d, c, target);
    Turn(t.d, if t.at.Some? then Inline(t.at.value) else Past, t.err)
  }

  function ReplayTurn(e: Engine, ts: Tables, d: Dec, o: Outcome, target: nat): Turn<Stand>
    requires Lawful(e)
    decreases |o.items|
  {
    if o.items == [] then
      if o.err.Some? then
        if d.win.unread >= target then Turn(d, Replaying(o), None)
        else Turn(d, if o.err.value == OutOfData then Inline(o.resume) else Past, o.err)
      else if o.partial then InlineTurn(e, ts, d, o.resume, target)
      else Turn(d, Past, None)
    else if d.win.unread >= target then Turn(d, Replaying(o), None)
    else
      match Front(o.items)
      case None => Turn(d, Past, Some(CorruptDecodeHeader))
      case Some(op) =>
        var a := e.Apply(d, op);
        if a.err.Some? then Turn(a.d, Past, a.err)
        else ReplayTurn(e, ts, a.d, Rest(o, Min(|Encode(op)|, |o.items|)), target)
  }

  function PipeTurn(e: Engine, ts: Tables, d: Dec, at: Stand, target: nat): Turn<Stand>
    requires Lawful(e)
  {
    match at
    case Replaying(o) => ReplayTurn(e, ts, d, o, target)
    case Inline(c) => InlineTurn(e, ts, d, c, target)
    case Past => Turn(d, Past, None)
  }

  function SerialFrom(e: Engine, ts: Tables, d: Dec, at: Option<Cursor>, target: nat): Turn<Option<Cursor>>
    requires Lawful(e)
  {
    match at
    case Some(c) => SerialTurn(e, ts, d, c, target)
    case None => Turn(d, None, None)
  }

  // The same place: the items left are those of the block from there on, with room for so many more;
  // a block the pipeline is past is one the serial decoder is at the end of, or past too.
  ghost predicate SamePlace(e: Engine, ts: Tables, at: Option<Cursor>, p: Stand, room: int)
    requires Lawful(e)
  {
    assert Laws(e, Now);
    match p
    case Replaying(o) => at.Some? && o == DecodeItems(e, ts, at.value, room)
    case Inline(c) => at == Some(c)
    case Past => at.Some? ==> e.Parse(ts, at.value).BlockEnd?
  }

  lemma {:induction false} ReplayAgrees(e: Engine, ts: Tables, d: Dec, c: Cursor, o: Outcome, target: nat, room: int) returns (room': int)
    requires Lawful(e) && o == DecodeItems(e, ts, c, room)
    ensures var s := SerialTurn(e, ts, d, c, target); var p := ReplayTurn(e, ts, d, o, target);
      p.d == s.d && p.err == s.err && SamePlace(e, ts, s.at, p.at, room')
    decreases |o.items|
  {
    room' := room;
    if o.items == [] || d.win.unread >= target {
      NoItemReplayed(e, ts, d, c, o, target, room);
    } else {
      var q, more := OneReplayed(e, ts, d, c, o, target, room);
      var a := e.Apply(d, q.op);
      if a.err.None? {
        room' := ReplayAgrees(e, ts, a.d, q.cur, more, target, room - |Encode(q.op)|);
      }
    }
  }

  // With the target met, or the items used up, what is left is the block from there on.
  lemma {:induction false} NoItemReplayed(e: Engine, ts: Tables, d: Dec, c: Cursor, o: Outcome, target: nat, room: int)
    requires Lawful(e) && o == DecodeItems(e, ts, c, room) && (o.items == [] || d.win.unread >= target)
    ensures var s := SerialTurn(e, ts, d, c, target); var p := ReplayTurn(e, ts, d, o, target);
      p.d == s.d && p.err == s.err && SamePlace(e, ts, s.at, p.at, room)
  {
    assert Laws(e, Now);
  }

  // One item is the one symbol the bits say.
  lemma {:induction false} OneReplayed(e: Engine, ts: Tables, d: Dec, c: Cursor, o: Outcome, target: nat, room: int)
    returns (q: Parsed, more: Outcome)
    requires Lawful(e) && o == DecodeItems(e, ts, c, room) && o.items != [] && d.win.unread < target
    ensures q == e.Parse(ts, c) && q.Symbol? && |more.items| < |o.items|
    ensures more == DecodeItems(e, ts, q.cur, room - |Encode(q.op)|)
    ensures var a := e.Apply(d, q.op);
      if a.err.Some? then
        SerialTurn(e, ts, d, c, target) == Turn(a.d, None, a.err) && ReplayTurn(e, ts, d, o, target) == Turn(a.d, Past, a.err)
      else
        && SerialTurn(e, ts, d, c, target) == SerialTurn(e, ts, a.d, q.cur, target)
        && ReplayTurn(e, ts, d, o, target) == ReplayTurn(e, ts, a.d, more, target)
  {
    assert Rest(o, 0) == o && o.items[0..] == o.items;
    ItemIsNext(e, o, 0, ts, c, room);
    q := e.Parse(ts, c);
    more := Rest(o, |Encode(q.op)|);
  }

  // One fill: the same bytes written, the same decoder state, the same error at the same symbol.
  lemma {:induction false} TurnsAgree(e: Engine, ts: Tables, d: Dec, at: Option<Cursor>, p: Stand, target: nat, room: int) returns (room': int)
    requires Lawful(e) && SamePlace(e, ts, at, p, room)
    ensures var s := SerialFrom(e, ts, d, at, target); var q := PipeTurn(e, ts, d, p, target);
      q.d == s.d && q.err == s.err && SamePlace(e, ts, s.at, q.at, room')
  {
    room' := room;
    match p {
      case Replaying(o) => room' := ReplayAgrees(e, ts, d, at.value, o, target, room);
      case Inline(_) =>
      case Past =>
    }
  }

  // What one fill of a run is asked for: the caller takes so many bytes first, then wants so many staged.
  datatype Demand = Demand(take: nat, target: nat)

  function Drained(d: Dec, take: nat): Dec {
    d.(win := Took(d.win, take))
  }

  // The errors and the decoder after every fill of a run, up to the first hard error.
  function SerialRun(e: Engine, ts: Tables, d: Dec, at: Option<Cursor>, run: seq<Demand>): seq<(Dec, Option<Error>)>
    requires Lawful(e)
    decreases |run|
  {
    if run == [] then []
    else
      var t := SerialFrom(e, ts, Drained(d, run[0].take), at, run[0].target);
      [(t.d, t.err)] + if Soft(t.err) then SerialRun(e, ts, t.d, t.at, run[1..]) else []
  }

  function PipeRun(e: Engine, ts: Tables, d: Dec, at: Stand, run: seq<Demand>): seq<(Dec, Option<Error>)>
    requires Lawful(e)
    decreases |run|
  {
    if run == [] then []
    else
      var t := PipeTurn(e, ts, Drained(d, run[0].take), at, run[0].target);
      [(t.d, t.err)] + if Soft(t.err) then PipeRun(e, ts, t.d, t.at, run[1..]) else []
  }

  lemma {:induction false} RunsAgree(e: Engine, ts: Tables, d: Dec, at: Option<Cursor>, p: Stand, run: seq<Demand>, room: int)
    requires Lawful(e) && SamePlace(e, ts, at, p, room)
    ensures PipeRun(e, ts, d, p, run) == SerialRun(e, ts, d, at, run)
    decreases |run|
  {
    if run != [] {
      var d0 := Drained(d, run[0].take);
      var room' := TurnsAgree(e, ts, d0, at, p, run[0].target, room);
      var s := SerialFrom(e, ts, d0, at, run[0].target);
      if Soft(s.err) {
        RunsAgree(e, ts, s.d, s.at, PipeTurn(e, ts, d0, p, run[0].target).at, run[1..], room');
      }
    }
  }

  // For every block, tables, item capacity and sequence of fill targets: decoding to items and
  // replaying them is decoding symbol by symbol.
  lemma {:induction false} BlocksAgree(e: Engine, ts: Tables, d: Dec, c: Cursor, itemCap: nat, run: seq<Demand>)
    requires Lawful(e)
    ensures PipeRun(e, ts, d, Replaying(DecodeItems(e, ts, c, itemCap)), run) == SerialRun(e, ts, d, Some(c), run)
  {
    RunsAgree(e, ts, d, Some(c), Replaying(DecodeItems(e, ts, c, itemCap)), run, itemCap);
  }
}
