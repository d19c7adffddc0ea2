// The worker's half of a block: symbols packed into fixed-width items (decoder50_items.go).

module Items {
  import opened Basics
  import opened DecodeTypes

  datatype ItemKind = ItemLiteral | ItemMatch | ItemRepDist | ItemRepLast | ItemFilter | ItemFilterLen

  newtype uint8 = x: int | 0 <= x < 0x100
  newtype uint16 = x: int | 0 <= x < 0x1_0000
  newtype uint32 = x: int | 0 <= x < 0x1_0000_0000

  datatype Item = Item(kind: ItemKind, aux: uint8, length: uint16, value: uint32)

  // Go's integer conversions: they truncate silently.
  function U8(x: int): uint8 { (x % 0x100) as uint8 }
  function U16(x: int): uint16 { (x % 0x1_0000) as uint16 }
  function U32(x: int): uint32 { (x % 0x1_0000_0000) as uint32 }

  // The items one symbol is stored as; a filter takes two.
  function Encode(op: Op): (r: seq<Item>)
    ensures 1 <= |r| <= 2
  {
    match op
    case Literal(b) => [Item(ItemLiteral, 0, 0, U32(b))]
    case Match(length, distance) => [Item(ItemMatch, 0, U16(length), U32(distance - 1))]
    case RepDist(slot, length) => [Item(ItemRepDist, U8(slot), U16(length), 0)]
    case RepLast => [Item(ItemRepLast, 0, 0, 0)]
    case Filter(offset, flen, ftype, param) =>
      [Item(ItemFilter, U8(ftype), U16(param), U32(offset)), Item(ItemFilterLen, 0, 0, U32(flen))]
  }

  // What replay makes of the items at the front of items (decoder50_items.go:366-402).
  function Front(items: seq<Item>): Option<Op> {
    if items == [] then None
    else
      var it := items[0];
      match it.kind
      case ItemLiteral => Some(Literal(it.value as int % 0x100))
      case ItemMatch => Some(Match(it.length as int, it.value as int + 1))
      case ItemRepDist => Some(RepDist(it.aux as int, it.length as int))
      case ItemRepLast => Some(RepLast)
      case ItemFilter =>
        if |items| == 1 || items[1].kind != ItemFilterLen then None
        else Some(Filter(it.value as int, items[1].value as int, it.aux as int, it.length as int % 0x100))
      case ItemFilterLen => None
  }

  // The 32-bit distance-1 and the 16-bit length lose nothing: replay sees the symbol the worker read.
  lemma {:induction false} ItemRoundTrip(op: Op, rest: seq<Item>)
    requires InRange(op)
    ensures Front(Encode(op) + rest) == Some(op)
  {
    assert (Encode(op) + rest)[0] == Encode(op)[0];
    if op.Filter? {
      assert (Encode(op) + rest)[1] == Encode(op)[1];
    }
  }

  // The bound is tight: one past the largest distance or length an item is built for no longer survives it.
  lemma {:induction false} ItemFieldsAreTight()
    ensures Front(Encode(Match(4100, 0x1_0000_0000))) == Some(Match(4100, 0x1_0000_0000))
    ensures Front(Encode(Match(4100, 0x1_0000_0001))) == Some(Match(4100, 1))
    ensures Front(Encode(Match(0x1_0000, 1))) == Some(Match(0, 1))
  {
  }

  // A worker's result: the items, where the reader stood when it stopped, and why it stopped.
  datatype Outcome = Outcome(items: seq<Item>, resume: Cursor, err: Option<Error>, partial: bool)

  // room is how many items may still be stored.
  function DecodeItems(e: Engine, ts: Tables, c: Cursor, room: int): Outcome
    requires Lawful(e)
    decreases c.Left()
  {
    assert Laws(e, Now);
    if room <= 1 then Outcome([], c, None, true)
    else
      match e.Parse(ts, c)
      case BlockEnd => Outcome([], c, None, false)
      case Stop(err, c') => Outcome([], c', Some(err), false)
      case Symbol(op, c') =>
        Prepend(Encode(op), DecodeItems(e, ts, c', room - |Encode(op)|))
  }

  lemma {:induction false} DecodeItemsFit(e: Engine, ts: Tables, c: Cursor, room: int)
    requires Lawful(e)
    ensures |DecodeItems(e, ts, c, room).items| <= if room <= 0 then 0 else room
    decreases c.Left()
  {
    assert Laws(e, Now);
    if room > 1 && e.Parse(ts, c).Symbol? {
      var p := e.Parse(ts, c);
      DecodeItemsFit(e, ts, p.cur, room - |Encode(p.op)|);
    }
  }

  // Stores one symbol at position n.
  method Store(items: array<Item>, n: nat, op: Op) returns (n': nat)
    requires n < items.Length - 1
    modifies items
    ensures n' == n + |Encode(op)|
    ensures items[..n'] == old(items[..n]) + Encode(op)
  {
    match op {
      case Literal(b) =>
        items[n] := Item(ItemLiteral, 0, 0, U32(b));
        n' := n + 1;
      case Match(length, distance) =>
        items[n] := Item(ItemMatch, 0, U16(length), U32(distance - 1));
        n' := n + 1;
      case RepDist(slot, length) =>
        items[n] := Item(ItemRepDist, U8(slot), U16(length), 0);
        n' := n + 1;
      case RepLast =>
        items[n] := Item(ItemRepLast, 0, 0, 0);
        n' := n + 1;
      case Filter(offset, flen, ftype, param) =>
        items[n] := Item(ItemFilter, U8(ftype), U16(param), U32(offset));
        items[n + 1] := Item(ItemFilterLen, 0, 0, U32(flen));
        n' := n + 2;
    }
  }

  // decodeBlockItems: start is where the dispatcher left the reader, items is the job's array.
  method DecodeBlockItems(e: Engine, ts: Tables, start: Cursor, items: array<Item>)
    returns (n: nat, resume: Cursor, err: Option<Error>, partial: bool)
    requires Lawful(e)
    modifies items
    ensures n <= items.Length
    ensures Outcome(items[..n], resume, err, partial) == DecodeItems(e, ts, start, items.Length)
  {
    n, resume, err, partial := 0, start, None, false;
    ghost var whole := DecodeItems(e, ts, start, items.Length);
    while true
      invariant n <= items.Length && err.None? && !partial
      invariant whole == Prepend(items[..n], DecodeItems(e, ts, resume, items.Length - n))
      decreases resume.Left()
    {
      if n >= items.Length - 1 { // a filter needs two items
        partial := true;
        return;
      }
      match e.Parse(ts, resume) {
        case BlockEnd =>
          return;
        case Stop(stop, c) =>
          err, resume := Some(stop), c;
          return;
        case Symbol(op, c) =>
          DecodedMore(e, ts, items[..n], resume, items.Length - n);
          n := Store(items, n, op);
          resume := c;
      }
    }
  }

  // One symbol further on.
  lemma {:induction false} DecodedMore(e: Engine, ts: Tables, front: seq<Item>, c: Cursor, room: int)
    requires Lawful(e) && room > 1 && e.Parse(ts, c).Symbol?
    ensures var p := e.Parse(ts, c);
      && InRange(p.op) && p.cur.Left() < c.Left()
      && Prepend(front, DecodeItems(e, ts, c, room)) == Prepend(front + Encode(p.op), DecodeItems(e, ts, p.cur, room - |Encode(p.op)|))
  {
    assert Laws(e, Now);
    var p := e.Parse(ts, c);
    PrependPrepend(front, Encode(p.op), DecodeItems(e, ts, p.cur, room - |Encode(p.op)|));
  }

  function Prepend(front: seq<Item>, o: Outcome): Outcome {
    o.(items := front + o.items)
  }

  lemma {:induction false} PrependPrepend(a: seq<Item>, b: seq<Item>, o: Outcome)
    ensures Prepend(a, Prepend(b, o)) == Prepend(a + b, o)
  {
    assert a + (b + o.items) == (a + b) + o.items;
  }
}
