// What each symbol does to the decoder, field by field (decoder50.go:240-290, decoder50_items.go:128-228).

module SymbolMeaning {
  import opened Basics
  import opened DecodeTypes
  import opened Lz77
  import opened Apply

  // A match of length bytes, distance back, from the history of d. d already has the distances and the
  // length the symbol leaves behind.
  ghost predicate Copied(d: Dec, length: nat, distance: int, a: Applied) {
    if 1 <= distance <= |d.win.hist| && distance <= d.win.size then
      && a.err.None?
      && Repeats(d.win.hist, distance, a.d.win.hist) && |a.d.win.hist| == |d.win.hist| + length
      && a.d == d.(win := Win(a.d.win.hist, d.win.unread + length, d.win.size), decoded := d.decoded + length)
    else
      && a.d == d
      && a.err == Some(if |d.win.hist| >= d.win.size && d.win.size < distance <= d.dictSize then DictionaryTooLarge else WindowOffsetBounds)
  }

  lemma {:induction false} ReplayCopies(d: Dec)
    ensures Copied(d, d.length, d.offset[0], Replay(d))
  {
    var distance := d.offset[0];
    if 1 <= distance <= Depth(d.win) {
      LzCopyRepeats(d.win.hist, distance, d.length, LzCopy(d.win.hist, distance, d.length));
    }
  }

  // A filter's record: refused for one of four reasons, in this order; or queued at its distance ahead, unless
  // it is empty.
  ghost predicate Recorded(d: Dec, offset: nat, flen: nat, ftype: nat, param: nat, a: Applied) {
    var inOrder := d.fl == [] || d.fl[|d.fl| - 1].start <= d.decoded + offset;
    && (a.err == Some(TooManyFilters) <==> |d.fl| >= 1024)
    && (a.err == Some(InvalidFilter) <==> |d.fl| < 1024 && (flen > 0x40_0000 || offset > d.win.size || !inOrder))
    && (a.err == Some(UnknownFilter) <==> |d.fl| < 1024 && flen <= 0x40_0000 && offset <= d.win.size && inOrder && ftype > 3)
    && (a.err.None? <==> |d.fl| < 1024 && flen <= 0x40_0000 && offset <= d.win.size && inOrder && ftype <= 3)
    && a.d == d.(fl := if a.err.None? && flen > 0 then d.fl + [FilterBlock(d.decoded + offset, flen, ftype, param)] else d.fl)
  }

  lemma {:induction false} RecordQueues(d: Dec, offset: nat, flen: nat, ftype: nat, param: nat)
    ensures Recorded(d, offset, flen, ftype, param, QueueFilter(d, offset, flen, ftype, param))
  {
  }

  // What a symbol leaves behind.
  lemma {:induction false} SymbolDoes(d: Dec, op: Op)
    ensures var a := ApplyOp(d, op);
      match op
      case Literal(b) =>
        a == Applied(d.(win := Win(d.win.hist + [b], d.win.unread + 1, d.win.size), decoded := d.decoded + 1), None)
      case Match(length, distance) =>
        Copied(d.(offset := [distance, d.offset[0], d.offset[1], d.offset[2]], length := length), length, distance, a)
      case RepDist(slot, length) =>
        slot < 4 ==> Copied(d.(offset := Recalled(d.offset, slot), length := length), length, d.offset[slot], a)
      case RepLast => Copied(d, d.length, d.offset[0], a)
      case Filter(offset, flen, ftype, param) => Recorded(d, offset, flen, ftype, param, a)
  {
    match op
    case Literal(_) =>
    case Match(length, distance) =>
      assert [distance] + d.offset[..3] == [distance, d.offset[0], d.offset[1], d.offset[2]];
      ReplayCopies(d.(offset := [distance] + d.offset[..3], length := length));
    case RepDist(slot, length) =>
      if slot < 4 {
        ReplayCopies(d.(offset := Recalled(d.offset, slot), length := length));
      }
    case RepLast => ReplayCopies(d);
    case Filter(offset, flen, ftype, param) => RecordQueues(d, offset, flen, ftype, param);
  }

  // A recalled distance moves to the front, and those that were in front of it move back.
  lemma {:induction false} RecalledIs(o: Offsets)
    ensures Recalled(o, 0) == o
    ensures Recalled(o, 1) == [o[1], o[0], o[2], o[3]]
    ensures Recalled(o, 2) == [o[2], o[0], o[1], o[3]]
    ensures Recalled(o, 3) == [o[3], o[0], o[1], o[2]]
  {
  }
}
