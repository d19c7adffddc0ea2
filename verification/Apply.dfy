// The half of a symbol that needs the window and what came before: matches, repeats, literals and
// filter records (decoder50.go:258-290, decoder50_items.go:156-228).

module Apply {
  import opened Basics
  import opened DecodeTypes
  import opened Lz77

  const MAX_QUEUED: nat := 1024          // maxQueuedFilters
  const MAX_FILTER_LENGTH: nat := 0x40_0000   // maxFilterBlockSize
  const MAX_LENGTH: nat := 4100

  // A refused match is a capacity limit only if the history spans the window, the distance exceeds
  // it, and the header declared a dictionary that is larger and that the distance fits.
  function Refusal(d: Dec): Error {
    if Depth(d.win) == d.win.size && d.offset[0] > d.win.size && d.dictSize > d.win.size && d.offset[0] <= d.dictSize
    then DictionaryTooLarge else WindowOffsetBounds
  }

  // replayMatch.
  function Replay(d: Dec): Applied {
    match CopyBytes(d.win, d.length, d.offset[0])
    case Some(w) => Applied(d.(win := w, decoded := d.decoded + d.length), None)
    case None => Applied(d, Some(Refusal(d)))
  }

  // The slot moves to the front.
  function Recalled(offset: Offsets, slot: nat): Offsets
    requires slot < 4
  {
    [offset[slot]] + offset[..slot] + offset[slot + 1..]
  }

  function QueueFilter(d: Dec, offset: nat, length: nat, ftype: nat, param: nat): Applied {
    if |d.fl| >= MAX_QUEUED then Applied(d, Some(TooManyFilters))
    else if length > MAX_FILTER_LENGTH || offset > d.win.size then Applied(d, Some(InvalidFilter))
    else if d.fl != [] && d.decoded + offset < d.fl[|d.fl| - 1].start then Applied(d, Some(InvalidFilter))
    else if ftype > 3 then Applied(d, Some(UnknownFilter))
    else if length == 0 then Applied(d, None)
    else Applied(d.(fl := d.fl + [FilterBlock(d.decoded + offset, length, ftype, param)]), None)
  }

  function ApplyOp(d: Dec, op: Op): Applied {
    match op
    case Literal(b) => Applied(d.(win := Written(d.win, [b]), decoded := d.decoded + 1), None)
    case Match(length, distance) => Replay(d.(offset := [distance] + d.offset[..3], length := length))
    case RepDist(slot, length) =>
      if slot < 4 then Replay(d.(offset := Recalled(d.offset, slot), length := length))
      else Applied(d, Some(CorruptDecodeHeader)) // no symbol has such a slot
    case RepLast => Replay(d)
    case Filter(offset, flen, ftype, param) => QueueFilter(d, offset, flen, ftype, param)
  }

  // Applying only appends, and refuses only with a hard error.
  lemma {:induction false} AppliedGrown(d: Dec, op: Op)
    ensures var a := ApplyOp(d, op); Grown(d, a.d) && (a.err.Some? ==> !Soft(a.err))
  {
    if op.Filter? && |d.fl| < |ApplyOp(d, op).d.fl| {
      assert ApplyOp(d, op).d.fl[..|d.fl|] == d.fl;
    }
  }

  // A symbol that is accepted queues what it announces, behind what is queued; a refused one nothing.
  lemma {:induction false} AppliedQueues(d: Dec, op: Op)
    ensures var a := ApplyOp(d, op); a.d.fl == d.fl + (if a.err.None? then Announced(d.decoded, op) else [])
  {
  }

  // The states decoding reaches: the window is no smaller than RAR5's least and not full, and the
  // match length in force is one a symbol could give.
  ghost predicate DecOk(d: Dec) {
    d.win.size >= 0x4_0000 && d.win.unread < d.win.size && d.length <= MAX_LENGTH
  }

  // One symbol adds at most MAX_LENGTH bytes: below the fill target there is room for it.
  lemma {:induction false} AppliedFits(d: Dec, op: Op)
    requires DecOk(d) && InRange(op) && d.win.unread < FillTarget(d.win)
    ensures d.win.unread + MAX_LENGTH < d.win.size
    ensures DecOk(ApplyOp(d, op).d)
    ensures |ApplyOp(d, op).d.win.hist| <= |d.win.hist| + MAX_LENGTH
  {
  }

  // A literal, filter and match refusal leave the window alone.
  lemma {:induction false} RefusedUnchanged(d: Dec, op: Op)
    requires ApplyOp(d, op).err.Some?
    ensures ApplyOp(d, op).d.win == d.win && ApplyOp(d, op).d.decoded == d.decoded && ApplyOp(d, op).d.fl == d.fl
  {
  }

  // A distance is accepted exactly when it points at a byte of this history the window still holds.
  lemma {:induction false} MatchAccepted(d: Dec, length: nat, distance: nat)
    ensures ApplyOp(d, Match(length, distance)).err.None? <==> 1 <= distance <= |d.win.hist| && distance <= d.win.size
    ensures ApplyOp(d, Match(length, distance)).err == Some(DictionaryTooLarge) <==>
      |d.win.hist| >= d.win.size && d.win.size < distance <= d.dictSize
  {
  }

  // Recalling a distance only reorders the history: the recalled one first, the others as they were.
  lemma {:induction false} RecalledReorders(offset: Offsets, slot: nat)
    requires slot < 4
    ensures multiset(Recalled(offset, slot)) == multiset(offset)
    ensures Recalled(offset, slot)[0] == offset[slot]
    ensures Recalled(offset, slot)[1..] == offset[..slot] + offset[slot + 1..]
  {
    assert offset == offset[..slot] + [offset[slot]] + offset[slot + 1..];
  }

  // Repeating the last match is the match again, with the distance history as it is; so is recalling
  // slot 0 with the same length.
  lemma {:induction false} LastRepeated(d: Dec, length: nat, distance: int)
    ensures var d1 := ApplyOp(d, Match(length, distance)).d;
      && ApplyOp(d1, RepLast) == ApplyOp(d1, RepDist(0, length))
      && ApplyOp(d1, RepLast).d.offset == d1.offset == [distance] + d.offset[..3]
      && (ApplyOp(d1, RepLast).err.None? ==>
            Repeats(d1.win.hist, distance, ApplyOp(d1, RepLast).d.win.hist) && |ApplyOp(d1, RepLast).d.win.hist| == |d1.win.hist| + length)
  {
    var d1 := ApplyOp(d, Match(length, distance)).d;
    assert Recalled(d1.offset, 0) == d1.offset;
    if 0 < distance <= Depth(d1.win) {
      LzCopyRepeats(d1.win.hist, distance, length, LzCopy(d1.win.hist, distance, length));
    }
  }
}
