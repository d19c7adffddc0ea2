// Where a member goes on: the search of nextVolumePayload told by the headers that stand in the channel,
// not by how they are gone through (splice.go:97-266; reader.go:888-929, 1466-1478; volume.go:156-192).

module Continuation {
  import opened Basics
  import opened Splice

  // Nothing to stop for: a sound archive header, or a block that is not a file.
  predicate Aside(b: Block) {
    b.head == Archive(None) || b.head.OtherBlock?
  }

  // The first k blocks are that, with their payloads whole.
  predicate Clear(c: Contents, k: nat) {
    k <= |c.blocks| && forall i :: 0 <= i < k ==> Aside(c.blocks[i]) && |c.blocks[i].data| >= c.blocks[i].declared
  }

  // Behind its first k blocks the volume ends, in order or cut, and holds nothing for the member.
  predicate Spent(c: Contents, k: nat) {
    Clear(c, k) &&
      if k == |c.blocks| then c.end == End || c.end == Unexpected
      else c.blocks[k].head.EndOfVolume? || (Aside(c.blocks[k]) && |c.blocks[k].data| < c.blocks[k].declared)
  }

  ghost predicate Fruitless(o: Opening) {
    o.CutSignature? || (o.Opens? && exists k :: Spent(o.c, k))
  }

  // Block k of volume j goes on with the member, and everything in front of it is passed over.
  ghost predicate GoesOn(queue: seq<Opening>, first: Identity, j: nat, k: nat) {
    && j < |queue| && (forall i :: 0 <= i < j ==> Fruitless(queue[i]))
    && queue[j].Opens? && k < |queue[j].c.blocks| && Clear(queue[j].c, k)
    && var h := queue[j].c.blocks[k].head; h.File? && !h.h.firstBlock && h.h.id == first
  }

  // The block ends the search with this fault, itself staged if a new member starts with it.
  predicate Bars(b: Block, first: Identity, fault: Fault, staged: Option<Block>) {
    match b.head
    case File(h) =>
      if h.firstBlock then fault == End && staged == Some(b) else h.id != first && fault == Corrupt && staged == None
    case BadFile(known, firstBlock) =>
      if known && firstBlock then fault == End && staged == Some(b) else fault == Corrupt && staged == None
    case Archive(f) => f == Some(fault) && staged == None
    case EndOfVolume => false
    case OtherBlock => false
  }

  // The volumes in front of the j-th are passed over, and there the search stops.
  ghost predicate GivesUp(queue: seq<Opening>, last: Fault, first: Identity, j: nat, k: nat, fault: Fault, staged: Option<Block>) {
    && j <= |queue| && (forall i :: 0 <= i < j ==> Fruitless(queue[i]))
    && if j == |queue| then fault == last && staged == None
       else if queue[j].Unopened? then fault == queue[j].fault && staged == None
       else
         && queue[j].Opens? && Clear(queue[j].c, k)
         && if k == |queue[j].c.blocks| then queue[j].c.end == fault && fault != End && fault != Unexpected && staged == None
            else Bars(queue[j].c.blocks[k], first, fault, staged)
  }

  // ---- From the i-th block of a volume on.

  function From(c: Contents, i: nat): Contents
    requires i <= |c.blocks|
  {
    Contents(c.blocks[i..], c.end)
  }

  // Blocks in front of the k-th are passed over.
  lemma {:induction false} ScanTo(c: Contents, i: nat, k: nat, queue: seq<Opening>, last: Fault, first: Identity)
    requires i <= k && Clear(c, k)
    ensures Scan(From(c, i), queue, last, first) == Scan(From(c, k), queue, last, first)
    decreases k - i
  {
    if i < k {
      FrontOf(c.blocks, i);
      ScanTo(c, i + 1, k, queue, last, first);
    }
  }

  // What block k, or the end, then does.
  lemma {:induction false} ScanAt(c: Contents, k: nat, queue: seq<Opening>, last: Fault, first: Identity)
    requires Clear(c, k)
    ensures Spent(c, k) ==> Scan(c, queue, last, first) == Search(queue, last, first)
    ensures k < |c.blocks| && Agrees(c.blocks[k], first) ==> Scan(c, queue, last, first) == Continues(c.blocks[k], From(c, k + 1), queue)
    ensures k == |c.blocks| && c.end != End && c.end != Unexpected ==> Scan(c, queue, last, first) == Stops(c.end, None)
    ensures forall f, b :: k < |c.blocks| && Bars(c.blocks[k], first, f, b) ==> Scan(c, queue, last, first) == Stops(f, b)
  {
    assert c.blocks[0..] == c.blocks;
    ScanTo(c, 0, k, queue, last, first);
    if k < |c.blocks| {
      FrontOf(c.blocks, k);
    }
  }

  // Every volume is one of these, at one block of it.
  lemma {:induction false} VolumeIs(c: Contents, i: nat, first: Identity) returns (k: nat)
    requires Clear(c, i)
    ensures Clear(c, k)
    ensures || Spent(c, k)
            || (k == |c.blocks| && c.end != End && c.end != Unexpected)
            || (k < |c.blocks| && (Agrees(c.blocks[k], first) || exists f, b :: Bars(c.blocks[k], first, f, b)))
    decreases |c.blocks| - i
  {
    k := i;
    if i < |c.blocks| {
      var b := c.blocks[i];
      if Aside(b) {
        if Whole(b) {
          k := VolumeIs(c, i + 1, first);
        }
      } else if !b.head.EndOfVolume? && !Agrees(b, first) {
        var f := match b.head
          case File(h) => if h.firstBlock then End else Corrupt
          case BadFile(known, firstBlock) => if known && firstBlock then End else Corrupt
          case Archive(g) => g.GetOr(End)
          case _ => End;
        var staged := if f == End && !b.head.Archive? then Some(b) else None;
        assert Bars(b, first, f, staged);
      }
    }
  }

  // ---- The search.

  // Volumes that hold nothing for the member are passed over.
  lemma {:induction false} SearchTo(queue: seq<Opening>, j: nat, last: Fault, first: Identity)
    requires j <= |queue| && forall i :: 0 <= i < j ==> Fruitless(queue[i])
    ensures Search(queue, last, first) == Search(queue[j..], last, first)
    decreases j
  {
    if j > 0 {
      assert Fruitless(queue[0]);
      if queue[0].Opens? {
        var k :| Spent(queue[0].c, k);
        ScanAt(queue[0].c, k, queue[1..], last, first);
      }
      forall i | 0 <= i < j - 1 ensures Fruitless(queue[1..][i]) {
        assert queue[1..][i] == queue[i + 1];
      }
      SearchTo(queue[1..], j - 1, last, first);
      assert queue[1..][j - 1..] == queue[j..];
    } else {
      assert queue[0..] == queue;
    }
  }

  // A continuation that stands in the channel behind nothing but that is found.
  lemma {:induction false} GoesOnFound(queue: seq<Opening>, last: Fault, first: Identity, j: nat, k: nat)
    requires GoesOn(queue, first, j, k)
    ensures var c := queue[j].c; Search(queue, last, first) == Continues(c.blocks[k], From(c, k + 1), queue[j + 1..])
  {
    SearchTo(queue, j, last, first);
    ScanAt(queue[j].c, k, queue[j + 1..], last, first);
    assert queue[j..][0] == queue[j] && queue[j..][1..] == queue[j + 1..];
  }

  lemma {:induction false} GivesUpStops(queue: seq<Opening>, last: Fault, first: Identity, j: nat, k: nat, fault: Fault, staged: Option<Block>)
    requires GivesUp(queue, last, first, j, k, fault, staged)
    ensures Search(queue, last, first) == Stops(fault, staged)
  {
    SearchTo(queue, j, last, first);
    if j < |queue| {
      assert queue[j..][0] == queue[j] && queue[j..][1..] == queue[j + 1..];
      if queue[j].Opens? {
        ScanAt(queue[j].c, k, queue[j + 1..], last, first);
      }
    }
  }

  // And the other way round: there is always one place, with everything in front of it passed over, where
  // the search finds what stands there or stops for it. So it goes on with the member if and only if a
  // continuation stands behind nothing that bars it.
  lemma {:induction false} SearchIsPlace(queue: seq<Opening>, last: Fault, first: Identity) returns (j: nat, k: nat)
    ensures var r := Search(queue, last, first);
      match r
      case Continues(b, after, rest) =>
        GoesOn(queue, first, j, k) && b == queue[j].c.blocks[k] && after == From(queue[j].c, k + 1) && rest == queue[j + 1..]
      case Stops(fault, staged) => GivesUp(queue, last, first, j, k, fault, staged)
  {
    j, k := Place(queue, 0, first);
    if GoesOn(queue, first, j, k) {
      GoesOnFound(queue, last, first, j, k);
    } else if j == |queue| {
      GivesUpStops(queue, last, first, j, k, last, None);
    } else if queue[j].Unopened? {
      GivesUpStops(queue, last, first, j, k, queue[j].fault, None);
    } else if k == |queue[j].c.blocks| {
      GivesUpStops(queue, last, first, j, k, queue[j].c.end, None);
    } else {
      var f, b :| Bars(queue[j].c.blocks[k], first, f, b);
      GivesUpStops(queue, last, first, j, k, f, b);
    }
  }

  // The first volume from the i-th on that is not passed over, and the block in it.
  lemma {:induction false} Place(queue: seq<Opening>, i: nat, first: Identity) returns (j: nat, k: nat)
    requires i <= |queue| && forall x :: 0 <= x < i ==> Fruitless(queue[x])
    ensures j <= |queue| && forall x :: 0 <= x < j ==> Fruitless(queue[x])
    ensures j < |queue| && !queue[j].Unopened? ==>
      && queue[j].Opens? && Clear(queue[j].c, k)
      && var c := queue[j].c;
         || (k == |c.blocks| && c.end != End && c.end != Unexpected)
         || (k < |c.blocks| && (Agrees(c.blocks[k], first) || exists f, b :: Bars(c.blocks[k], first, f, b)))
    decreases |queue| - i
  {
    j, k := i, 0;
    if i < |queue| && !queue[i].Unopened? {
      if queue[i].CutSignature? {
        j, k := Place(queue, i + 1, first);
      } else {
        k := VolumeIs(queue[i].c, 0, first);
        if Spent(queue[i].c, k) {
          j, k := Place(queue, i + 1, first);
        }
      }
    }
  }

  // ---- A whole member.

  // After part p the member goes on with q: block k of volume j of those behind p.
  ghost predicate Follows(channel: seq<Opening>, first: Identity, p: Part, q: Part) {
    && p.b.head.File? && !p.b.head.h.lastBlock && |p.b.data| >= p.b.declared
    && p.found <= |channel| && q.from == p.found
    && exists j: nat, k: nat :: GoesOn(channel[p.found..], first, j, k) && q.b == channel[p.found..][j].c.blocks[k] && q.found == p.found + j + 1
  }

  lemma {:induction false} LaidPart(channel: seq<Opening>, last: Fault, first: Identity, p: Part, q: Part)
    requires Follows(channel, first, p, q)
    ensures Succeeds(channel, last, first, p, q)
  {
    var queue := channel[p.found..];
    var j: nat, k: nat :| GoesOn(queue, first, j, k) && q.b == queue[j].c.blocks[k] && q.found == p.found + j + 1;
    GoesOnFound(queue, last, first, j, k);
    assert queue[j + 1..] == channel[q.found..];
  }

  lemma {:induction false} RestLaid(channel: seq<Opening>, first: Identity, parts: seq<Part>)
    requires |parts| > 1 && forall i :: 0 < i < |parts| ==> Follows(channel, first, parts[i - 1], parts[i])
    ensures forall i :: 0 < i < |parts[1..]| ==> Follows(channel, first, parts[1..][i - 1], parts[1..][i])
  {
    forall i | 0 < i < |parts[1..]| ensures Follows(channel, first, parts[1..][i - 1], parts[1..][i]) {
      assert Follows(channel, first, parts[i], parts[i + 1]);
    }
  }

  // A member laid over its volumes, each part where the one before it is followed by nothing that bars it,
  // is the member the splice reads: all of it, if its last block is among the parts.
  lemma {:induction false} LaidMember(channel: seq<Opening>, last: Fault, first: Identity, parts: seq<Part>)
    requires parts != [] && parts[0].found <= |channel| && parts[0].b.head.File?
    requires forall i :: 0 < i < |parts| ==> Follows(channel, first, parts[i - 1], parts[i])
    requires parts[|parts| - 1].b.head.File? && parts[|parts| - 1].b.head.h.lastBlock
    ensures Member(parts[0], channel, last, first) == parts
    decreases |parts|
  {
    if |parts| > 1 {
      assert Follows(channel, first, parts[0], parts[1]);
      LaidPart(channel, last, first, parts[0], parts[1]);
      MemberOn(channel, last, first, parts[0], parts[1]);
      var rest := parts[1..];
      RestLaid(channel, first, parts);
      LaidMember(channel, last, first, rest);
      assert parts == [parts[0]] + rest;
    }
  }
}
