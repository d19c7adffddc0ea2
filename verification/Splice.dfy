// splice.go: a member's payload across the volumes it spans, over volumes as they are read
// (splice.go:24-89, 97-266; volume.go:156-207; reader.go:1466-1478).

module Splice {
  import opened Basics

  datatype Fault = End | Unexpected | NoNextVolume | ReaderClosed | Corrupt | Failed(code: int)

  // What has to agree between a member's first block and its continuations.
  datatype Identity = Identity(encrypted: bool, name: string, method_: nat, version: nat, solid: bool, dictSize: int, unpackedSize: int)

  datatype Header = Header(firstBlock: bool, lastBlock: bool, id: Identity)

  // A block's header as the traversal reads it.
  datatype BlockHead =
    | File(h: Header)
    | BadFile(known: bool, firstBlock: bool)   // known: enough was parsed to tell what it was
    | Archive(fault: Option<Fault>)            // archive and encryption headers: fine, or not
    | EndOfVolume
    | OtherBlock

  // data is what the volume really holds of the declared payload.
  datatype Block = Block(head: BlockHead, declared: nat, data: seq<byte>)

  // The part of the declared payload that is there.
  function Payload(b: Block): (p: seq<byte>)
    ensures p <= b.data && |p| <= b.declared && (|p| == |b.data| || |p| == b.declared)
  {
    b.data[..Min(b.declared, |b.data|)]
  }

  // A volume's blocks, and what reading one more header reports.
  datatype Contents = Contents(blocks: seq<Block>, end: Fault)

  // What opening the next stream of the channel gives.
  datatype Opening = Opens(c: Contents) | CutSignature | Unopened(fault: Fault)

  // What a member's continuation is looked for in: the volumes still to come, and what the channel ends
  // with. Continues names the block found, what follows it in its volume, and the volumes after that.
  datatype Found =
    | Continues(b: Block, after: Contents, queue: seq<Opening>)
    | Stops(fault: Fault, staged: Option<Block>)

  // A continuation is a later block of the same member.
  predicate Agrees(b: Block, first: Identity) {
    b.head.File? && !b.head.h.firstBlock && b.head.h.id == first
  }

  // What a block means to the search: it is the continuation, ends the search, ends the volume, or is
  // passed over. A new member is staged, and ends the one in progress.
  datatype Judged = Takes | Ends(fault: Fault, staged: Option<Block>) | Leaves | Passes

  function Judge(b: Block, first: Identity): Judged {
    match b.head
    case File(h) =>
      if h.firstBlock then Ends(End, Some(b)) else if Agrees(b, first) then Takes else Ends(Corrupt, None)
    case BadFile(known, firstBlock) => if known && firstBlock then Ends(End, Some(b)) else Ends(Corrupt, None)
    case Archive(Some(f)) => Ends(f, None)
    case Archive(None) => Passes
    case EndOfVolume => Leaves
    case OtherBlock => Passes
  }

  predicate Whole(b: Block) {
    |b.data| >= b.declared
  }

  // From the start of the next volume on. Streams cut inside their signature are passed over.
  function Search(queue: seq<Opening>, last: Fault, first: Identity): (r: Found)
    ensures r.Continues? ==> |r.queue| < |queue| && Agrees(r.b, first)
    decreases |queue|, 0
  {
    if queue == [] then Stops(last, None)
    else
      match queue[0]
      case Opens(c) => Scan(c, queue[1..], last, first)
      case CutSignature => Search(queue[1..], last, first)
      case Unopened(f) => Stops(f, None)
  }

  // How many streams cut inside their signature come first.
  function CutShort(queue: seq<Opening>): (k: nat)
    ensures k <= |queue| && (k < |queue| ==> !queue[k].CutSignature?)
  {
    if queue != [] && queue[0].CutSignature? then 1 + CutShort(queue[1..]) else 0
  }

  lemma {:induction false} SearchSkips(queue: seq<Opening>, last: Fault, first: Identity)
    ensures var k := CutShort(queue);
      Search(queue, last, first) ==
        if k == |queue| then Stops(last, None)
        else if queue[k].Unopened? then Stops(queue[k].fault, None)
        else Scan(queue[k].c, queue[k + 1..], last, first)
  {
    if queue != [] && queue[0].CutSignature? {
      SearchSkips(queue[1..], last, first);
      var k := CutShort(queue);
      assert k < |queue| ==> queue[1..][k..] == queue[k + 1..];
    }
  }

  // From a block boundary of a volume on. A volume that ends, or is cut, sends the search to the next.
  function Scan(c: Contents, queue: seq<Opening>, last: Fault, first: Identity): (r: Found)
    ensures r.Continues? ==> |r.queue| <= |queue| && Agrees(r.b, first)
    decreases |queue|, |c.blocks| + 1
  {
    if c.blocks == [] then
      if c.end == End || c.end == Unexpected then Search(queue, last, first) else Stops(c.end, None)
    else
      var b, after := c.blocks[0], c.(blocks := c.blocks[1..]);
      match Judge(b, first)
      case Takes => Continues(b, after, queue)
      case Ends(f, staged) => Stops(f, staged)
      case Leaves => Search(queue, last, first)
      case Passes => if Whole(b) then Scan(after, queue, last, first) else Search(queue, last, first)
  }

  // b is the k-th block of c, and after is what follows it there.
  ghost predicate Stands(c: Contents, k: nat, b: Block, after: Contents) {
    k < |c.blocks| && c.blocks[k] == b && after == Contents(c.blocks[k + 1..], c.end)
  }

  // What is found stands in the j-th of the volumes still to come, and those behind that volume are left.
  lemma {:induction false} SearchFinds(queue: seq<Opening>, last: Fault, first: Identity) returns (j: nat, k: nat)
    requires Search(queue, last, first).Continues?
    ensures var r := Search(queue, last, first);
      j < |queue| && queue[j].Opens? && r.queue == queue[j + 1..] && Stands(queue[j].c, k, r.b, r.after)
    decreases |queue|, 0
  {
    match queue[0]
    case Opens(c) =>
      assert c.blocks[0..] == c.blocks;
      var here;
      here, j, k := ScanFinds(c, 0, queue[1..], last, first);
      if here {
        j := 0;
      } else {
        LaterIn(queue, j);
        j := j + 1;
      }
    case CutSignature =>
      j, k := SearchFinds(queue[1..], last, first);
      LaterIn(queue, j);
      j := j + 1;
  }

  lemma {:induction false} LaterIn(queue: seq<Opening>, j: nat)
    requires j + 1 < |queue|
    ensures queue[1..][j] == queue[j + 1] && queue[1..][j + 1..] == queue[j + 2..]
  {
  }

  // From the i-th block of a volume on: in that volume, or in one still to come.
  lemma {:induction false} ScanFinds(c: Contents, i: nat, queue: seq<Opening>, last: Fault, first: Identity)
    returns (here: bool, j: nat, k: nat)
    requires i <= |c.blocks| && Scan(Contents(c.blocks[i..], c.end), queue, last, first).Continues?
    ensures var r := Scan(Contents(c.blocks[i..], c.end), queue, last, first);
      if here then r.queue == queue && Stands(c, k, r.b, r.after)
      else j < |queue| && queue[j].Opens? && r.queue == queue[j + 1..] && Stands(queue[j].c, k, r.b, r.after)
    decreases |queue|, |c.blocks| - i + 1
  {
    here, j, k := false, 0, i;
    if i < |c.blocks| {
      FrontOf(c.blocks, i);
      if Judge(c.blocks[i], first).Takes? {
        here := true;
        return;
      }
      if Judge(c.blocks[i], first).Passes? && Whole(c.blocks[i]) {
        here, j, k := ScanFinds(c, i + 1, queue, last, first);
        return;
      }
    }
    j, k := SearchFinds(queue, last, first);
  }

  lemma {:induction false} FrontOf(blocks: seq<Block>, i: nat)
    requires i < |blocks|
    ensures blocks[i..][0] == blocks[i] && blocks[i..][1..] == blocks[i + 1..]
  {
  }

  class Volume {
    var blocks: seq<Block>
    const end: Fault
    var body: seq<byte>     // of the current block's payload, what is there and unread
    var n: nat              // of the current block's declared payload, what is unread
    var err: Option<Fault>
    ghost var cur: Option<Block>
    ghost var reported: Option<Fault>   // by the last Read

    ghost predicate Valid()
      reads this
    {
      |body| <= n && (cur.None? ==> n == 0)
    }

    ghost predicate Fresh()
      reads this
    {
      Valid() && n == 0 && err.None? && cur.None?
    }

    ghost function Left(): Contents
      reads this
    {
      Contents(blocks, end)
    }

    // b has just been reached: all of its payload is unread.
    ghost predicate Reached(b: Block)
      reads this
    {
      cur == Some(b) && n == b.declared && body == Payload(b) && err.None?
    }

    constructor (c: Contents)
      ensures Fresh() && Left() == c
    {
      blocks, end, body, n, err, cur, reported := c.blocks, c.end, [], 0, None, None, None;
    }

    // next: the rest of the current payload is skipped first; a failure sticks.
    method Next() returns (b: Option<Block>, fault: Option<Fault>)
      requires Valid()
      modifies this
      ensures Valid() && (b.None? <==> fault.Some?)
      ensures old(err).Some? ==> fault == old(err) && unchanged(this)
      ensures old(err).None? ==> fault == if old(|body| < n) then Some(Unexpected) else if old(blocks) == [] then Some(end) else None
      ensures fault.Some? ==> err == fault && blocks == old(blocks)
      ensures b.Some? ==>
        && old(|body| == n) && old(blocks) != [] && b.value == old(blocks[0]) && blocks == old(blocks[1..])
        && Reached(b.value)
    {
      if err.Some? {
        return None, err;
      }
      n := n - |body|;
      body := [];
      if n > 0 {
        err := Some(Unexpected);
        return None, err;
      }
      if blocks == [] {
        err := Some(end);
        return None, err;
      }
      b, fault := Some(blocks[0]), None;
      blocks := blocks[1..];
      n, body, cur := b.value.declared, Payload(b.value), b;
    }

    // The bounded payload, read as the underlying stream pleases.
    method Read(room: nat) returns (bytes: seq<byte>, fault: Option<Fault>)
      requires Valid()
      modifies `body, `n, `reported
      ensures Valid() && |bytes| <= room && old(body) == bytes + body && n == old(n) - |bytes|
      ensures fault == Some(End) ==> body == []
      ensures reported == fault && (bytes == [] && fault.None? ==> room == 0 || body != [])
      ensures old(n) == 0 ==> fault == Some(End)
    {
      reported := Some(End);
      if n == 0 {
        return [], Some(End);
      }
      var k: nat :| k <= room && k <= |body|;
      bytes := body[..k];
      assert body == body[..k] + body[k..];
      body, n := body[k..], n - k;
      fault := *;
      if fault == Some(End) && body != [] {
        fault := None;
      } else if bytes == [] && body == [] && fault.None? {
        fault := Some(End);
      }
      reported := fault;
    }

    predicate BodyShort()
      reads this
    {
      n > 0
    }
  }

  class Reader {
    ghost const channel: seq<Opening>   // every stream still to come when the Reader was made
    var vol: Volume?
    var queue: seq<Opening>
    const last: Fault              // what the channel ends with: no next volume, or the Reader closed
    var damaged: Option<Fault>
    var fatal: Option<Fault>
    var staged: Option<Block>

    ghost predicate Valid()
      reads this, vol
    {
      && (vol != null ==> vol.Valid())
      && |queue| <= |channel| && queue == channel[Received()..]
    }

    // How many streams have been received.
    ghost function Received(): int
      reads this
    {
      |channel| - |queue|
    }

    constructor (vol: Volume, queue: seq<Opening>, last: Fault)
      requires vol.Valid()
      ensures Valid() && this.vol == vol && this.queue == queue == channel && this.last == last
    {
      this.vol, this.queue, this.last, damaged, fatal, staged := vol, queue, last, None, None, None;
      channel := queue;
    }

    // latchArchive.
    method Latch(f: Fault)
      modifies `fatal
    {
      if f != End && f != NoNextVolume && f != ReaderClosed {
        fatal := Some(f);
      }
    }

    // openNextVolume: the current volume goes; streams cut inside their signature are passed over and
    // remembered as damage.
    method OpenNextVolume() returns (fault: Option<Fault>)
      requires Valid()
      modifies `vol, `queue, `damaged
      ensures Valid() && |queue| <= |old(queue)|
      ensures damaged == if CutShort(old(queue)) > 0 then Some(Unexpected) else old(damaged)
      ensures Opened(old(queue), CutShort(old(queue)), fault)
    {
      vol := null;
      ghost var was, cut := queue, CutShort(queue);
      while queue != []
        invariant vol == null && |queue| <= |was| && queue == was[|was| - |queue|..]
        invariant cut == |was| - |queue| + CutShort(queue)
        invariant damaged == if |queue| < |was| then Some(Unexpected) else old(damaged)
        decreases |queue|
      {
        var next := queue[0];
        assert next == was[|was| - |queue|];
        queue := queue[1..];
        match next {
          case Opens(c) =>
            vol := new Volume(c);
            return None;
          case CutSignature =>
            damaged := Some(Unexpected);
          case Unopened(f) =>
            return Some(f);
        }
      }
      fault := Some(last);
    }

    // Of the streams in was, k were passed over; the next one, if there is one, opened or did not.
    twostate predicate Opened(was: seq<Opening>, k: nat, new fault: Option<Fault>)
      reads this, vol
    {
      && k <= |was| && queue == (if k < |was| then was[k + 1..] else [])
      && match fault
         case None => k < |was| && vol != null && fresh(vol) && vol.Fresh() && was[k] == Opens(vol.Left())
         case Some(f) => vol == null && if k < |was| then was[k] == Unopened(f) else f == last
    }

    method OpenOrLatch(ghost first: Identity) returns (fault: Option<Fault>)
      requires Valid()
      modifies `vol, `queue, `damaged, `fatal
      ensures Valid() && |queue| <= |old(queue)|
      ensures fault.None? ==>
        && vol != null && fresh(vol) && vol.Fresh() && |queue| < |old(queue)|
        && Search(old(queue), last, first) == Scan(vol.Left(), queue, last, first)
      ensures fault.Some? ==> vol == null && Search(old(queue), last, first) == Stops(fault.value, None)
    {
      SearchSkips(queue, last, first);
      fault := OpenNextVolume();
      if fault.Some? {
        Latch(fault.value);
      }
    }

    // What is found from here on: the rest of a payload cut short leaves nothing more in its volume.
    ghost function Ahead(first: Identity): Found
      requires vol != null
      reads this, vol
    {
      if |vol.body| < vol.n then Search(queue, last, first) else Scan(vol.Left(), queue, last, first)
    }

    // The search has ended as r says. was is the block staged before.
    ghost predicate Settled(r: Found, h: Option<Header>, fault: Option<Fault>, was: Option<Block>)
      reads this, vol
    {
      match r
      case Continues(b, after, rest) =>
        && h.Some? && b.head == File(h.value) && fault.None? && queue == rest && staged == was
        && vol != null && vol.Reached(b) && vol.Left() == after
      case Stops(f, found) =>
        h.None? && fault == Some(f) && staged == if found.Some? then found else was
    }

    // nextVolumePayload: what the search finds, with the volume standing at its payload.
    method NextVolumePayload(first: Identity) returns (h: Option<Header>, fault: Option<Fault>)
      requires Valid()
      modifies this
      ensures Valid() && (vol != null ==> fresh(vol)) && |queue| <= |old(queue)|
      ensures Settled(Search(old(queue), last, first), h, fault, old(staged))
    {
      ghost var whole := Search(queue, last, first);
      h := None;
      fault := OpenOrLatch(first);
      while h.None? && fault.None?
        invariant Valid() && (vol != null ==> fresh(vol)) && |queue| <= |old(queue)|
        invariant if h.None? && fault.None? then vol != null && vol.err.None? && Ahead(first) == whole && staged == old(staged)
                  else Settled(whole, h, fault, old(staged))
        decreases h.None? && fault.None?, |queue|, if vol == null then 0 else |vol.blocks|
      {
        h, fault := ScanOne(first);
      }
    }

    // One trip of its loop, which ends the search or brings it further.
    method ScanOne(first: Identity) returns (h: Option<Header>, fault: Option<Fault>)
      requires Valid() && vol != null && vol.err.None?
      modifies this, vol
      ensures Valid() && (vol == old(vol) || vol == null || fresh(vol)) && |queue| <= |old(queue)|
      ensures if h.None? && fault.None? then
                && vol != null && vol.err.None? && Ahead(first) == old(Ahead(first)) && staged == old(staged)
                && (|queue| < |old(queue)| || |vol.blocks| < |old(vol.blocks)|)
              else Settled(old(Ahead(first)), h, fault, old(staged))
    {
      h := None;
      var b;
      b, fault := vol.Next();
      if fault.Some? {
        fault := Spent(fault.value, first);
        return;
      }
      h, fault := Consider(b.value, first);
      if h.None? && fault.None? && b.value.head.EndOfVolume? {
        vol := null;
        fault := OpenOrLatch(first);
      }
    }

    // A volume with no more headers: one that ended, or was cut, gives way to the next.
    method Spent(end: Fault, ghost first: Identity) returns (fault: Option<Fault>)
      requires Valid()
      modifies `vol, `queue, `damaged, `fatal
      ensures Valid() && |queue| <= |old(queue)|
      ensures fault.None? ==>
        && vol != null && fresh(vol) && vol.Fresh() && |queue| < |old(queue)| && (end == End || end == Unexpected)
        && Search(old(queue), last, first) == Scan(vol.Left(), queue, last, first)
      ensures fault.Some? ==>
        && (vol == old(vol) || vol == null)
        && Stops(fault.value, None) == if end == End || end == Unexpected then Search(old(queue), last, first) else Stops(end, None)
    {
      if end != End && end != Unexpected {
        Latch(end);
        return Some(end);
      }
      if end != End {
        damaged := Some(end);
      }
      fault := OpenOrLatch(first);
    }

    // The block just reached: taken, refused, or no reason to stop.
    method Consider(b: Block, first: Identity) returns (h: Option<Header>, fault: Option<Fault>)
      modifies `staged, `fatal
      ensures match Judge(b, first)
        case Takes => h == Some(b.head.h) && fault.None? && staged == old(staged)
        case Ends(f, found) => h.None? && fault == Some(f) && staged == if found.Some? then found else old(staged)
        case _ => h.None? && fault.None? && staged == old(staged)
    {
      h, fault := None, None;
      match b.head {
        case File(fh) =>
          h, fault := Continuation(b, fh, first);
        case BadFile(known, firstBlock) =>
          if known && firstBlock {
            staged := Some(b);
            return None, Some(End);
          }
          return None, Some(Corrupt);
        case Archive(f) =>
          if f.Some? {
            Latch(f.value);
            return None, f;
          }
        case EndOfVolume =>
        case OtherBlock =>
      }
    }

    method Continuation(b: Block, fh: Header, first: Identity) returns (h: Option<Header>, fault: Option<Fault>)
      modifies `staged
      ensures h.None? <==> fault.Some?
      ensures h.Some? ==> h == Some(fh) && !fh.firstBlock && fh.id == first && staged == old(staged)
      ensures fault.Some? ==>
        if fh.firstBlock then fault == Some(End) && staged == Some(b)
        else fault == Some(Corrupt) && fh.id != first && staged == old(staged)
    {
      if fh.firstBlock {
        staged := Some(b);
        return None, Some(End);
      }
      if fh.id.encrypted != first.encrypted {
        return None, Some(Corrupt);
      }
      if fh.id.name != first.name || fh.id.method_ != first.method_ || fh.id.version != first.version {
        return None, Some(Corrupt);
      }
      if fh.id.solid != first.solid {
        return None, Some(Corrupt);
      }
      if fh.id.dictSize != first.dictSize {
        return None, Some(Corrupt);
      }
      if fh.id.unpackedSize != first.unpackedSize {
        return None, Some(Corrupt);
      }
      return Some(fh), None;
    }
  }

  // A part of the member: its block, how many streams had been received when the search for it began,
  // and how many when it was found. For the first part both are how many there were then.
  datatype Part = Part(b: Block, from: nat, found: nat)

  function Flat(parts: seq<Part>): seq<byte> {
    if parts == [] then [] else Flat(parts[..|parts| - 1]) + Payload(parts[|parts| - 1].b)
  }

  // q is what a search begun no earlier than p was found comes upon, and p was all there and not the last.
  ghost predicate Succeeds(channel: seq<Opening>, last: Fault, first: Identity, p: Part, q: Part) {
    && p.b.head.File? && !p.b.head.h.lastBlock && Whole(p.b)
    && p.found <= q.from < q.found <= |channel|
    && var r := Search(channel[q.from..], last, first); r.Continues? && r.b == q.b && r.queue == channel[q.found..]
  }

  // Every part after the first is a continuation that agrees with it, in a volume behind the one before.
  ghost predicate Chained(channel: seq<Opening>, last: Fault, first: Identity, parts: seq<Part>) {
    && parts != [] && parts[0].b.head.File? && parts[0].b.head.h.id == first
    && forall i :: 0 < i < |parts| ==> Succeeds(channel, last, first, parts[i - 1], parts[i])
  }

  // No search was abandoned between two parts.
  ghost predicate Unbroken(parts: seq<Part>) {
    forall i :: 0 < i < |parts| ==> parts[i].from == parts[i - 1].found
  }

  // The whole member as the channel holds it: from each part the search for the next.
  function Member(p: Part, channel: seq<Opening>, last: Fault, first: Identity): seq<Part>
    requires p.b.head.File? && p.found <= |channel|
    decreases |channel| - p.found
  {
    [p] + if p.b.head.h.lastBlock || !Whole(p.b) then [] else
      match Search(channel[p.found..], last, first)
      case Continues(b, _, queue) => Member(Part(b, p.found, |channel| - |queue|), channel, last, first)
      case Stops(_, _) => []
  }

  lemma {:induction false} PartsOfMember(channel: seq<Opening>, last: Fault, first: Identity, parts: seq<Part>)
    requires Chained(channel, last, first, parts) && Unbroken(parts) && parts[0].found <= |channel|
    ensures var m := Member(parts[0], channel, last, first);
      parts <= m && (parts[|parts| - 1].b.head.File? && parts[|parts| - 1].b.head.h.lastBlock ==> parts == m)
    decreases |parts|
  {
    if |parts| > 1 {
      assert Succeeds(channel, last, first, parts[0], parts[1]);
      MemberOn(channel, last, first, parts[0], parts[1]);
      RestChained(channel, last, first, parts);
      PartsOfMember(channel, last, first, parts[1..]);
      assert parts == [parts[0]] + parts[1..];
    }
  }

  lemma {:induction false} MemberOn(channel: seq<Opening>, last: Fault, first: Identity, p: Part, q: Part)
    requires Succeeds(channel, last, first, p, q) && q.from == p.found
    ensures Agrees(q.b, first) && Member(p, channel, last, first) == [p] + Member(q, channel, last, first)
  {
    var r := Search(channel[p.found..], last, first);
    assert Part(r.b, p.found, |channel| - |r.queue|) == q;
  }

  lemma {:induction false} RestChained(channel: seq<Opening>, last: Fault, first: Identity, parts: seq<Part>)
    requires |parts| > 1 && Chained(channel, last, first, parts) && Unbroken(parts) && Agrees(parts[1].b, first)
    ensures Chained(channel, last, first, parts[1..]) && Unbroken(parts[1..])
  {
    var rest := parts[1..];
    forall i | 0 < i < |rest| ensures Succeeds(channel, last, first, rest[i - 1], rest[i]) && rest[i].from == rest[i - 1].found {
      assert Succeeds(channel, last, first, parts[i], parts[i + 1]);
    }
  }

  lemma {:induction false} FlatPrefix(a: seq<Part>, b: seq<Part>)
    requires a <= b
    ensures Flat(a) <= Flat(b)
    decreases |b|
  {
    if |a| == |b| {
      assert a == b;
    } else {
      var front := b[..|b| - 1];
      assert a == front[..|a|];
      FlatPrefix(a, front);
      assert Flat(front) == Flat(b)[..|Flat(front)|];
    }
  }

  // One more part behind the last.
  lemma {:induction false} ChainedOn(channel: seq<Opening>, last: Fault, first: Identity, parts: seq<Part>, q: Part)
    requires Chained(channel, last, first, parts) && Succeeds(channel, last, first, parts[|parts| - 1], q)
    ensures Chained(channel, last, first, parts + [q])
    ensures Unbroken(parts) && q.from == parts[|parts| - 1].found ==> Unbroken(parts + [q])
    ensures Flat(parts + [q]) == Flat(parts) + Payload(q.b)
  {
    var more := parts + [q];
    assert more[..|parts|] == parts;
    forall i | 0 < i < |more| ensures Succeeds(channel, last, first, more[i - 1], more[i]) {
      if i < |parts| {
        assert Succeeds(channel, last, first, parts[i - 1], parts[i]);
      }
    }
  }

  class Splicer {
    const r: Reader
    const first: Identity
    var cur: Header
    var src: Volume
    ghost var parts: seq<Part>
    ghost var delivered: seq<byte>

    ghost function Last(): Part
      requires parts != []
      reads this
    {
      parts[|parts| - 1]
    }

    // What has come out: every part but the last in full, and the last one as far as it has been read.
    ghost predicate Valid()
      reads this, r, r.vol, src
    {
      && r.Valid() && src.Valid()
      && Chained(r.channel, r.last, first, parts) && Last().found <= r.Received()
      && Last().b.head == File(cur) && src.cur == Some(Last().b)
      && delivered + src.body == Flat(parts) && |src.body| <= |Payload(Last().b)|
      && (src.n == |src.body| <==> Whole(Last().b))
      && (r.vol != src ==> src.n == 0)
    }

    // Nothing has been searched for since the last part was found, nor in vain before.
    ghost predicate Calm()
      requires parts != []
      reads this, r
    {
      Unbroken(parts) && Last().found == r.Received()
    }

    // The splice of a member whose first block has just been reached in r's volume.
    constructor (r: Reader, h: Header, ghost b: Block)
      requires r.Valid() && r.vol != null && r.vol.Reached(b) && b.head == File(h)
      ensures Valid() && Calm() && this.r == r && delivered == [] && first == h.id
      ensures parts == [Part(b, r.Received(), r.Received())]
    {
      this.r, first, cur, src := r, h.id, h, r.vol;
      parts := [Part(b, r.Received(), r.Received())];
      delivered := [];
      new;
      assert parts[..0] == [];
    }

    // Why a read ended in fault: the part's own payload failed, or its end was reached with left still to
    // come, and it was the member's, or its volume is cut inside it, or that is what the search stopped with.
    ghost predicate Ended(bytes: seq<byte>, fault: Fault, left: seq<Opening>)
      reads this, r, r.vol, src
    {
      || (src.reported == Some(fault) && fault != End)
      || (bytes == [] && src.body == [] &&
            if cur.lastBlock then fault == End
            else (r.vol != null && r.vol.n > 0 && fault == Unexpected) || Stuck(left, fault))
    }

    ghost predicate Stuck(left: seq<Opening>, fault: Fault)
      reads this, r
    {
      |r.queue| <= |left| <= |r.channel| && left == r.channel[|r.channel| - |left|..] && exists b :: Search(left, r.last, first) == Stops(fault, b)
    }

    // Read: at the end of a part that is not the last, and is all there, the next one is looked for.
    method Read(room: nat) returns (bytes: seq<byte>, fault: Option<Fault>, ghost left: seq<Opening>)
      requires Valid()
      modifies this, r, src, if r.vol != null then {r.vol} else {}
      ensures Valid() && |bytes| <= room && delivered == old(delivered) + bytes && old(parts) <= parts
      ensures old(Calm()) ==> Unbroken(parts) && (fault.None? ==> Calm())
      ensures src == old(src) || fresh(src)
      ensures r.vol == old(r.vol) || r.vol == null || fresh(r.vol)
      ensures fault == Some(End) ==> bytes == [] && src.body == [] && (cur.lastBlock || src.n == 0)
      ensures fault.Some? ==> Ended(bytes, fault.value, left)
      ensures fault.None? && bytes == [] ==> room == 0 || src.body != []
    {
      bytes, left := [], r.queue;
      assert delivered + [] == delivered;
      if room == 0 {
        return [], None, left;
      }
      while true
        invariant Valid() && delivered == old(delivered) && old(parts) <= parts && bytes == []
        invariant old(Calm()) ==> Calm()
        invariant src == old(src) || fresh(src)
        invariant r.vol == old(r.vol) || r.vol == null || fresh(r.vol)
        decreases |r.queue|
      {
        var more;
        bytes, fault, left, more := Try(room);
        if !more {
          return;
        }
      }
    }

    // One trip of its loop: what the part still gives, or the next part.
    method Try(room: nat) returns (bytes: seq<byte>, fault: Option<Fault>, ghost left: seq<Opening>, more: bool)
      requires Valid() && room > 0
      modifies this, r, src, if r.vol != null then {r.vol} else {}
      ensures Valid() && |bytes| <= room && delivered == old(delivered) + bytes && old(parts) <= parts
      ensures old(Calm()) ==> Unbroken(parts) && (fault.None? ==> Calm())
      ensures src == old(src) || fresh(src)
      ensures r.vol == old(r.vol) || r.vol == null || fresh(r.vol)
      ensures fault == Some(End) ==> bytes == [] && src.body == [] && (cur.lastBlock || src.n == 0)
      ensures fault.Some? ==> !more && Ended(bytes, fault.value, left)
      ensures fault.None? && bytes == [] && !more ==> src.body != []
      ensures more ==> bytes == [] && fault.None? && |r.queue| < |old(r.queue)|
    {
      left, more := r.queue, false;
      bytes, fault := Pull(room);
      if fault == Some(End) {
        if bytes != [] {
          return bytes, None, left, false;
        }
        fault, left := Turn();
        more := fault.None?;
      }
    }

    // The end of a part, and why it ends the read if it does.
    method Turn() returns (fault: Option<Fault>, ghost left: seq<Opening>)
      requires Valid() && src.body == []
      modifies this`cur, this`src, this`parts, r
      ensures Valid() && delivered == old(delivered) && old(parts) <= parts
      ensures r.vol == old(r.vol) || r.vol == null || fresh(r.vol)
      ensures fault.Some? ==> src == old(src) && (old(Calm()) ==> Unbroken(parts)) && Ended([], fault.value, left)
      ensures fault == Some(End) ==> src.body == [] && (cur.lastBlock || src.n == 0)
      ensures fault.None? ==> src == r.vol && fresh(src) && |r.queue| < |old(r.queue)| && (old(Calm()) ==> Calm())
    {
      left := r.queue;
      fault := Boundary();
    }

    // Searching queue came to this: the next part, or the fault the search stopped with.
    ghost predicate Went(queue: seq<Opening>, was: seq<Part>, fault: Option<Fault>)
      reads this, r
    {
      |queue| <= |r.channel| &&
      match Search(queue, r.last, first)
      case Continues(b, _, rest) => fault.None? && parts == was + [Part(b, |r.channel| - |queue|, |r.channel| - |rest|)]
      case Stops(f, _) => fault == Some(f) && parts == was
    }

    // The end of a part came to this. short says that the volume at hand is cut inside its payload.
    ghost predicate Turned(queue: seq<Opening>, was: seq<Part>, h: Header, short: bool, fault: Option<Fault>)
      reads this, r
    {
      if h.lastBlock then fault == Some(End) && parts == was
      else if short then fault == Some(Unexpected) && parts == was
      else Went(queue, was, fault)
    }

    // The end of a part: of the member, of a volume cut inside its payload, or of one with more to come.
    method Boundary() returns (fault: Option<Fault>)
      requires Valid() && src.body == []
      modifies this`cur, this`src, this`parts, r
      ensures Valid() && delivered == old(delivered)
      ensures r.vol == old(r.vol) || r.vol == null || fresh(r.vol)
      ensures fault.Some? ==> parts == old(parts) && src == old(src) && cur == old(cur)
      ensures fault == Some(End) ==> cur.lastBlock || src.n == 0
      ensures Turned(old(r.queue), old(parts), old(cur), old(r.vol != null && r.vol.n > 0), fault) && |r.queue| <= |old(r.queue)|
      ensures fault == Some(Unexpected) && old(r.vol != null && r.vol.n > 0) ==> r.vol == old(r.vol) && r.vol.n > 0
      ensures fault.None? ==>
        && src == r.vol && fresh(src) && old(parts) < parts && |r.queue| < |old(r.queue)|
        && (old(Calm()) ==> Calm())
    {
      if cur.lastBlock {
        return Some(End);
      }
      if r.vol != null && r.vol.BodyShort() {
        return Some(Unexpected);
      }
      fault := Advance();
    }

    // The source is read.
    method Pull(room: nat) returns (bytes: seq<byte>, fault: Option<Fault>)
      requires Valid()
      modifies this`delivered, src`body, src`n, src`reported
      ensures Valid() && |bytes| <= room && delivered == old(delivered) + bytes
      ensures old(src.body) == bytes + src.body && src.n == old(src.n) - |bytes|
      ensures fault == Some(End) ==> src.body == []
      ensures src.reported == fault && (bytes == [] && fault.None? ==> room == 0 || src.body != [])
    {
      bytes, fault := src.Read(room);
      assert delivered + (bytes + src.body) == (delivered + bytes) + src.body;
      delivered := delivered + bytes;
    }

    // The part that has been read out is followed by the next, if there is one.
    method Advance() returns (fault: Option<Fault>)
      requires Valid() && src.n == 0 && !cur.lastBlock
      modifies this`cur, this`src, this`parts, r
      ensures Valid() && delivered == old(delivered)
      ensures r.vol == null || fresh(r.vol)
      ensures fault.Some? ==> parts == old(parts) && src == old(src) && cur == old(cur)
      ensures fault.None? ==>
        && src == r.vol && old(parts) < parts && |r.queue| < |old(r.queue)|
        && (old(Calm()) ==> Calm())
      ensures Went(old(r.queue), old(parts), fault) && |r.queue| <= |old(r.queue)|
    {
      ghost var from := r.Received();
      assert delivered + [] == delivered;
      var h;
      h, fault := r.NextVolumePayload(first);
      if fault.None? {
        Follow(h.value, from);
      }
    }

    // The part whose block r's volume stands at, found by a search begun when from streams had been received.
    method Follow(h: Header, ghost from: nat)
      requires r.Valid() && Chained(r.channel, r.last, first, parts) && delivered == Flat(parts)
      requires Last().b.head.File? && !Last().b.head.h.lastBlock && Whole(Last().b) && Last().found <= from < r.Received()
      requires var f := Search(r.channel[from..], r.last, first);
        f.Continues? && f.b.head == File(h) && f.queue == r.queue && r.vol != null && r.vol.Reached(f.b)
      modifies this`cur, this`src, this`parts
      ensures Valid() && src == r.vol
      ensures parts == old(parts) + [Part(Search(r.channel[from..], r.last, first).b, from, r.Received())]
      ensures Unbroken(old(parts)) && old(Last()).found == from ==> Calm()
    {
      cur := h;
      src := r.vol;
      ghost var q := Part(src.cur.value, from, r.Received());
      ChainedOn(r.channel, r.last, first, parts, q);
      parts := parts + [q];
      assert delivered + Payload(q.b) == Flat(parts);
    }
  }

  // No read has failed.
  ghost predicate Quiet(faults: seq<Option<Fault>>) {
    forall i :: 0 <= i < |faults| ==> faults[i].None?
  }

  ghost predicate QuietBefore(faults: seq<Option<Fault>>) {
    faults == [] || Quiet(faults[..|faults| - 1])
  }

  lemma {:induction false} QuietOn(faults: seq<Option<Fault>>, f: Option<Fault>)
    ensures Quiet(faults + [f]) <==> Quiet(faults) && f.None?
    ensures QuietBefore(faults + [f]) <==> Quiet(faults)
    ensures Quiet(faults) ==> QuietBefore(faults)
  {
    assert (faults + [f])[..|faults|] == faults;
    assert (faults + [f])[|faults|] == f;
    assert forall i :: 0 <= i < |faults| ==> (faults + [f])[i] == faults[i];
  }

  // Any sequence of reads of a splice just made, whatever they report. What has come out is a prefix of
  // the parts' payloads put together; the first part is the first block's payload, each later one is
  // that of a continuation in a later volume that agrees with the first block, and none is begun before
  // the one before it has been delivered whole. As long as no read has failed, the parts are those the
  // channel holds; and a clean end under a last block delivered them all.
  method ReadAll(s: Splicer, rooms: seq<nat>) returns (out: seq<byte>, faults: seq<Option<Fault>>)
    requires s.Valid() && s.Calm() && s.delivered == [] && |s.parts| == 1
    modifies s, s.r, s.src, if s.r.vol != null then {s.r.vol} else {}
    ensures s.Valid() && |faults| == |rooms| && s.parts[0] == old(s.parts[0])
    ensures out <= Flat(s.parts) && Flat(s.parts[..|s.parts| - 1]) <= out
    ensures s.parts[0].b.head.File? && s.parts[0].found <= |s.r.channel|
    ensures var m := Member(s.parts[0], s.r.channel, s.r.last, s.first);
      QuietBefore(faults) ==>
        && s.parts <= m && out <= Flat(m)
        && (faults != [] && faults[|faults| - 1] == Some(End) && s.cur.lastBlock ==> out == Flat(m))
  {
    out, faults := [], [];
    for i := 0 to |rooms|
      invariant s.Valid() && SoFar(s, out, faults) && |faults| == i && old(s.parts) <= s.parts
      invariant s.src == old(s.src) || fresh(s.src)
      invariant s.r.vol == old(s.r.vol) || s.r.vol == null || fresh(s.r.vol)
    {
      out, faults := ReadNext(s, rooms[i], out, faults);
    }
    LastPart(s);
    assert s.parts[0] == old(s.parts[0]);
    AllSoFar(s, out, faults);
  }

  // What has come out, and what it says of the splice.
  ghost predicate SoFar(s: Splicer, out: seq<byte>, faults: seq<Option<Fault>>)
    requires s.Valid()
    reads s, s.r, s.r.vol, s.src
  {
    s.delivered == out && forall now :: Looked(now) ==>
      && (Quiet(faults) ==> s.Calm()) && (QuietBefore(faults) ==> Unbroken(s.parts))
      && (faults != [] && faults[|faults| - 1] == Some(End) ==> s.src.body == [])
  }

  method ReadNext(s: Splicer, room: nat, out0: seq<byte>, faults0: seq<Option<Fault>>)
    returns (out: seq<byte>, faults: seq<Option<Fault>>)
    requires s.Valid() && SoFar(s, out0, faults0)
    modifies s, s.r, s.src, if s.r.vol != null then {s.r.vol} else {}
    ensures s.Valid() && SoFar(s, out, faults) && |faults| == |faults0| + 1 && old(s.parts) <= s.parts
    ensures s.src == old(s.src) || fresh(s.src)
    ensures s.r.vol == old(s.r.vol) || s.r.vol == null || fresh(s.r.vol)
  {
    assert Looked(Now);
    var bytes, fault, _ := s.Read(room);
    QuietOn(faults0, fault);
    out, faults := out0 + bytes, faults0 + [fault];
  }

  lemma {:induction false} AllSoFar(s: Splicer, out: seq<byte>, faults: seq<Option<Fault>>)
    requires s.Valid() && SoFar(s, out, faults) && s.parts[0].b.head.File? && s.parts[0].found <= |s.r.channel|
    ensures var m := Member(s.parts[0], s.r.channel, s.r.last, s.first);
      QuietBefore(faults) ==>
        && s.parts <= m && out <= Flat(m)
        && (faults != [] && faults[|faults| - 1] == Some(End) && s.cur.lastBlock ==> out == Flat(m))
  {
    assert Looked(Now);
    if QuietBefore(faults) {
      AllParts(s);
    }
  }

  lemma {:induction false} LastPart(s: Splicer)
    requires s.Valid()
    ensures s.delivered <= Flat(s.parts) && Flat(s.parts[..|s.parts| - 1]) <= s.delivered
    ensures s.src.body == [] ==> s.delivered == Flat(s.parts)
  {
    var front, last := Flat(s.parts[..|s.parts| - 1]), Payload(s.Last().b);
    assert Flat(s.parts) == front + last;
    assert |s.src.body| <= |last|;
    assert s.delivered == Flat(s.parts)[..|s.delivered|];
    assert front == s.delivered[..|front|];
  }

  lemma {:induction false} AllParts(s: Splicer)
    requires s.Valid() && Unbroken(s.parts)
    ensures s.parts[0].b.head.File? && s.parts[0].found <= |s.r.channel|
    ensures var m := Member(s.parts[0], s.r.channel, s.r.last, s.first);
      s.parts <= m && s.delivered <= Flat(m) && (s.src.body == [] && s.cur.lastBlock ==> s.delivered == Flat(m))
  {
    if |s.parts| > 1 {
      assert Succeeds(s.r.channel, s.r.last, s.first, s.parts[0], s.parts[1]);
    }
    PartsOfMember(s.r.channel, s.r.last, s.first, s.parts);
    FlatPrefix(s.parts, Member(s.parts[0], s.r.channel, s.r.last, s.first));
    LastPart(s);
  }
}
