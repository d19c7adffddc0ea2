// The pipeline's fields as one value, the invariant that ties them to the place the serial decoder
// stands at, and what each step of the pipeline does to it.

module PipeState {
  import opened Basics
  import opened DecodeTypes
  import opened Serial
  import opened Items
  import opened Ring

  datatype View = View(
    // Ghost: where the serial decoder stands, whether that is inside slots[head], how many items
    // slots[head]'s worker could still store there, and the source and tables after the last
    // block read ahead.
    at: Place,
    started: bool,
    room: int,
    endSrc: seq<byte>,
    endTs: Tables,
    // decoder50's own reader state.
    src: seq<byte>,
    br: Option<Cursor>,
    tables: Tables,
    lastBlock: bool,
    // blockPipeline.
    slots: seq<Job>,
    head: nat,
    count: nat,
    idx: nat,
    inline: bool,
    sets: seq<Tables>,
    inUse: seq<nat>,
    cur: nat,
    pendingErr: Option<Error>,
    sawLast: bool,
    oversizePending: bool
  )

  // What a completed job holds, whenever and on whichever worker it was decoded.
  function Expected(e: Engine, sets: seq<Tables>, itemCap: nat, j: Job): Outcome
    requires Lawful(e) && j.tablesIdx < |sets|
  {
    if j.oversize then Outcome([], j.start, None, true)
    else DecodeItems(e, sets[j.tablesIdx], j.start, itemCap)
  }

  function Rest(o: Outcome, idx: nat): Outcome
    requires idx <= |o.items|
  {
    o.(items := o.items[idx..])
  }

  ghost predicate Shape(v: View) {
    && v.head < |v.slots| && v.count <= |v.slots|
    && |v.sets| == |v.inUse| == |v.slots| + 1 && v.cur < |v.sets|
  }

  ghost function Jobs(v: View): (jobs: seq<Job>)
    requires Shape(v)
    ensures |jobs| == v.count
  {
    InFlight(v.slots, v.head, v.count)
  }

  // inUse counts references, every finished job holds what its tables determine, and only the
  // newest job can be the one whose payload is the serial buffer.
  ghost predicate Accounted(e: Engine, cap: nat, v: View) {
    && Lawful(e) && Shape(v)
    && (forall i :: 0 <= i < |v.inUse| ==> v.inUse[i] == Uses(Jobs(v), i))
    && (forall k :: 0 <= k < v.count ==> JobOk(e, cap, v.sets, Jobs(v)[k]))
    && (forall k :: 0 <= k < v.count - 1 ==> !Jobs(v)[k].oversize)
    && (v.oversizePending <==> v.count > 0 && Jobs(v)[v.count - 1].oversize)
  }

  ghost predicate JobOk(e: Engine, cap: nat, sets: seq<Tables>, j: Job)
    requires Lawful(e)
  {
    && j.tablesIdx < |sets|
    && (j.oversize ==> j.done)
    && (j.done ==> j.out == Expected(e, sets, cap, j))
  }

  // The serial decoder is inside the oldest block in flight.
  ghost predicate HeadStarted(e: Engine, v: View)
    requires Lawful(e) && Shape(v)
  {
    && v.count > 0
    && var j := Jobs(v)[0];
    && j.tablesIdx < |v.sets| && j.done
    && v.at.br.Some? && v.at.tables == v.sets[j.tablesIdx] && v.at.lastBlock == j.lastBlock
    && (j.lastBlock ==> v.count == 1)
    && Chain(e, v.at.src, v.at.tables, Jobs(v)[1..], v.sets, v.endSrc, v.endTs)
    && if !v.inline then
         v.br.None? && v.idx <= |j.out.items| && Rest(j.out, v.idx) == DecodeItems(e, v.at.tables, v.at.br.value, v.room)
       else if v.br.None? then v.at.br == Some(j.out.resume)
       else v.br == v.at.br && v.tables == v.at.tables && v.lastBlock == v.at.lastBlock
  }

  // The serial decoder has yet to reach the oldest block in flight, or has finished the last one.
  ghost predicate HeadWaiting(e: Engine, v: View)
    requires Shape(v)
  {
    && v.idx == 0 && !v.inline && v.br.None?
    && if v.count == 0 && v.sawLast then AtEnd(e, v.at) && v.at.lastBlock
       else Settled(e, v.at).br.None? && Chain(e, v.at.src, v.at.tables, Jobs(v), v.sets, v.endSrc, v.endTs)
  }

  ghost predicate EndKnown(e: Engine, v: View)
    requires Lawful(e) && Shape(v)
  {
    && (v.count > 0 ==> v.sawLast == Jobs(v)[v.count - 1].lastBlock)
    && (v.pendingErr.None? ==> v.endSrc == v.src && v.endTs == v.sets[v.cur])
    && (v.pendingErr.Some? ==>
          var b := ReadBlock(e, v.endSrc);
          !v.sawLast && !b.Block? && b.err == v.pendingErr.value)
  }

  // All of it, out of sight but for Looked.
  ghost predicate PipeOk(e: Engine, cap: nat, v: View) {
    && e.sealed && Lawful(e) && Shape(v) && (v.started ==> v.count > 0 && v.at.br.Some?)
    && forall now :: Looked(now) ==> InStep(e, cap, v)
  }

  ghost predicate InStep(e: Engine, cap: nat, v: View) {
    && Accounted(e, cap, v) && EndKnown(e, v)
    && if v.started then HeadStarted(e, v) else HeadWaiting(e, v)
  }

  // The ring, the sets and what was read ahead are the same: then what is said of them holds still.
  lemma {:induction false} SameRing(e: Engine, cap: nat, v: View, v': View)
    requires Accounted(e, cap, v) && EndKnown(e, v)
    requires v' == v.(at := v'.at, room := v'.room, br := v'.br, tables := v'.tables, lastBlock := v'.lastBlock, idx := v'.idx, inline := v'.inline)
    ensures Jobs(v') == Jobs(v) && Accounted(e, cap, v') && EndKnown(e, v')
  {
    assert Jobs(v') == Jobs(v);
  }

  // engage: an empty ring, seeded from the serial tables.
  lemma {:induction false} Engaged(e: Engine, cap: nat, v: View)
    requires Lawful(e) && e.sealed && Shape(v)
    requires v.count == 0 && v.idx == 0 && !v.inline && !v.started && v.br.None?
    requires v.pendingErr.None? && !v.sawLast && !v.oversizePending
    requires forall i :: 0 <= i < |v.inUse| ==> v.inUse[i] == 0
    requires v.at == Place(None, v.sets[v.cur], v.lastBlock, v.src) && v.endSrc == v.src && v.endTs == v.sets[v.cur]
    ensures PipeOk(e, cap, v)
  {
    assert Jobs(v) == [];
  }

  // A worker completes job k.
  ghost function Completed(e: Engine, cap: nat, v: View, k: nat): (v': View)
    requires Lawful(e) && Shape(v) && k < v.count && Jobs(v)[k].tablesIdx < |v.sets|
    ensures Shape(v') && Jobs(v') == Jobs(v)[k := Jobs(v)[k].(done := true, out := Expected(e, v.sets, cap, Jobs(v)[k]))]
  {
    var j := Jobs(v)[k];
    var j' := j.(done := true, out := Expected(e, v.sets, cap, j));
    Replaced(v.slots, v.head, v.count, k, j');
    v.(slots := v.slots[At(v.head, k, |v.slots|) := j'])
  }

  lemma {:induction false} CompletedAccounted(e: Engine, cap: nat, v: View, k: nat)
    requires Accounted(e, cap, v) && k < v.count && JobOk(e, cap, v.sets, Jobs(v)[k])
    ensures Accounted(e, cap, Completed(e, cap, v, k))
  {
    var v' := Completed(e, cap, v, k);
    forall i ensures Uses(Jobs(v), i) == Uses(Jobs(v'), i) {
      UsesSame(Jobs(v), Jobs(v'), i);
    }
    forall i | 0 <= i < v.count ensures JobOk(e, cap, v.sets, Jobs(v')[i]) {
      assert JobOk(e, cap, v.sets, Jobs(v)[i]);
    }
  }

  lemma {:induction false} JobDone(e: Engine, cap: nat, v: View, k: nat)
    requires PipeOk(e, cap, v) && k < v.count && !Jobs(v)[k].done
    ensures Jobs(v)[k].tablesIdx < |v.sets| && !Jobs(v)[k].oversize
    ensures PipeOk(e, cap, Completed(e, cap, v, k))
  {
    assert Looked(Now);
    assert JobOk(e, cap, v.sets, Jobs(v)[k]);
    CompletedAccounted(e, cap, v, k);
    DoneInFront(e, cap, v, k);
    if v.started {
      DoneUnderHead(e, cap, v, k);
    } else {
      DoneAhead(e, cap, v, k);
    }
  }

  lemma {:induction false} DoneInFront(e: Engine, cap: nat, v: View, k: nat)
    requires Lawful(e) && Shape(v) && EndKnown(e, v) && k < v.count && Jobs(v)[k].tablesIdx < |v.sets|
    ensures EndKnown(e, Completed(e, cap, v, k))
  {
  }

  lemma {:induction false} DoneUnderHead(e: Engine, cap: nat, v: View, k: nat)
    requires Lawful(e) && Shape(v) && HeadStarted(e, v) && k < v.count && !Jobs(v)[k].done && Jobs(v)[k].tablesIdx < |v.sets|
    ensures HeadStarted(e, Completed(e, cap, v, k))
  {
    var v' := Completed(e, cap, v, k);
    assert Jobs(v')[0] == Jobs(v)[0];
    ChainSame(e, v.at.src, v.at.tables, Jobs(v)[1..], v.sets, Jobs(v')[1..], v.sets, v.endSrc, v.endTs);
  }

  lemma {:induction false} DoneAhead(e: Engine, cap: nat, v: View, k: nat)
    requires Lawful(e) && Shape(v) && HeadWaiting(e, v) && k < v.count && Jobs(v)[k].tablesIdx < |v.sets|
    ensures HeadWaiting(e, Completed(e, cap, v, k))
  {
    var v' := Completed(e, cap, v, k);
    if !(v.count == 0 && v.sawLast) {
      ChainSame(e, v.at.src, v.at.tables, Jobs(v), v.sets, Jobs(v'), v.sets, v.endSrc, v.endTs);
    }
  }

  // pop, once the serial decoder has left the block or stands at the end of the last one.
  ghost function Leaving(v: View): (v': View)
    requires Shape(v) && v.count > 0 && Jobs(v)[0].tablesIdx < |v.inUse| && v.inUse[Jobs(v)[0].tablesIdx] > 0
    ensures Shape(v') && Jobs(v') == Jobs(v)[1..]
  {
    Popped(v.slots, v.head, v.count);
    var j := Jobs(v)[0];
    v.(head := At(v.head, 1, |v.slots|), count := v.count - 1, idx := 0, inline := false, br := None,
       inUse := v.inUse[j.tablesIdx := v.inUse[j.tablesIdx] - 1],
       oversizePending := v.oversizePending && !j.oversize,
       started := false)
  }

  lemma {:induction false} HeadLeft(e: Engine, cap: nat, v: View)
    requires PipeOk(e, cap, v) && v.started && AtEnd(e, v.at)
    requires Jobs(v)[0].tablesIdx < |v.inUse| && v.inUse[Jobs(v)[0].tablesIdx] > 0
    ensures PipeOk(e, cap, Leaving(v))
    ensures v.at.lastBlock == Jobs(v)[0].lastBlock && (v.at.lastBlock ==> Leaving(v).count == 0 && v.sawLast)
  {
    assert Looked(Now);
    LeftAccounted(e, cap, v);
    LeftKnown(e, v);
  }

  lemma {:induction false} LeftKnown(e: Engine, v: View)
    requires Lawful(e) && Shape(v) && EndKnown(e, v) && HeadStarted(e, v) && AtEnd(e, v.at)
    requires Jobs(v)[0].tablesIdx < |v.inUse| && v.inUse[Jobs(v)[0].tablesIdx] > 0
    ensures EndKnown(e, Leaving(v)) && HeadWaiting(e, Leaving(v))
  {
    var v' := Leaving(v);
    assert v'.count > 0 ==> Jobs(v')[v'.count - 1] == Jobs(v)[v.count - 1];
    assert v'.at == v.at && v'.endSrc == v.endSrc && v'.endTs == v.endTs && v'.sets == v.sets;
  }

  // A block taken over is read where the serial decoder reads it.
  lemma {:induction false} InlineHeld(e: Engine, cap: nat, v: View)
    requires PipeOk(e, cap, v) && v.started && v.inline && v.br.Some?
    ensures v.br == v.at.br && v.tables == v.at.tables && v.lastBlock == v.at.lastBlock
  {
    assert Looked(Now);
  }

  lemma {:induction false} LeftAccounted(e: Engine, cap: nat, v: View)
    requires Accounted(e, cap, v) && v.count > 0 && Jobs(v)[0].tablesIdx < |v.inUse| && v.inUse[Jobs(v)[0].tablesIdx] > 0
    ensures Accounted(e, cap, Leaving(v))
  {
    var jobs, v' := Jobs(v), Leaving(v);
    forall i ensures Uses(jobs, i) == (if jobs[0].tablesIdx == i then 1 else 0) + Uses(jobs[1..], i) {
    }
    forall k | 0 <= k < v'.count ensures Jobs(v')[k] == jobs[k + 1] {
    }
  }

  lemma {:induction false} HeadCounted(e: Engine, cap: nat, v: View)
    requires PipeOk(e, cap, v) && v.count > 0
    ensures var j := Jobs(v)[0]; j.tablesIdx < |v.inUse| && v.inUse[j.tablesIdx] > 0
  {
    assert Looked(Now);
    UsedIsCounted(Jobs(v), 0);
    assert JobOk(e, cap, v.sets, Jobs(v)[0]);
  }

  // The serial decoder's readBlockHeader reaches the oldest block in flight.
  lemma {:induction false} HeadEntered(e: Engine, cap: nat, v: View)
    requires PipeOk(e, cap, v) && !v.started && v.count > 0 && Jobs(v)[0].done
    ensures Enter(Settled(e, v.at), ReadBlock(e, v.at.src)).err.None? && Settled(e, v.at).br.None?
    ensures PipeOk(e, cap, Entering(e, cap, v))
  {
    assert Looked(Now);
    assert JobOk(e, cap, v.sets, Jobs(v)[0]);
    var v' := Entering(e, cap, v);
    assert Jobs(v') == Jobs(v);
    assert Rest(Jobs(v)[0].out, 0) == Jobs(v)[0].out;
  }

  ghost function Entering(e: Engine, cap: nat, v: View): View
    requires Shape(v) && v.count > 0
  {
    v.(started := true, at := Enter(Settled(e, v.at), ReadBlock(e, v.at.src)).at, room := if Jobs(v)[0].oversize then 0 else cap)
  }

  // A set no job in flight references. freeTableSet never panics.
  lemma {:induction false} FreeSet(e: Engine, cap: nat, v: View) returns (free: nat)
    requires PipeOk(e, cap, v)
    ensures free < |v.inUse| && v.inUse[free] == 0
  {
    assert Looked(Now);
    free := FreeSetExists(Jobs(v), |v.inUse|);
  }

  // Loading a set no job references disturbs nothing in flight.
  lemma {:induction false} SetLoaded(e: Engine, cap: nat, v: View, i: nat, ts: Tables)
    requires PipeOk(e, cap, v) && !v.started && i < |v.sets| && v.inUse[i] == 0
    ensures Accounted(e, cap, v.(sets := v.sets[i := ts]))
    ensures !(v.count == 0 && v.sawLast) ==>
      Chain(e, v.at.src, v.at.tables, Jobs(v), v.sets[i := ts], v.endSrc, v.endTs)
  {
    assert Looked(Now);
    SetAccounted(e, cap, v, i, ts);
    if !(v.count == 0 && v.sawLast) {
      ChainSame(e, v.at.src, v.at.tables, Jobs(v), v.sets, Jobs(v), v.sets[i := ts], v.endSrc, v.endTs);
    }
  }

  lemma {:induction false} SetAccounted(e: Engine, cap: nat, v: View, i: nat, ts: Tables)
    requires Accounted(e, cap, v) && i < |v.sets| && v.inUse[i] == 0
    ensures Accounted(e, cap, v.(sets := v.sets[i := ts]))
    ensures forall k :: 0 <= k < v.count ==> Jobs(v)[k].tablesIdx < |v.sets| && Jobs(v)[k].tablesIdx != i
  {
    var v' := v.(sets := v.sets[i := ts]);
    assert Jobs(v') == Jobs(v);
    forall k | 0 <= k < v.count ensures Jobs(v)[k].tablesIdx != i && JobOk(e, cap, v'.sets, Jobs(v)[k]) {
      assert JobOk(e, cap, v.sets, Jobs(v)[k]);
      UsedIsCounted(Jobs(v), k);
    }
  }

  // readAhead met an error: it is kept for when the ring drains.
  lemma {:induction false} ReadFailed(e: Engine, cap: nat, v: View, b: BlockRead, src: seq<byte>)
    requires PipeOk(e, cap, v) && !v.started && v.pendingErr.None? && !v.sawLast
    requires b == ReadBlock(e, v.src) && !b.Block?
    ensures PipeOk(e, cap, v.(pendingErr := Some(b.err), src := src))
  {
    assert Jobs(v.(pendingErr := Some(b.err), src := src)) == Jobs(v);
  }

  // Likewise when the tables failed to load, whatever that left in the set.
  lemma {:induction false} LoadFailed(e: Engine, cap: nat, v: View, b: BlockRead, i: nat, junk: Tables, src: seq<byte>)
    requires PipeOk(e, cap, v) && !v.started && v.pendingErr.None? && !v.sawLast
    requires i < |v.sets| && v.inUse[i] == 0
    requires b == ReadBlock(e, v.src) && !b.Block?
    ensures PipeOk(e, cap, v.(pendingErr := Some(b.err), src := src, sets := v.sets[i := junk]))
  {
    ReadFailed(e, cap, v, b, src);
    SetSpoiled(e, cap, v.(pendingErr := Some(b.err), src := src), i, junk);
  }

  // Once an error is recorded, no further block will use a set no job in flight references.
  lemma {:induction false} SetSpoiled(e: Engine, cap: nat, v: View, i: nat, junk: Tables)
    requires PipeOk(e, cap, v) && !v.started && v.pendingErr.Some? && i < |v.sets| && v.inUse[i] == 0
    ensures PipeOk(e, cap, v.(sets := v.sets[i := junk]))
  {
    SetLoaded(e, cap, v, i, junk);
    assert Looked(Now);
    assert Jobs(v.(sets := v.sets[i := junk])) == Jobs(v);
  }

  // readAhead put one more block in flight, referencing set i.
  ghost function Pushing(v: View, b: BlockRead, j: Job): (v': View)
    requires Shape(v) && v.count < |v.slots| && b.Block? && j.tablesIdx < |v.sets|
    ensures Shape(v') && Jobs(v') == Jobs(v) + [j]
  {
    Pushed(v.slots, v.head, v.count, j);
    v.(src := b.rest, endSrc := b.rest, endTs := b.TablesAfter(v.endTs), cur := j.tablesIdx,
       slots := v.slots[At(v.head, v.count, |v.slots|) := j], count := v.count + 1,
       inUse := v.inUse[j.tablesIdx := v.inUse[j.tablesIdx] + 1],
       sawLast := b.lastBlock, oversizePending := j.oversize)
  }

  lemma {:induction false} PushedAccounted(e: Engine, cap: nat, v: View, b: BlockRead, j: Job)
    requires Accounted(e, cap, v) && !v.oversizePending && v.count < |v.slots| && b.Block?
    requires JobOk(e, cap, v.sets, j)
    ensures Accounted(e, cap, Pushing(v, b, j))
  {
    var v' := Pushing(v, b, j);
    forall u ensures Uses(Jobs(v'), u) == Uses(Jobs(v), u) + if j.tablesIdx == u then 1 else 0 {
      UsesPush(Jobs(v), j, u);
    }
    forall k | 0 <= k < v'.count ensures JobOk(e, cap, v'.sets, Jobs(v')[k]) {
      if k < v.count {
        assert JobOk(e, cap, v.sets, Jobs(v)[k]);
      }
    }
  }

  // The block's tables, if it brought any, are in set i by now.
  lemma {:induction false} BlockPushed(e: Engine, cap: nat, v: View, b: BlockRead, j: Job)
    requires PipeOk(e, cap, v) && !v.started && v.pendingErr.None? && !v.sawLast && !v.oversizePending
    requires v.count < |v.slots| && j.tablesIdx < |v.sets|
    requires b == ReadBlock(e, v.src) && b.Block?
    requires if b.loaded.Some? then v.inUse[j.tablesIdx] == 0 else j.tablesIdx == v.cur
    requires j.start == b.cur && j.lastBlock == b.lastBlock
    requires j.done == j.oversize && (j.oversize ==> j.out == Outcome([], j.start, None, true))
    ensures PipeOk(e, cap, Pushing(Loading(v, b, j.tablesIdx), b, j))
  {
    assert Looked(Now);
    if b.loaded.Some? {
      SetLoaded(e, cap, v, j.tablesIdx, b.loaded.value);
    }
    var mid := Loading(v, b, j.tablesIdx);
    PushedAccounted(e, cap, mid, b, j);
    NoneLast(e, cap, v);
    ChainPush(e, v.at.src, v.at.tables, Jobs(v), mid.sets, v.endSrc, v.endTs, j);
  }

  // No job in flight is the last block while the last has not been seen.
  lemma {:induction false} NoneLast(e: Engine, cap: nat, v: View)
    requires PipeOk(e, cap, v) && !v.started && !v.sawLast
    ensures forall k :: 0 <= k < v.count ==> !Jobs(v)[k].lastBlock
  {
    assert Looked(Now);
    forall k | 0 <= k < v.count ensures !Jobs(v)[k].lastBlock {
      if k < v.count - 1 {
        ChainLast(e, v.at.src, v.at.tables, Jobs(v), v.sets, v.endSrc, v.endTs, k);
      }
    }
  }

  ghost function Loading(v: View, b: BlockRead, i: nat): (v': View)
    requires Shape(v) && b.Block? && i < |v.sets|
    ensures Shape(v') && Jobs(v') == Jobs(v)
  {
    if b.loaded.Some? then v.(sets := v.sets[i := b.loaded.value]) else v
  }

  // The next item is the symbol the serial decoder reads next.
  lemma {:induction false} ItemIsNext(e: Engine, out: Outcome, idx: nat, ts: Tables, c: Cursor, room: int)
    requires Lawful(e) && idx < |out.items| && Rest(out, idx) == DecodeItems(e, ts, c, room)
    ensures var p := e.Parse(ts, c);
      && p.Symbol?
      && Front(out.items[idx..]) == Some(p.op)
      && idx + |Encode(p.op)| <= |out.items|
      && Rest(out, idx + |Encode(p.op)|) == DecodeItems(e, ts, p.cur, room - |Encode(p.op)|)
  {
    assert Laws(e, Now);
    var p := e.Parse(ts, c);
    var r := DecodeItems(e, ts, p.cur, room - |Encode(p.op)|);
    assert out.items[idx..] == Encode(p.op) + r.items;
    ItemRoundTrip(p.op, r.items);
    assert out.items[idx + |Encode(p.op)|..] == out.items[idx..][|Encode(p.op)|..] == r.items;
  }

  ghost function Moved(v: View, q: Parsed): View
    requires q.Symbol?
  {
    v.(idx := v.idx + |Encode(q.op)|, at := v.at.(br := Some(q.cur)), room := v.room - |Encode(q.op)|)
  }

  // Replaying it keeps the two together.
  lemma {:induction false} ItemReplayed(e: Engine, cap: nat, v: View)
    requires PipeOk(e, cap, v) && v.started && !v.inline && v.idx < |Jobs(v)[0].out.items|
    ensures var q := e.Parse(v.at.tables, v.at.br.value);
      && q.Symbol?
      && Front(Jobs(v)[0].out.items[v.idx..]) == Some(q.op)
      && PipeOk(e, cap, Moved(v, q)) && Jobs(Moved(v, q)) == Jobs(v)
  {
    ItemAtHead(e, cap, v);
    HeadMoved(e, cap, v, Moved(v, e.Parse(v.at.tables, v.at.br.value)));
  }

  lemma {:induction false} ItemAtHead(e: Engine, cap: nat, v: View)
    requires PipeOk(e, cap, v) && v.started && !v.inline && v.idx < |Jobs(v)[0].out.items|
    ensures var q := e.Parse(v.at.tables, v.at.br.value); var out := Jobs(v)[0].out;
      && q.Symbol?
      && Front(out.items[v.idx..]) == Some(q.op)
      && v.idx + |Encode(q.op)| <= |out.items|
      && Rest(out, v.idx + |Encode(q.op)|) == DecodeItems(e, v.at.tables, q.cur, v.room - |Encode(q.op)|)
  {
    HeadItems(e, cap, v);
    ItemIsNext(e, Jobs(v)[0].out, v.idx, v.at.tables, v.at.br.value, v.room);
  }

  lemma {:induction false} HeadItems(e: Engine, cap: nat, v: View)
    requires PipeOk(e, cap, v) && v.started && !v.inline
    ensures v.idx <= |Jobs(v)[0].out.items|
    ensures Rest(Jobs(v)[0].out, v.idx) == DecodeItems(e, v.at.tables, v.at.br.value, v.room)
  {
    assert Looked(Now);
  }

  lemma {:induction false} HeadMoved(e: Engine, cap: nat, v: View, v': View)
    requires PipeOk(e, cap, v) && v.started && !v.inline && v'.at.br.Some?
    requires v' == v.(idx := v'.idx, at := v.at.(br := v'.at.br), room := v'.room)
    requires v'.idx <= |Jobs(v)[0].out.items|
    requires Rest(Jobs(v)[0].out, v'.idx) == DecodeItems(e, v.at.tables, v'.at.br.value, v'.room)
    ensures PipeOk(e, cap, v') && Jobs(v') == Jobs(v)
  {
    assert Looked(Now);
    SameRing(e, cap, v, v');
  }

  // A job whose items are used up says how the serial decoder's next step goes.
  lemma {:induction false} ItemsSpent(e: Engine, cap: nat, v: View)
    requires PipeOk(e, cap, v) && v.started && !v.inline && v.idx == |Jobs(v)[0].out.items|
    ensures var out := Jobs(v)[0].out; var p := e.Parse(v.at.tables, v.at.br.value);
      if out.err.Some? then
        p == Stop(out.err.value, out.resume) && PipeOk(e, cap, v.(inline := true, at := v.at.(br := Some(out.resume))))
      else if out.partial then PipeOk(e, cap, v.(inline := true))
      else p.BlockEnd?
  {
    var out := Jobs(v)[0].out;
    SpentNext(e, cap, v);
    if out.err.Some? {
      SpentWith(e, cap, v, Some(out.resume));
    } else if out.partial {
      SpentWith(e, cap, v, v.at.br);
    }
  }

  // What serial decoding reads next, and where.
  lemma {:induction false} SpentNext(e: Engine, cap: nat, v: View)
    requires PipeOk(e, cap, v) && v.started && !v.inline && v.idx == |Jobs(v)[0].out.items|
    ensures var out := Jobs(v)[0].out; var p := e.Parse(v.at.tables, v.at.br.value);
      if out.err.Some? then p == Stop(out.err.value, out.resume)
      else if out.partial then v.at.br == Some(out.resume)
      else p.BlockEnd?
  {
    assert Looked(Now);
    assert Jobs(v)[0].out.items[v.idx..] == [];
  }

  // The block goes on from where its worker left off.
  lemma {:induction false} SpentWith(e: Engine, cap: nat, v: View, br: Option<Cursor>)
    requires PipeOk(e, cap, v) && v.started && !v.inline && br == Some(Jobs(v)[0].out.resume)
    ensures PipeOk(e, cap, v.(inline := true, at := v.at.(br := br)))
  {
    assert Looked(Now);
    var v' := v.(inline := true, at := v.at.(br := br));
    SameRing(e, cap, v, v');
    assert HeadStarted(e, v');
  }

  // While a block is finished inline, decoder50's reader is the serial decoder's.
  lemma {:induction false} InlineMoves(e: Engine, cap: nat, v: View, c: Cursor)
    requires PipeOk(e, cap, v) && v.started && v.inline
    requires v.tables == v.at.tables && v.lastBlock == v.at.lastBlock
    ensures PipeOk(e, cap, v.(br := Some(c), at := v.at.(br := Some(c))))
  {
    assert Looked(Now);
    SameRing(e, cap, v, v.(br := Some(c), at := v.at.(br := Some(c))));
  }

  lemma {:induction false} InlineAdopts(e: Engine, cap: nat, v: View)
    requires PipeOk(e, cap, v) && v.started && v.inline && v.br.None?
    ensures var j := Jobs(v)[0];
      && j.tablesIdx < |v.sets|
      && PipeOk(e, cap, v.(br := Some(j.out.resume), tables := v.sets[j.tablesIdx], lastBlock := j.lastBlock))
  {
    assert Looked(Now);
    var j := Jobs(v)[0];
    SameRing(e, cap, v, v.(br := Some(j.out.resume), tables := v.sets[j.tablesIdx], lastBlock := j.lastBlock));
  }

  // With the ring empty, a pending error is what the serial decoder meets now; a clean EOF stays one.
  lemma {:induction false} ErrorSurfaces(e: Engine, cap: nat, v: View)
    requires PipeOk(e, cap, v) && v.count == 0 && v.pendingErr.Some?
    ensures !v.started && Settled(e, v.at).br.None?
    ensures Enter(Settled(e, v.at), ReadBlock(e, v.at.src)).err == v.pendingErr
    ensures Soft(v.pendingErr) ==>
      && Enter(Settled(e, v.at), ReadBlock(e, v.at.src)).at == Settled(e, v.at).(src := [])
      && PipeOk(e, cap, v.(at := Settled(e, v.at).(src := []), endSrc := []))
  {
    assert Looked(Now);
    assert Laws(e, Now);
    assert Jobs(v.(at := Settled(e, v.at).(src := []), endSrc := [])) == [];
  }
}
