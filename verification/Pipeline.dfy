// decoder50 with its block read-ahead (decoder50.go:294-322, decoder50_parallel.go).
//
// The fields are the decoder's own. ser is a ghost: the serial decoder this one must be
// indistinguishable from. A serial Decoder50 carries it trivially; an engaged one has read the
// source far ahead of it, and PipeState.PipeOk says how its ring, tables and replay position
// are determined by where ser stands.

module Pipeline {
  import opened Basics
  import opened DecodeTypes
  import opened Serial
  import opened Items
  import opened Ring
  import opened PipeState
  import Emission

  const IDLE := Job(Cursor([], 0, 0), false, 0, false, false, Outcome([], Cursor([], 0, 0), None, false))

  // blockPipeline's fields (decoder50_parallel.go:60-101). The goroutines, channels and the quit
  // signal are the subject of WorkerProtocol.
  datatype Pipe = Pipe(
    slots: seq<Job>,
    head: nat,
    count: nat,
    idx: nat,
    inline: bool,
    sets: seq<Tables>,
    inUse: seq<nat>,
    cur: nat,
    pendingErr: Option<Error>,
    sawLast: bool,
    oversizePending: bool
  )

  datatype Shadow = Shadow(ser: Ser, started: bool, room: int, endSrc: seq<byte>, endTs: Tables)

  class Decoder50 {
    const e: Engine
    const itemCap: nat
    const payloadLimit: int

    var d: Dec
    var src: seq<byte>
    var br: Option<Cursor>
    var tables: Tables
    var lastBlock: bool
    var engaged: bool
    var p: Pipe

    // The serial decoder this one has to be indistinguishable from, and how its place relates to
    // the ring (PipeState.View).
    ghost var g: Shadow

    ghost function V(): View
      reads this
    {
      View(g.ser.at, g.started, g.room, g.endSrc, g.endTs, src, br, tables, lastBlock,
           p.slots, p.head, p.count, p.idx, p.inline, p.sets, p.inUse, p.cur, p.pendingErr, p.sawLast, p.oversizePending)
    }

    ghost predicate PipeValid()
      reads this
    {
      engaged && PipeOk(e, itemCap, V())
    }

    ghost predicate Valid()
      reads this
    {
      && Lawful(e) && e.sealed == engaged && g.ser.d == d && Consumed(d.win) >= 0
      && if engaged then PipeOk(e, itemCap, V()) else g.ser.at == Place(br, tables, lastBlock, src)
    }

    // init and setPipeline: a decoder pointed at src, with whatever state and tables the previous
    // member left. One worker or none is the serial path; otherwise the ring is empty and its
    // current table set is seeded from the serial tables.
    constructor (e: Engine, workers: nat, itemCap: nat, payloadLimit: int, d: Dec, tables: Tables, src: seq<byte>)
      requires Lawful(e) && Consumed(d.win) >= 0
      ensures Valid() && this.e == e.(sealed := workers > 1)
      ensures g.ser == Ser(d, Place(None, tables, false, src))
    {
      this.e, this.itemCap, this.payloadLimit := e.(sealed := workers > 1), itemCap, payloadLimit;
      this.d, this.src, this.br, this.tables, this.lastBlock := d, src, None, tables, false;
      engaged := workers > 1;
      var r := 2 * workers;
      p := Pipe(Repeat(IDLE, r), 0, 0, 0, false, Repeat(NO_TABLES, r + 1)[0 := tables], Repeat(0, r + 1), 0, None, false, false);
      g := Shadow(Ser(d, Place(None, tables, false, src)), false, 0, src, tables);
      new;
      SealedLawful(e, workers > 1);
      if engaged {
        Engaged(this.e, itemCap, V());
      }
    }

    // The serial fill (decoder50.go:297-322).
    method FillSerial() returns (err: Option<Error>)
      requires Valid() && !engaged
      modifies this
      ensures Valid() && !engaged
      ensures Filled(g.ser, err) == SerialFill(e, old(g.ser), FillTarget(old(d).win))
    {
      assert Laws(e, Now);
      var target := FillTarget(d.win);
      ghost var whole := SerialFill(e, g.ser, target);
      while d.win.unread < target
        invariant Valid() && !engaged
        invariant whole == SerialFill(e, g.ser, target)
        decreases |src|, InBlock(g.ser.at)
      {
        if br.None? {
          err := ReadBlockHeader();
          if err.Some? {
            return;
          }
        }
        match e.Parse(tables, br.value) {
          case BlockEnd =>
            if lastBlock {
              return Some(EOF);
            }
            br := None;
          case Stop(stop, c) =>
            br := Some(c);
            g := g.(ser := Ser(d, Place(br, tables, lastBlock, src)));
            return Some(stop);
          case Symbol(op, c) =>
            var a := e.Apply(d, op);
            d, br := a.d, Some(c);
            if a.err.Some? {
              g := g.(ser := Ser(d, Place(br, tables, lastBlock, src)));
              return a.err;
            }
        }
        g := g.(ser := Ser(d, Place(br, tables, lastBlock, src)));
      }
      err := None;
    }

    // readBlockHeader (decoder50.go:138-164). An error while reading tables leaves br set.
    method ReadBlockHeader() returns (err: Option<Error>)
      requires Valid() && !engaged && br.None?
      modifies `br, `src, `lastBlock, `tables, `g
      ensures Valid()
      ensures Entered(g.ser.at, err) == Enter(old(g.ser).at, ReadBlock(e, old(src)))
      ensures err.None? ==> br.Some? && |src| < |old(src)|
    {
      assert Laws(e, Now);
      err := TakeBlock();
      g := g.(ser := Ser(d, Place(br, tables, lastBlock, src)));
    }

    method TakeBlock() returns (err: Option<Error>)
      requires br.None? && !e.sealed
      modifies `br, `src, `lastBlock, `tables
      ensures Entered(Place(br, tables, lastBlock, src), err) == Enter(old(Place(br, tables, lastBlock, src)), ReadBlock(e, old(src)))
    {
      var hr := e.ReadHead(src);
      src := hr.rest;
      if hr.HeadErr? {
        return Some(hr.err);
      }
      var h := hr.h;
      if |src| < h.blockBytes {
        err := Some(ShortRead(src));
        src := [];
        return;
      }
      br := Some(Cursor(src[..h.blockBytes], 0, h.blockBits));
      src := src[h.blockBytes..];
      lastBlock := h.lastBlock;
      if h.newTables {
        match e.ReadTables(br.value) {
          case TablesErr(terr, c) =>
            br := Some(c);
            return Some(terr);
          case TablesOk(cl, c) =>
            br := Some(c);
            match e.Load(cl) {
              case None =>
                return Some(InvalidLengthTable);
              case Some(ts) =>
                tables := ts;
            }
        }
      }
      return None;
    }

    // decodeBlockItems on one worker. The tables are read when the worker runs, not when the block
    // was submitted.
    method RunWorker(k: nat)
      requires PipeValid() && k < p.count
      modifies `p
      ensures PipeValid() && p == old(p).(slots := p.slots)
      ensures Jobs(V())[k].done
    {
      ModAt(p.head, k, |p.slots|);
      var s := (p.head + k) % |p.slots|;
      var j := p.slots[s];
      if !j.done {
        JobDone(e, itemCap, V(), k);
        var out := Decode(p.sets[j.tablesIdx], j.start);
        p := p.(slots := p.slots[s := j.(done := true, out := out)]);
        assert V() == Completed(e, itemCap, old(V()), k);
      }
    }

    method Decode(ts: Tables, start: Cursor) returns (out: Outcome)
      requires Lawful(e)
      ensures out == DecodeItems(e, ts, start, itemCap)
    {
      var items := new Item[itemCap];
      var n, resume, err, partial := DecodeBlockItems(e, ts, start, items);
      out := Outcome(items[..n], resume, err, partial);
    }

    // Between any two steps of the decoding goroutine, any of the jobs in flight may be completed.
    method Workers()
      requires PipeValid()
      modifies `p
      ensures PipeValid() && p == old(p).(slots := p.slots)
    {
      for k := 0 to p.count
        invariant PipeValid() && p == old(p).(slots := p.slots)
      {
        if * {
          RunWorker(k);
        }
      }
    }

    // wait: the oldest job's token.
    method Wait()
      requires PipeValid() && p.count > 0
      modifies `p
      ensures PipeValid() && p == old(p).(slots := p.slots) && Jobs(V())[0].done
    {
      Workers();
      if !p.slots[p.head].done {
        RunWorker(0);
      }
    }

    method FreeTableSet(ghost v: View) returns (i: nat)
      requires PipeOk(e, itemCap, v) && v.inUse == p.inUse
      ensures i < |p.inUse| && p.inUse[i] == 0
    {
      ghost var free := FreeSet(e, itemCap, v);
      i := 0;
      while p.inUse[i] != 0
        invariant i <= free
        decreases free - i
      {
        i := i + 1;
      }
    }

    method ReadAhead()
      requires PipeValid() && !g.started
      modifies this
      ensures PipeValid() && !g.started && g.ser == old(g.ser) && d == old(d)
      ensures p.count == 0 ==> p.sawLast || p.pendingErr.Some?
    {
      assert Looked(Now);
      while p.count < |p.slots| && !p.sawLast && p.pendingErr.None? && !p.oversizePending
        invariant PipeValid() && !g.started && g.ser == old(g.ser) && d == old(d)
        decreases |p.slots| - p.count, p.pendingErr.None?
      {
        Workers();
        ReadOne();
      }
    }

    // One trip of readAhead's loop.
    method ReadOne()
      requires PipeValid() && !g.started
      requires p.count < |p.slots| && !p.sawLast && p.pendingErr.None? && !p.oversizePending
      modifies `src, `p, `g
      ensures PipeValid() && !g.started && g.ser == old(g.ser) && d == old(d)
      ensures |p.slots| == |old(p.slots)|
      ensures if p.pendingErr.Some? then p.count == old(p.count) else p.count == old(p.count) + 1
    {
      ghost var v, b := V(), ReadBlock(e, src);
      var j := Fetch();
      if j.None? {
        return;
      }
      BlockPushed(e, itemCap, v, b, j.value);
      Push(j.value, Loading(v, b, j.value.tablesIdx), b);
      assert V() == Pushing(Loading(v, b, j.value.tablesIdx), b, j.value);
    }

    // Reads the next block and its tables; None when that failed, which is recorded.
    method Fetch() returns (job: Option<Job>)
      requires PipeValid() && !g.started
      requires p.count < |p.slots| && !p.sawLast && p.pendingErr.None? && !p.oversizePending
      modifies `src, `p
      ensures job.None? ==> PipeValid() && p == old(p).(sets := p.sets, pendingErr := p.pendingErr) && p.pendingErr.Some?
      ensures job.Some? ==>
        var v, b, j := old(V()), ReadBlock(e, old(src)), job.value;
        && b.Block? && j.tablesIdx < |v.sets| && V() == Loading(v, b, j.tablesIdx).(src := b.rest)
        && j.start == b.cur && j.lastBlock == b.lastBlock && j.done == j.oversize == (b.size > payloadLimit)
        && j.out == Outcome([], j.start, None, true)
        && if b.loaded.Some? then v.inUse[j.tablesIdx] == 0 else j.tablesIdx == v.cur
    {
      assert Laws(e, Now);
      ghost var v, b := V(), ReadBlock(e, src);
      var hr := e.ReadHead(src);
      src := hr.rest;
      if hr.HeadErr? {
        ReadFailed(e, itemCap, v, b, src);
        p := p.(pendingErr := Some(hr.err));
        return None;
      }
      var h := hr.h;
      if |src| < h.blockBytes {
        ReadFailed(e, itemCap, v, b, []);
        p := p.(pendingErr := Some(ShortRead(src)));
        src := [];
        return None;
      }
      var c := Cursor(src[..h.blockBytes], 0, h.blockBits);
      src := src[h.blockBytes..];
      job := FetchTables(h, c, v);
    }

    // Its tables, if it brings its own, into a set no job in flight references. v is from before the block.
    method FetchTables(h: BlockHead, start: Cursor, ghost v: View) returns (job: Option<Job>)
      requires PipeOk(e, itemCap, v) && !v.started && v.count < |v.slots| && !v.sawLast && v.pendingErr.None? && !v.oversizePending
      requires engaged && V() == v.(src := src) && e.ReadHead(v.src).Head? && e.ReadHead(v.src).h == h
      requires var rest := e.ReadHead(v.src).rest;
        |rest| >= h.blockBytes && start == Cursor(rest[..h.blockBytes], 0, h.blockBits) && src == rest[h.blockBytes..]
      modifies `p
      ensures job.None? ==> PipeValid() && p == old(p).(sets := p.sets, pendingErr := p.pendingErr) && p.pendingErr.Some?
      ensures job.Some? ==>
        var b, j := ReadBlock(e, v.src), job.value;
        && b.Block? && j.tablesIdx < |v.sets| && V() == Loading(v, b, j.tablesIdx).(src := b.rest)
        && j.start == b.cur && j.lastBlock == b.lastBlock && j.done == j.oversize == (b.size > payloadLimit)
        && j.out == Outcome([], j.start, None, true)
        && if b.loaded.Some? then v.inUse[j.tablesIdx] == 0 else j.tablesIdx == v.cur
    {
      assert Laws(e, Now);
      ghost var b := ReadBlock(e, v.src);
      var c := start;
      var next := p.cur;
      if h.newTables {
        match e.ReadTables(c) {
          case TablesErr(err, _) =>
            ReadFailed(e, itemCap, v, b, src);
            p := p.(pendingErr := Some(err));
            return None;
          case TablesOk(cl, c') =>
            c := c';
            next := NextSet(v);
            match e.Load(cl) {
              case None =>
                // The set that failed to load is left holding anything.
                var junk: Tables := *;
                LoadFailed(e, itemCap, v, b, next, junk, src);
                p := p.(sets := p.sets[next := junk], pendingErr := Some(InvalidLengthTable));
                return None;
              case Some(ts) =>
                p := p.(sets := p.sets[next := ts]);
            }
        }
      }
      var oversize := h.blockBytes > payloadLimit;
      return Some(Job(c, h.lastBlock, next, oversize, oversize, Outcome([], c, None, true)));
    }

    // The job enters the ring and, unless it is to be finished inline, goes to a worker.
    method Push(j: Job, ghost v: View, ghost b: BlockRead)
      requires Shape(v) && v.count < |v.slots| && j.tablesIdx < |v.inUse|
      requires b.Block? && j.lastBlock == b.lastBlock && V() == v.(src := b.rest)
      modifies `p, `g
      ensures V() == Pushing(v, b, j) && g.ser == old(g.ser)
    {
      ModAt(p.head, p.count, |p.slots|);
      p := p.(slots := p.slots[(p.head + p.count) % |p.slots| := j], count := p.count + 1,
              cur := j.tablesIdx, inUse := p.inUse[j.tablesIdx := p.inUse[j.tablesIdx] + 1],
              sawLast := j.lastBlock, oversizePending := j.oversize);
      g := g.(endSrc := src, endTs := b.TablesAfter(g.endTs));
    }

    // The set a block's new tables are loaded into: the current one unless a job still needs it.
    method NextSet(ghost v: View) returns (next: nat)
      requires PipeOk(e, itemCap, v) && v.inUse == p.inUse && v.cur == p.cur
      ensures next < |p.inUse| && p.inUse[next] == 0
    {
      next := p.cur;
      if p.inUse[p.cur] > 0 {
        next := FreeTableSet(v);
      }
    }

    // pop.
    method Pop()
      requires p.head < |p.slots| && 0 < p.count <= |p.slots|
      requires p.slots[p.head].tablesIdx < |p.inUse| && p.inUse[p.slots[p.head].tablesIdx] > 0
      modifies `p
      ensures var was := old(p); var j := was.slots[was.head];
        p == was.(head := At(was.head, 1, |was.slots|), count := was.count - 1, idx := 0, inline := false,
                  inUse := was.inUse[j.tablesIdx := was.inUse[j.tablesIdx] - 1],
                  oversizePending := was.oversizePending && !j.oversize)
    {
      var j := p.slots[p.head];
      p := p.(inUse := p.inUse[j.tablesIdx := p.inUse[j.tablesIdx] - 1]);
      if j.oversize {
        p := p.(oversizePending := false);
      }
      ModAt(p.head, 1, |p.slots|);
      p := p.(head := (p.head + 1) % |p.slots|, count := p.count - 1, idx := 0, inline := false);
    }

    // replayItems on the oldest job (decoder50_items.go:366-402).
    method ReplayItems(target: nat, ghost s0: Ser) returns (exhausted: bool, err: Option<Error>)
      requires Valid() && engaged && g.started && !p.inline && Follows(e, s0, g.ser, target)
      modifies `d, `p, `g
      ensures err.Some? ==> !exhausted && !Soft(err) && Ends(e, s0, target, d, err)
      ensures err.None? ==> Valid() && g.started && !p.inline && Follows(e, s0, g.ser, target)
      ensures err.None? ==> g.ser.at.src == old(g.ser).at.src
      ensures err.None? ==> if exhausted then p.idx == |Jobs(V())[0].out.items| else d.win.unread >= target
      ensures p == old(p).(idx := p.idx)
    {
      assert Looked(Now);
      var j := p.slots[p.head];
      assert j == Jobs(V())[0];
      while p.idx < |j.out.items|
        invariant Valid() && g.started && !p.inline && j == Jobs(V())[0] && p == old(p).(idx := p.idx)
        invariant Follows(e, s0, g.ser, target) && g.ser.at.src == old(g.ser).at.src
        decreases |j.out.items| - p.idx
      {
        if d.win.unread >= target {
          return false, None;
        }
        ghost var s1 := g.ser;
        ghost var q := e.Parse(s1.at.tables, s1.at.br.value);
        ItemReplayed(e, itemCap, V());
        FollowSymbol(e, s0, s1, target);
        err := ReplayOne(j, q);
        if err.Some? {
          return false, err;
        }
      }
      return true, None;
    }

    // One trip of the loop: the item, or the pair of a filter, goes to its apply function. q is what
    // the serial decoder reads from the same bits.
    method ReplayOne(j: Job, ghost q: Parsed) returns (err: Option<Error>)
      requires p.idx < |j.out.items| && q.Symbol? && Front(j.out.items[p.idx..]) == Some(q.op)
      modifies `d, `p, `g
      ensures (d, err) == (e.Apply(old(d), q.op).d, e.Apply(old(d), q.op).err)
      ensures g.ser == Ser(d, old(g.ser).at.(br := Some(q.cur)))
      ensures V() == Moved(old(V()), q) && p == old(p).(idx := p.idx)
    {
      var op := Front(j.out.items[p.idx..]).value;
      p := p.(idx := p.idx + if op.Filter? then 2 else 1);
      var a := e.Apply(d, op);
      d, err := a.d, a.err;
      g := g.(ser := Ser(d, g.ser.at.(br := Some(q.cur))), room := g.room - |Encode(q.op)|);
    }

    // finishBlockInline (decoder50_items.go:416-442): the serial code takes the block over from
    // where the worker stopped.
    method FinishBlockInline(target: nat, ghost s0: Ser) returns (done: bool, err: Option<Error>)
      requires Valid() && engaged && g.started && p.inline && Follows(e, s0, g.ser, target)
      modifies `d, `br, `tables, `lastBlock, `g
      ensures err.Some? && done ==> !Soft(err) && Ends(e, s0, target, d, err)
      ensures !done || err.None? ==> Valid() && g.started
      ensures err.Some? && !done ==> Filled(g.ser, err) == SerialFill(e, s0, target)
      ensures err.None? ==> Follows(e, s0, g.ser, target) && g.ser.at.src == old(g.ser).at.src
      ensures err.None? ==> if done then AtEnd(e, g.ser.at) && g.ser.d.win.unread < target else d.win.unread >= target
    {
      assert Laws(e, Now);
      if br.None? {
        AdoptHead();
      }
      while d.win.unread < target
        invariant Valid() && engaged && g.started && p.inline && br.Some? && g.ser.at.src == old(g.ser).at.src
        invariant Follows(e, s0, g.ser, target)
        decreases g.ser.at.br.value.Left()
      {
        InlineHeld(e, itemCap, V());
        match e.Parse(tables, br.value) {
          case BlockEnd =>
            return true, None;
          case Stop(stop, c) =>
            if stop != OutOfData {
              br := None;
              return true, Some(stop);
            }
            MoveInline(d, c);
            return false, Some(stop);
          case Symbol(op, c) =>
            FollowSymbol(e, s0, g.ser, target);
            var a := e.Apply(d, op);
            if a.err.Some? {
              d, br := a.d, None;
              return true, a.err;
            }
            MoveInline(a.d, c);
        }
      }
      return false, None;
    }

    // The serial code takes the block over from the worker.
    method AdoptHead()
      requires Valid() && engaged && g.started && p.inline && br.None?
      modifies `br, `tables, `lastBlock
      ensures Valid() && br.Some?
    {
      assert Looked(Now);
      InlineAdopts(e, itemCap, V());
      var j := p.slots[p.head];
      assert j == Jobs(V())[0];
      tables := p.sets[j.tablesIdx];
      br := Some(j.out.resume);
      lastBlock := j.lastBlock;
    }

    // The reader moves to c inside the block being finished inline, with d' the decoder's state.
    method MoveInline(d': Dec, c: Cursor)
      requires Valid() && engaged && g.started && p.inline && br.Some? && Consumed(d'.win) >= 0
      modifies `d, `br, `g
      ensures Valid() && g.started && br == Some(c) && g.ser == Ser(d', old(g.ser).at.(br := Some(c)))
    {
      assert Looked(Now);
      InlineMoves(e, itemCap, V(), c);
      d, br := d', Some(c);
      g := g.(ser := Ser(d, g.ser.at.(br := br)));
    }

    // The block at the head has been replayed to its end.
    method LeaveHead() returns (last: bool)
      requires Valid() && engaged && g.started && AtEnd(e, g.ser.at)
      modifies `p, `br, `g
      ensures Valid() && !g.started && g.ser == old(g.ser) && last == g.ser.at.lastBlock
      ensures last ==> p.count == 0 && p.sawLast
    {
      HeadCounted(e, itemCap, V());
      last := p.slots[p.head].lastBlock;
      HeadLeft(e, itemCap, V());
      br := None;
      Pop();
      g := g.(started := false);
      assert V() == Leaving(old(V()));
    }

    // The serial decoder, seen inside the oldest block.
    ghost method EnterHead(target: nat)
      requires Valid() && engaged && !g.started && p.count > 0 && Jobs(V())[0].done && d.win.unread < target
      modifies `g
      ensures Valid() && g.started
      ensures SerialFill(e, old(g.ser), target) == SerialFill(e, g.ser, target)
      ensures |g.ser.at.src| < |old(g.ser).at.src|
    {
      assert Laws(e, Now);
      HeadEntered(e, itemCap, V());
      FillSettled(e, g.ser, target);
      var at := Enter(Settled(e, g.ser.at), ReadBlock(e, g.ser.at.src)).at;
      g := g.(started := true, ser := Ser(d, at), room := if p.slots[p.head].oversize then 0 else itemCap);
    }

    // What read-ahead recorded is surfaced once every block before it is gone.
    method Drained(target: nat) returns (err: Option<Error>)
      requires Valid() && engaged && !g.started && p.count == 0 && (p.sawLast || p.pendingErr.Some?)
      requires d.win.unread < target
      modifies `g
      ensures SerialFill(e, old(g.ser), target).ser.d == d && SerialFill(e, old(g.ser), target).err == err
      ensures Soft(err) ==> Valid() && SerialFill(e, old(g.ser), target).ser == g.ser
    {
      assert Looked(Now);
      if p.pendingErr.Some? {
        ErrorSurfaces(e, itemCap, V());
        FillSettled(e, g.ser, target);
        if Soft(p.pendingErr) {
          g := g.(ser := Ser(d, Settled(e, g.ser.at).(src := [])), endSrc := []);
        }
        return p.pendingErr;
      }
      return Some(EOF);
    }

    // How a part of fillParallel leaves things: stopped, with what fill is to return, or going on.
    ghost predicate Went(s0: Ser, target: nat, stop: bool, err: Option<Error>)
      reads this
    {
      && Lawful(e) && engaged
      && if stop then
           Ends(e, s0, target, d, err) && (Soft(err) ==> Valid() && g.ser == SerialFill(e, s0, target).ser)
         else Valid() && Follows(e, s0, g.ser, target)
    }

    // Up to the oldest block's items being there to replay.
    method AwaitHead(target: nat, ghost s0: Ser) returns (stop: bool, err: Option<Error>)
      requires Valid() && engaged && Follows(e, s0, g.ser, target) && d.win.unread < target
      modifies this
      ensures Went(s0, target, stop, err)
      ensures !stop ==> g.started && d == old(d)
      ensures !stop ==> if old(g).started then g.ser == old(g.ser) else |g.ser.at.src| < |old(g.ser).at.src|
    {
      assert Looked(Now);
      if p.count == 0 {
        ReadAhead();
        if p.count == 0 {
          err := Drained(target);
          return true, err;
        }
      }
      Wait();
      if !g.started {
        EnterHead(target);
      }
      return false, None;
    }

    // The part for a block that is not being finished inline.
    method ReplayHead(target: nat, ghost s0: Ser) returns (stop: bool, err: Option<Error>)
      requires Valid() && engaged && Follows(e, s0, g.ser, target) && d.win.unread < target
      requires g.started && !p.inline
      modifies this
      ensures Went(s0, target, stop, err)
      ensures !stop ==> g.ser.at.src == old(g.ser).at.src && (p.inline || !g.started)
    {
      assert Looked(Now);
      assert Laws(e, Now);
      var exhausted;
      exhausted, err := ReplayItems(target, s0);
      if err.Some? || !exhausted {
        return true, err;
      }
      var j := p.slots[p.head];
      assert j == Jobs(V())[0];
      ItemsSpent(e, itemCap, V());
      if j.out.err.Some? {
        err := ItemsFailed(target, s0);
        return true, err;
      }
      if j.out.partial {
        p := p.(inline := true);
        return false, None;
      }
      stop, err := GoOn(target, s0);
    }

    // The worker stopped at an error, which now comes up in its turn. Out of data keeps the block.
    method ItemsFailed(target: nat, ghost s0: Ser) returns (err: Option<Error>)
      requires Valid() && engaged && Follows(e, s0, g.ser, target)
      requires g.started && !p.inline && p.idx == |Jobs(V())[0].out.items| && Jobs(V())[0].out.err.Some?
      modifies this
      ensures Went(s0, target, true, err)
    {
      assert Looked(Now);
      assert Laws(e, Now);
      var j := p.slots[p.head];
      assert j == Jobs(V())[0];
      ItemsSpent(e, itemCap, V());
      if d.win.unread >= target {
        return None;
      }
      if j.out.err == Some(OutOfData) {
        p := p.(inline := true);
        g := g.(ser := Ser(d, g.ser.at.(br := Some(j.out.resume))));
        return j.out.err;
      }
      HeadCounted(e, itemCap, V());
      Pop();
      return j.out.err;
    }

    // The block is done: on to the next, or the end.
    method GoOn(target: nat, ghost s0: Ser) returns (stop: bool, err: Option<Error>)
      requires Valid() && engaged && g.started && AtEnd(e, g.ser.at) && Follows(e, s0, g.ser, target)
      modifies this
      ensures Went(s0, target, stop, err)
      ensures d == old(d)
      ensures !stop ==> !g.started && g.ser == old(g.ser)
    {
      var last := LeaveHead();
      if last {
        return true, Some(EOF);
      }
      ReadAhead();
      return false, None;
    }

    // fillParallel (decoder50_parallel.go:509-582).
    method FillParallel() returns (err: Option<Error>)
      requires Valid() && engaged
      modifies this
      ensures Went(old(g.ser), FillTarget(old(d).win), true, err)
    {
      assert Looked(Now);
      var target := FillTarget(d.win);
      ghost var s0 := g.ser;
      while d.win.unread < target
        invariant Valid() && engaged && Follows(e, s0, g.ser, target)
        decreases d.win.unread < target, |g.ser.at.src|, g.started
      {
        var stop;
        stop, err := AwaitHead(target, s0);
        if stop {
          return;
        }
        if !p.inline {
          stop, err := ReplayHead(target, s0);
          if stop {
            return;
          }
        }
        if p.inline {
          stop, err := FinishHead(target, s0);
          if stop {
            return;
          }
        }
      }
      err := None;
    }

    // The part for a block that is.
    method FinishHead(target: nat, ghost s0: Ser) returns (stop: bool, err: Option<Error>)
      requires Valid() && engaged && Follows(e, s0, g.ser, target)
      requires g.started && p.inline
      modifies this
      ensures Went(s0, target, stop, err)
      ensures !stop ==> d.win.unread >= target || (!g.started && g.ser.at.src == old(g.ser).at.src)
    {
      assert Looked(Now);
      var done;
      done, err := FinishBlockInline(target, s0);
      if err.Some? {
        if done {
          Pop();
        }
        return true, err;
      }
      if !done {
        return false, None;
      }
      stop, err := GoOn(target, s0);
    }

    method Fill() returns (err: Option<Error>)
      requires Valid()
      modifies this
      ensures Ends(e, old(g.ser), FillTarget(old(d).win), d, err)
      ensures Soft(err) ==> Valid() && g.ser == SerialFill(e, old(g.ser), FillTarget(old(d).win)).ser
    {
      if engaged {
        err := FillParallel();
      } else {
        err := FillSerial();
      }
    }

    // The decoder's own state changes; where it stands does not.
    method SetDec(d': Dec)
      requires Valid() && Consumed(d'.win) >= 0
      modifies `d, `g
      ensures Valid() && d == d' && g.ser == Ser(d', old(g.ser).at)
    {
      d := d';
      g := g.(ser := Ser(d', g.ser.at));
    }

    // window.Read on the decoder's window.
    method TakeBytes(n: nat) returns (out: seq<byte>)
      requires Valid()
      modifies `d, `g
      ensures Valid() && out == Emission.Taken(old(d).win, n) && g.ser == Emission.TookBytes(old(g.ser), n)
    {
      out := Emission.Taken(d.win, n);
      SetDec(d.(win := Emission.Took(d.win, n)));
    }

    // stageFilterInput (decoder50.go:336-353).
    method StageFilterInput(need: nat) returns (buf: seq<byte>, err: Option<Error>)
      requires Valid()
      modifies this
      ensures var r := Emission.Stage(e, old(g.ser), need);
        && err == r.err && (err.None? ==> buf == r.out && Valid() && g.ser == r.ser)
      ensures err.Some? ==> !Soft(err)
    {
      buf, err := [], None;
      ghost var s := g.ser;
      ghost var r := Emission.StageStarts(e, s, need, buf);
      var left := need;
      ghost var more := r;
      while left > 0
        invariant Valid() && err.None? && Emission.Stages(e, g.ser, left, more) && r == Emission.After(buf, more)
        decreases left, d.win.unread == 0
      {
        buf, err, left, more := StageOn(buf, left, r, more);
        if err.Some? {
          break;
        }
      }
      if err.None? {
        Emission.StageAll(e, g.ser, 0, more);
      }
      Emission.StageIs(e, s, need, r);
    }

    // On from buf, with staging all of it r.
    method StageOn(buf0: seq<byte>, need: nat, ghost r: Emission.Got, ghost rest: Emission.Got)
      returns (buf: seq<byte>, err: Option<Error>, left: nat, ghost more: Emission.Got)
      requires Valid() && need > 0 && Emission.Stages(e, g.ser, need, rest) && r == Emission.After(buf0, rest)
      modifies this
      ensures err.Some? ==> !Soft(err) && r.err == err
      ensures err.None? ==> Valid() && Emission.Stages(e, g.ser, left, more) && r == Emission.After(buf, more)
      ensures err.None? ==> left < need || (left == need && old(d).win.unread == 0 && d.win.unread > 0)
    {
      var got;
      got, err, left, more := StageOnce(need, rest);
      Emission.AfterAfter(buf0, got, more);
      buf := buf0 + got;
    }

    // One trip of its loop: what the window holds, then more decoding if that was not enough. Staging from
    // here is r, and from where it leaves off more.
    method StageOnce(need: nat, ghost r: Emission.Got)
      returns (got: seq<byte>, err: Option<Error>, left: nat, ghost more: Emission.Got)
      requires Valid() && need > 0 && Emission.Stages(e, g.ser, need, r)
      modifies this
      ensures err.Some? ==> !Soft(err) && r.err == err
      ensures err.None? ==> Valid() && Emission.Stages(e, g.ser, left, more) && r == Emission.After(got, more)
      ensures err.None? ==> left < need || (left == need && old(d).win.unread == 0 && d.win.unread > 0)
    {
      ghost var s := g.ser;
      got := TakeBytes(need);
      left := need - |got|;
      if left == 0 {
        err := None;
        more := Emission.StageEnds(e, s, need, r);
        return;
      }
      ghost var f;
      f, more := Emission.StageTrip(e, s, need, r);
      err := StageMore(|got|, s, need, f);
    }

    // The window did not hold enough: a fill, and whether it got anywhere.
    method StageMore(n: nat, ghost s: Ser, ghost need: nat, ghost f: Filled) returns (err: Option<Error>)
      requires Valid() && Emission.Refills(e, s, need, f) && g.ser == Emission.TookBytes(s, need) && n == s.d.win.unread < need
      modifies this
      ensures if Emission.Starved(s, f) then err == if Soft(f.err) then Some(UnexpectedEOF) else f.err
              else err.None? && Valid() && g.ser == f.ser && (n == 0 ==> d.win.unread > 0)
    {
      err := FillAfter(s, need, f);
      if Soft(err) {
        err := if n == 0 && d.win.unread == 0 then Some(UnexpectedEOF) else None;
      }
    }

    // The fill that follows once the window's bytes have been taken, from s on.
    method FillAfter(ghost s: Ser, ghost need: nat, ghost f: Filled) returns (err: Option<Error>)
      requires Valid() && Emission.Refills(e, s, need, f) && g.ser == Emission.TookBytes(s, need)
      modifies this
      ensures (Soft(err) <==> Soft(f.err)) && (!Soft(err) ==> err == f.err)
      ensures Soft(err) ==> Valid() && g.ser == f.ser
    {
      assert Emission.Refilled(e, s, need, f, Now);
      err := Fill();
    }

    // Read (decoder50.go:357-458). Until a hard error it is Emission.Read of the serial decoder,
    // engaged or not.
    method Read(n: nat) returns (out: seq<byte>, err: Option<Error>)
      requires Valid()
      modifies this
      ensures var r := Emission.Read(e, old(g.ser), n);
        && out == r.out && err == r.err
        && (Soft(err) ==> Valid() && g.ser == r.ser)
    {
      if d.outbuf != [] {
        var k := Min(n, |d.outbuf|);
        out := d.outbuf[..k];
        SetDec(d.(outbuf := d.outbuf[k..]));
        return out, None;
      }
      if n == 0 {
        return [], None;
      }
      if d.win.unread == 0 {
        err := Fill();
        if !Soft(err) {
          return [], err;
        }
        if d.win.unread == 0 {
          return [], Some(EOF);
        }
      }
      out, err := Emit(n);
    }

    method Emit(n: nat) returns (out: seq<byte>, err: Option<Error>)
      requires Valid()
      modifies this
      ensures var r := Emission.Emit(e, old(g.ser), n);
        && out == r.out && err == r.err
        && (err.None? ==> Valid() && g.ser == r.ser)
        && (err.Some? ==> !Soft(err))
    {
      // No filter queued, or one further on: copy up to it.
      if d.fl == [] || d.fl[0].start > d.tot {
        var limit := if d.fl == [] then n else Min(d.fl[0].start - d.tot, n);
        out := TakeBytes(limit);
        SetDec(d.(tot := d.tot + |out|));
        return out, None;
      }
      var f := d.fl[0];
      SetDec(d.(fl := d.fl[1..]));
      var buf;
      buf, err := StageFilterInput(f.length);
      if err.Some? {
        return [], err;
      }
      // A filter overlapping this block is refused.
      if d.fl != [] && d.fl[0].start < f.start + f.length {
        return [], Some(InvalidFilter);
      }
      if f.ftype > 3 {
        return [], Some(UnknownFilter);
      }
      var res := e.RunFilter(f, buf, d.tot);
      var k := Min(n, |res|);
      SetDec(d.(tot := d.tot + |res|, outbuf := res[k..]));
      return res[..k], None;
    }
  }
}
