// When Read succeeds, and what it fails for: told by the fills it makes and the blocks that are announced
// (decoder50.go:324-458).

module Verdict {
  import opened Basics
  import opened DecodeTypes
  import opened Serial
  import opened Emission
  import opened Emitted

  // ---- Staging: all there is taken, then more decoded, again and again.

  function TookAll(s: Ser): Ser {
    s.(d := s.d.(win := s.d.win.(unread := 0)))
  }

  function Round(e: Engine, s: Ser): (r: Filled)
    requires Lawful(e)
    ensures Consumed(r.ser.d.win) == |s.d.win.hist|
  {
    SerialFill(e, TookAll(s), FillTarget(s.d.win))
  }

  // After k rounds.
  function Rounds(e: Engine, s: Ser, k: nat): Ser
    requires Lawful(e)
    decreases k
  {
    if k == 0 then s else Rounds(e, Round(e, s).ser, k - 1)
  }

  // They have not come up with need bytes yet.
  ghost predicate Poor(e: Engine, s: Ser, need: nat, k: nat)
    requires Lawful(e)
  {
    |Rounds(e, s, k).d.win.hist| < Consumed(s.d.win) + need
  }

  // The next round fails with no hard error, and either finds or leaves something in the window.
  ghost predicate Fruitful(e: Engine, s: Ser, k: nat)
    requires Lawful(e)
  {
    var t := Rounds(e, s, k);
    Soft(Round(e, t).err) && (t.d.win.unread > 0 || Round(e, t).ser.d.win.unread > 0)
  }

  // The first k rounds were all needed, and fruitful.
  ghost predicate Earlier(e: Engine, s: Ser, need: nat, k: nat)
    requires Lawful(e)
  {
    forall i :: 0 <= i < k ==> Poor(e, s, need, i) && Fruitful(e, s, i)
  }

  // Need bytes are there after k rounds and not before.
  ghost predicate Reaches(e: Engine, s: Ser, need: nat, k: nat)
    requires Lawful(e)
  {
    !Poor(e, s, need, k) && Earlier(e, s, need, k)
  }

  // They are not, and the next round fails or has nothing more to give.
  ghost predicate Starves(e: Engine, s: Ser, need: nat, k: nat, err: Error)
    requires Lawful(e)
  {
    && Earlier(e, s, need, k) && Poor(e, s, need, k) && !Fruitful(e, s, k)
    && var f := Round(e, Rounds(e, s, k)); Some(err) == if Soft(f.err) then Some(UnexpectedEOF) else f.err
  }

  // Staging delivers if and only if some number of rounds comes up with enough, each of them fruitful.
  lemma {:induction false} StageVerdict(e: Engine, s: Ser, need: nat, r: Got) returns (k: nat)
    requires Stages(e, s, need, r)
    ensures if r.err.None? then Reaches(e, s, need, k)
            else Starves(e, s, need, k, r.err.value) && r.ser == Rounds(e, s, k + 1)
    decreases need, s.d.win.unread == 0
  {
    k := 0;
    if need <= s.d.win.unread {
      StageAll(e, s, need, r);
    } else {
      var f, more := StageTrip(e, s, need, r);
      RoundIs(e, s, need, f);
      if !Starved(s, f) {
        k := StageVerdict(e, f.ser, need - s.d.win.unread, more);
        RoundsOn(e, s, need, k);
        k := k + 1;
      }
    }
  }

  lemma {:induction false} RoundIs(e: Engine, s: Ser, need: nat, f: Filled)
    requires Refills(e, s, need, f) && need > s.d.win.unread
    ensures f == Round(e, s)
  {
    assert Refilled(e, s, need, f, Now);
    assert TookBytes(s, need) == TookAll(s);
  }

  // One round, then k more.
  lemma {:induction false} RoundsOn(e: Engine, s: Ser, need: nat, k: nat)
    requires Lawful(e) && need > s.d.win.unread && Fruitful(e, s, 0)
    ensures var s1, left := Round(e, s).ser, need - s.d.win.unread;
      && (Reaches(e, s1, left, k) ==> Reaches(e, s, need, k + 1))
      && forall err :: Starves(e, s1, left, k, err) ==> Starves(e, s, need, k + 1, err)
  {
    var s1, left := Round(e, s).ser, need - s.d.win.unread;
    RoundLater(e, s, need, k);
    if Earlier(e, s1, left, k) {
      EarlierOn(e, s, need, k);
    }
  }

  lemma {:induction false} RoundLater(e: Engine, s: Ser, need: nat, i: nat)
    requires Lawful(e) && need > s.d.win.unread
    ensures var s1, left := Round(e, s).ser, need - s.d.win.unread;
      Rounds(e, s, i + 1) == Rounds(e, s1, i) && Poor(e, s, need, i + 1) == Poor(e, s1, left, i) && Fruitful(e, s, i + 1) == Fruitful(e, s1, i)
  {
  }

  lemma {:induction false} EarlierOn(e: Engine, s: Ser, need: nat, k: nat)
    requires Lawful(e) && need > s.d.win.unread && Fruitful(e, s, 0) && Earlier(e, Round(e, s).ser, need - s.d.win.unread, k)
    ensures Earlier(e, s, need, k + 1)
  {
    forall i | 0 <= i < k + 1 ensures Poor(e, s, need, i) && Fruitful(e, s, i) {
      if i > 0 {
        RoundLater(e, s, need, i - 1);
      } else {
        assert Rounds(e, s, 0) == s;
      }
    }
  }

  // ---- A filter that is due.

  // The block at the head of the queue is taken from it.
  function Unqueued(s: Ser): Ser
    requires s.d.fl != []
  {
    s.(d := s.d.(fl := s.d.fl[1..]))
  }

  // A block starts strictly inside another one's range.
  predicate Overlaps(f: FilterBlock, g: FilterBlock) {
    g.start < f.start + f.length
  }

  // A due filter is refused if and only if its input cannot be staged, or a block then queued starts inside
  // its range. A block that merely follows it is no reason.
  lemma {:induction false} DueVerdict(e: Engine, s: Ser, n: nat, base: nat, emitted: seq<byte>, applied: seq<FilterBlock>)
    returns (staged: Got)
    requires Lawful(e) && EmitInv(e, s.d, base, emitted, applied)
    requires s.d.fl != [] && s.d.fl[0].start <= s.d.tot
    ensures Stages(e, Unqueued(s), s.d.fl[0].length, staged)
    ensures staged.ser.d.fl == s.d.fl[1..] + EmitAnnounces(e, s)
    ensures var err, fl := Emit(e, s, n).err, staged.ser.d.fl;
      if staged.err.Some? then err == staged.err && Emit(e, s, n).ser == staged.ser
      else if exists i :: 0 <= i < |fl| && Overlaps(s.d.fl[0], fl[i]) then
        err == Some(InvalidFilter) && fl != [] && Overlaps(s.d.fl[0], fl[0])
      else err.None?
  {
    DueNow(e, s.d, base, emitted, applied);
    KindOk(e, s.d, base, emitted, applied);
    staged := FilterDue(e, s, n);
    StageDelivers(e, Unqueued(s).d, Unqueued(s), s.d.fl[0].length, staged);
    StageQueuesAll(e, s, staged);
    FirstOverlaps(s.d.fl[0], staged.ser.d);
  }

  lemma {:induction false} KindOk(e: Engine, d: Dec, base: nat, emitted: seq<byte>, applied: seq<FilterBlock>)
    requires EmitInv(e, d, base, emitted, applied) && d.fl != []
    ensures d.fl[0].ftype <= 3 && d.fl[0].length > 0
  {
    assert Emits(e, d, base, emitted, applied, Now);
  }

  lemma {:induction false} StageQueuesAll(e: Engine, s: Ser, staged: Got)
    requires s.d.fl != [] && s.d.fl[0].start <= s.d.tot && Stages(e, Unqueued(s), s.d.fl[0].length, staged)
    ensures staged.ser.d.fl == s.d.fl[1..] + EmitAnnounces(e, s)
  {
    var said := StageAnnounces(e, Unqueued(s), s.d.fl[0].length);
    StageQueues(e, Unqueued(s), s.d.fl[0].length, staged, said);
  }

  // In a queue that is in order the first block is the one to look at.
  lemma {:induction false} FirstOverlaps(f: FilterBlock, d: Dec)
    requires QueueOk(d)
    ensures (exists i :: 0 <= i < |d.fl| && Overlaps(f, d.fl[i])) <==> d.fl != [] && Overlaps(f, d.fl[0])
  {
    forall i | 0 <= i < |d.fl| && Overlaps(f, d.fl[i]) ensures Overlaps(f, d.fl[0]) {
      if i > 0 {
        assert d.fl[0].start <= d.fl[i].start;
      }
    }
  }

  // ---- One Read, and a run of them.

  // A state a Read decodes on from: its own, when the window is empty, or one met while staging.
  ghost predicate FillOf(e: Engine, s: Ser, n: nat, at: Ser)
    requires Lawful(e) && Consumed(s.d.win) >= 0
  {
    s.d.outbuf == [] && n > 0 &&
      if s.d.win.unread > 0 then FillOfEmit(e, s, at)
      else at == s || (Soft(Filling(e, s).err) && Filling(e, s).ser.d.win.unread > 0 && FillOfEmit(e, Filling(e, s).ser, at))
  }

  function Filling(e: Engine, s: Ser): (f: Filled)
    requires Lawful(e)
    ensures Consumed(f.ser.d.win) == Consumed(s.d.win)
  {
    SerialFill(e, s, FillTarget(s.d.win))
  }

  ghost predicate FillOfEmit(e: Engine, s: Ser, at: Ser)
    requires Lawful(e)
  {
    && s.d.fl != [] && s.d.fl[0].start <= s.d.tot
    && exists k :: Earlier(e, Unqueued(s), s.d.fl[0].length, k) && Poor(e, Unqueued(s), s.d.fl[0].length, k) && at == TookAll(Rounds(e, Unqueued(s), k))
  }

  // What a Read can fail for.
  datatype Cause = FillFails(at: Ser) | StreamEnds(f: FilterBlock) | BlocksOverlap(i: nat)

  // announced are all the blocks of the member so far, in order; end is where the failure left the decoder.
  ghost predicate Because(e: Engine, c: Cause, err: Error, announced: seq<FilterBlock>, end: Ser)
    requires Lawful(e)
  {
    match c
    case FillFails(at) => Filling(e, at).err == Some(err) && !Soft(Some(err))
    case StreamEnds(f) => err == UnexpectedEOF && f in announced && end.d.win.unread == 0 && end.d.decoded < f.start + f.length
    case BlocksOverlap(i) => err == InvalidFilter && i + 1 < |announced| && Overlaps(announced[i], announced[i + 1])
  }

  lemma {:induction false} EmitVerdict(e: Engine, s: Ser, n: nat, base: nat, emitted: seq<byte>, applied: seq<FilterBlock>)
    returns (c: Cause)
    requires Lawful(e) && EmitInv(e, s.d, base, emitted, applied) && s.d.outbuf == []
    ensures var r := Emit(e, s, n);
      && (r.err.None? && n > 0 && s.d.win.unread > 0 ==> r.out != [])
      && (r.err.Some? ==>
            && Because(e, c, r.err.value, applied + s.d.fl + EmitAnnounces(e, s), r.ser)
            && (c.FillFails? ==> FillOfEmit(e, s, c.at)))
  {
    c := BlocksOverlap(|applied|);
    if s.d.fl == [] || s.d.fl[0].start > s.d.tot {
      return;
    }
    var f := s.d.fl[0];
    DueNow(e, s.d, base, emitted, applied);
    KindOk(e, s.d, base, emitted, applied);
    var staged := DueVerdict(e, s, n, base, emitted, applied);
    if staged.err.None? {
      DueDelivers(e, s, n, base, emitted, applied, staged);
      if Emit(e, s, n).err.Some? {
        NeighboursIn(applied, s.d.fl, EmitAnnounces(e, s));
      }
      return;
    }
    c := StagingFails(e, s, base, emitted, applied, staged);
  }

  // The block due and the one queued next stand side by side among all that were announced.
  lemma {:induction false} NeighboursIn(applied: seq<FilterBlock>, fl: seq<FilterBlock>, more: seq<FilterBlock>)
    requires fl != [] && fl[1..] + more != []
    ensures var a, i := applied + fl + more, |applied|; i + 1 < |a| && a[i] == fl[0] && a[i + 1] == (fl[1..] + more)[0]
  {
  }

  lemma {:induction false} DueDelivers(e: Engine, s: Ser, n: nat, base: nat, emitted: seq<byte>, applied: seq<FilterBlock>, staged: Got)
    requires Lawful(e) && EmitInv(e, s.d, base, emitted, applied) && s.d.fl != [] && s.d.fl[0].start <= s.d.tot
    requires Stages(e, Unqueued(s), s.d.fl[0].length, staged) && staged.err.None? && s.d.fl[0].length > 0
    ensures Emit(e, s, n).err.None? ==> |Emit(e, s, n).out| == Min(n, s.d.fl[0].length)
  {
    var again := FilterDue(e, s, n);
    StageIs(e, Unqueued(s), s.d.fl[0].length, staged);
    StageIs(e, Unqueued(s), s.d.fl[0].length, again);
    DueNow(e, s.d, base, emitted, applied);
    StageDelivers(e, Unqueued(s).d, Unqueued(s), s.d.fl[0].length, staged);
    assert Laws(e, Now);
  }

  lemma {:induction false} StagingFails(e: Engine, s: Ser, base: nat, emitted: seq<byte>, applied: seq<FilterBlock>, staged: Got) returns (c: Cause)
    requires Lawful(e) && EmitInv(e, s.d, base, emitted, applied) && s.d.fl != [] && s.d.fl[0].start == s.d.tot
    requires Stages(e, Unqueued(s), s.d.fl[0].length, staged) && staged.err.Some?
    ensures Because(e, c, staged.err.value, applied + s.d.fl + EmitAnnounces(e, s), staged.ser)
    ensures c.FillFails? ==> FillOfEmit(e, s, c.at)
  {
    var f, s0 := s.d.fl[0], Unqueued(s);
    var k := StageVerdict(e, s0, f.length, staged);
    var t := Rounds(e, s0, k);
    c := FillFails(TookAll(t));
    RoundFails(e, t);
    if Soft(Round(e, t).err) {
      c := StreamEnds(f);
      StageDelivers(e, s0.d, s0, f.length, staged);
      EndsShort(e, s, base, emitted, applied, staged.ser);
      RoundLast(e, s0, k);
      assert (applied + s.d.fl + EmitAnnounces(e, s))[|applied|] == f;
    }
  }

  lemma {:induction false} RoundFails(e: Engine, t: Ser)
    requires Lawful(e)
    ensures Filling(e, TookAll(t)) == Round(e, t)
  {
  }

  lemma {:induction false} RoundLast(e: Engine, s: Ser, k: nat)
    requires Lawful(e)
    ensures Rounds(e, s, k + 1) == Round(e, Rounds(e, s, k)).ser
    decreases k
  {
    if k > 0 {
      RoundLast(e, Round(e, s).ser, k - 1);
    } else {
      assert Rounds(e, Round(e, s).ser, 0) == Round(e, s).ser;
    }
  }

  // What was decoded by then, counted from the start of the member.
  lemma {:induction false} EndsShort(e: Engine, s: Ser, base: nat, emitted: seq<byte>, applied: seq<FilterBlock>, end: Ser)
    requires EmitInv(e, s.d, base, emitted, applied) && s.d.fl != [] && Decoded(Unqueued(s).d, end.d)
    ensures Consumed(s.d.win) == base + s.d.tot && |end.d.win.hist| == base + end.d.decoded
  {
    assert Emits(e, s.d, base, emitted, applied, Now);
  }

  // A Read with room returns a byte, unless it reports the end, which it does only when there is nothing left
  // to decode, or fails: then a fill it made failed, the stream ended inside a block, or two announced blocks
  // overlap.
  lemma {:induction false} ReadVerdict(e: Engine, s: Ser, n: nat, base: nat, emitted: seq<byte>, applied: seq<FilterBlock>)
    returns (c: Cause)
    requires Lawful(e) && EmitInv(e, s.d, base, emitted, applied)
    ensures var r := Read(e, s, n);
      && (r.err.None? && n > 0 ==> r.out != [])
      && (r.err.Some? && Soft(r.err) ==>
            && r.err == Some(EOF) && r.out == [] && s.d.outbuf == [] && s.d.win.unread == 0
            && Soft(Filling(e, s).err) && Filling(e, s).ser.d.win.unread == 0)
      && (!Soft(r.err) ==>
            && Because(e, c, r.err.value, applied + s.d.fl + ReadAnnounces(e, s, n), r.ser)
            && (c.FillFails? ==> FillOf(e, s, n, c.at)))
  {
    c := FillFails(s);
    if s.d.outbuf != [] || n == 0 {
      return;
    }
    if s.d.win.unread > 0 {
      c := EmitVerdict(e, s, n, base, emitted, applied);
    } else if Soft(Filling(e, s).err) && Filling(e, s).ser.d.win.unread > 0 {
      c := FilledVerdict(e, s, n, base, emitted, applied);
    }
  }

  lemma {:induction false} FilledVerdict(e: Engine, s: Ser, n: nat, base: nat, emitted: seq<byte>, applied: seq<FilterBlock>)
    returns (c: Cause)
    requires Lawful(e) && EmitInv(e, s.d, base, emitted, applied) && s.d.outbuf == [] && n > 0 && s.d.win.unread == 0
    requires Soft(Filling(e, s).err) && Filling(e, s).ser.d.win.unread > 0
    ensures var r := Read(e, s, n);
      && (r.err.None? ==> r.out != [])
      && (r.err.Some? ==>
            && Because(e, c, r.err.value, applied + s.d.fl + ReadAnnounces(e, s, n), r.ser)
            && (c.FillFails? ==> FillOf(e, s, n, c.at)))
  {
    var target, s1 := FillTarget(s.d.win), Filling(e, s).ser;
    FillKeepsInv(e, s, target, base, emitted, applied);
    FillQueues(e, s, target);
    c := EmitVerdict(e, s1, n, base, emitted, applied);
    Assoc(applied, s.d.fl, FillAnnounces(e, s, target));
    Assoc(applied + s.d.fl, FillAnnounces(e, s, target), EmitAnnounces(e, s1));
  }

  ghost predicate FillOfRun(e: Engine, s: Ser, sizes: seq<nat>, at: Ser)
    requires Lawful(e) && Consumed(s.d.win) >= 0
    decreases |sizes|
  {
    sizes != [] &&
      (FillOf(e, s, sizes[0], at) || (Soft(Read(e, s, sizes[0]).err) && FillOfRun(e, Read(e, s, sizes[0]).ser, sizes[1..], at)))
  }

  // So does any run: it fails for one of these, in one of its calls.
  lemma {:induction false} RunVerdict(e: Engine, s: Ser, sizes: seq<nat>, base: nat, emitted: seq<byte>, applied: seq<FilterBlock>)
    returns (c: Cause)
    requires Lawful(e) && Consumed(s.d.win) >= 0 && EmitInv(e, s.d, base, emitted, applied)
    ensures var r := Run(e, s, sizes);
      !Soft(r.Err()) ==>
        && Because(e, c, r.Err().value, applied + s.d.fl + RunAnnounces(e, s, sizes), r.ser)
        && (c.FillFails? ==> FillOfRun(e, s, sizes, c.at))
    decreases |sizes|
  {
    c := FillFails(s);
    if sizes != [] {
      c := ReadVerdict(e, s, sizes[0], base, emitted, applied);
      var Got(s1, out, err) := Read(e, s, sizes[0]);
      var said := applied + s.d.fl + ReadAnnounces(e, s, sizes[0]);
      if Soft(err) {
        var applied1 := ReadEmits(e, s, sizes[0], base, emitted, applied);
        c := RunVerdict(e, s1, sizes[1..], base, emitted + out, applied1);
        LastReply(Reply(out, err), Run(e, s1, sizes[1..]));
        Assoc(applied + s.d.fl, ReadAnnounces(e, s, sizes[0]), RunAnnounces(e, s1, sizes[1..]));
      } else {
        assert said + [] == said;
        Assoc(applied + s.d.fl, ReadAnnounces(e, s, sizes[0]), []);
      }
    }
  }

  lemma {:induction false} LastReply(reply: Reply, more: Ran)
    ensures Ran(more.ser, [reply] + more.replies).Err() == if more.replies == [] then reply.err else more.Err()
  {
  }

  // No block starts inside the one before it.
  ghost predicate Apart(blocks: seq<FilterBlock>) {
    forall i, j :: 0 <= i < j < |blocks| && j == i + 1 ==> !Overlaps(blocks[i], blocks[j])
  }

  lemma {:induction false} ApartAt(blocks: seq<FilterBlock>, i: nat)
    requires Apart(blocks)
    ensures i + 1 < |blocks| ==> !Overlaps(blocks[i], blocks[i + 1])
  {
  }

  // If no block that was announced starts inside the one before it and no fill fails, the only thing that can
  // be wrong is a stream that ends inside a block.
  lemma {:induction false} RunSucceeds(e: Engine, s: Ser, sizes: seq<nat>, base: nat, emitted: seq<byte>, applied: seq<FilterBlock>)
    requires Lawful(e) && Consumed(s.d.win) >= 0 && EmitInv(e, s.d, base, emitted, applied)
    requires Apart(applied + s.d.fl + RunAnnounces(e, s, sizes))
    requires forall at :: FillOfRun(e, s, sizes, at) ==> Soft(Filling(e, at).err)
    ensures var r, a := Run(e, s, sizes), applied + s.d.fl + RunAnnounces(e, s, sizes);
      || Soft(r.Err())
      || (r.Err() == Some(UnexpectedEOF) && r.ser.d.win.unread == 0 && exists f :: f in a && r.ser.d.decoded < f.start + f.length)
  {
    var c := RunVerdict(e, s, sizes, base, emitted, applied);
    ApartAt(applied + s.d.fl + RunAnnounces(e, s, sizes), if c.BlocksOverlap? then c.i else 0);
  }
}
