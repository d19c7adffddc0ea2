// A whole member: written by an encoder, read by any calls of Read. What comes out is the plain stream with
// each of its filters applied, and no call fails (decoder50.go:294-458).

module WholeMember {
  import opened Basics
  import opened DecodeTypes
  import opened Serial
  import opened Emission
  import opened Emitted
  import opened Verdict
  import opened Written
  import Agreement
  import Apply
  import Rar5
  import Rar5Laws

  // All of the operations, whatever is unread.
  function PlayAll(d: Dec, ops: seq<Op>): Applied
    decreases |ops|
  {
    if ops == [] then Applied(d, None)
    else
      var a := Apply.ApplyOp(d, ops[0]);
      if a.err.Some? then a else PlayAll(a.d, ops[1..])
  }

  // d is w with some of it read, the first of its filters applied and gone.
  ghost predicate Behind(d: Dec, w: Dec, applied: seq<FilterBlock>) {
    && d.win.hist == w.win.hist && d.win.size == w.win.size && d.decoded == w.decoded
    && d.offset == w.offset && d.length == w.length && d.dictSize == w.dictSize
    && w.fl == applied + d.fl
  }

  // What is accepted with nothing read is accepted, and does the same, with some of it read.
  lemma {:induction false} AppliesBehind(d: Dec, w: Dec, applied: seq<FilterBlock>, op: Op)
    requires Behind(d, w, applied) && Apply.ApplyOp(w, op).err.None?
    ensures Apply.ApplyOp(d, op).err.None? && Behind(Apply.ApplyOp(d, op).d, Apply.ApplyOp(w, op).d, applied)
  {
    if op.Filter? && d.fl != [] {
      assert w.fl[|w.fl| - 1] == d.fl[|d.fl| - 1];
    }
  }

  // Playing on from d until there is enough keeps it behind, with the rest still to be accepted.
  lemma {:induction false} PlaysBehind(d: Dec, w: Dec, applied: seq<FilterBlock>, ops: seq<Op>, target: nat, whole: Dec) returns (w': Dec)
    requires Behind(d, w, applied) && PlayAll(w, ops) == Applied(whole, None)
    ensures var p := Play(d, ops, target);
      && p.err.None? && Behind(p.d, w', applied) && PlayAll(w', p.rest) == Applied(whole, None)
      && (p.d.win.unread >= target || p.rest == []) && p.d.win.size == d.win.size
    decreases |ops|
  {
    w' := w;
    if d.win.unread < target && ops != [] {
      AppliesBehind(d, w, applied, ops[0]);
      w' := PlaysBehind(Apply.ApplyOp(d, ops[0]).d, Apply.ApplyOp(w, ops[0]).d, applied, ops[1..], target, whole);
    }
  }

  // ---- Staying on the way to the whole.

  // The decoder stands somewhere in the member, with the filters before it applied.
  ghost predicate OnWay(s: Ser, applied: seq<FilterBlock>, whole: Dec, tail: seq<byte>) {
    s.d.win.size > 1 && exists ops, blocks, w :: Here(s, applied, whole, tail, ops, blocks, w)
  }

  ghost predicate Here(s: Ser, applied: seq<FilterBlock>, whole: Dec, tail: seq<byte>, ops: seq<Op>, blocks: seq<BlockText>, w: Dec) {
    Stands(s.at, ops, blocks, tail) && Behind(s.d, w, applied) && PlayAll(w, ops + AllOps(blocks)) == Applied(whole, None)
  }

  // Reading from the window, and what is read, play no part.
  lemma {:induction false} OnWaySame(s: Ser, s1: Ser, applied: seq<FilterBlock>, whole: Dec, tail: seq<byte>)
    requires OnWay(s, applied, whole, tail) && s1.at == s.at
    requires exists w: Win, tot, outbuf :: w.hist == s.d.win.hist && w.size == s.d.win.size && s1.d == s.d.(win := w, tot := tot, outbuf := outbuf)
    ensures OnWay(s1, applied, whole, tail)
  {
    var ops, blocks, w :| Here(s, applied, whole, tail, ops, blocks, w);
    assert Here(s1, applied, whole, tail, ops, blocks, w);
  }

  lemma {:induction false} OnWayUnqueued(s: Ser, applied: seq<FilterBlock>, whole: Dec, tail: seq<byte>)
    requires OnWay(s, applied, whole, tail) && s.d.fl != []
    ensures OnWay(Unqueued(s), applied + [s.d.fl[0]], whole, tail)
  {
    var ops, blocks, w :| Here(s, applied, whole, tail, ops, blocks, w);
    assert applied + s.d.fl == (applied + [s.d.fl[0]]) + s.d.fl[1..];
    assert Here(Unqueued(s), applied + [s.d.fl[0]], whole, tail, ops, blocks, w);
  }

  // A fill goes on without fail, and ends only when all has been decoded.
  lemma {:induction false} OnWayFills(e: Engine, s: Ser, applied: seq<FilterBlock>, whole: Dec, tail: seq<byte>)
    requires e == Rar5Laws.Rar5Engine() && Lawful(e) && OnWay(s, applied, whole, tail)
    ensures var r := Filling(e, s);
      && Soft(r.err) && OnWay(r.ser, applied, whole, tail)
      && (r.ser.d.win.unread == 0 ==> r.ser.d.win.hist == whole.win.hist && r.ser.d.decoded == whole.decoded)
  {
    var ops, blocks, w :| Here(s, applied, whole, tail, ops, blocks, w);
    var target := FillTarget(s.d.win);
    var ops', blocks' := FillPlays(e, s, ops, blocks, tail, target);
    assert PlaysNow(e, s, ops + AllOps(blocks), target, ops', blocks', tail, Now);
    var w' := PlaysBehind(s.d, w, applied, ops + AllOps(blocks), target, whole);
    assert target > 0;
    assert Here(Filling(e, s).ser, applied, whole, tail, ops', blocks', w');
  }

  // What has been decoded, and what is queued or applied, is a front part of the whole.
  lemma {:induction false} PlayAllGrows(w: Dec, ops: seq<Op>)
    ensures var a := PlayAll(w, ops);
      a.err.None? ==> w.win.hist <= a.d.win.hist && w.fl <= a.d.fl && |a.d.win.hist| - a.d.decoded == |w.win.hist| - w.decoded
    decreases |ops|
  {
    if ops != [] {
      Apply.AppliedGrown(w, ops[0]);
      Apply.AppliedQueues(w, ops[0]);
      PlayAllGrows(Apply.ApplyOp(w, ops[0]).d, ops[1..]);
    }
  }

  lemma {:induction false} OnWayPart(s: Ser, applied: seq<FilterBlock>, whole: Dec, tail: seq<byte>)
    requires OnWay(s, applied, whole, tail)
    ensures s.d.win.hist <= whole.win.hist && applied + s.d.fl <= whole.fl
    ensures |whole.win.hist| - whole.decoded == |s.d.win.hist| - s.d.decoded
  {
    var ops, blocks, w :| Here(s, applied, whole, tail, ops, blocks, w);
    PlayAllGrows(w, ops + AllOps(blocks));
  }

  // ---- Reading.

  lemma {:induction false} RoundOnWay(e: Engine, s: Ser, applied: seq<FilterBlock>, whole: Dec, tail: seq<byte>)
    requires e == Rar5Laws.Rar5Engine() && Lawful(e) && OnWay(s, applied, whole, tail)
    ensures var r := Round(e, s);
      && Soft(r.err) && OnWay(r.ser, applied, whole, tail)
      && (r.ser.d.win.unread == 0 ==> r.ser.d.win.hist == s.d.win.hist == whole.win.hist)
  {
    OnWaySame(s, TookAll(s), applied, whole, tail);
    OnWayFills(e, TookAll(s), applied, whole, tail);
    RoundFails(e, s);
    OnWayPart(s, applied, whole, tail);
  }

  lemma {:induction false} RoundsOnWay(e: Engine, s: Ser, k: nat, applied: seq<FilterBlock>, whole: Dec, tail: seq<byte>)
    requires e == Rar5Laws.Rar5Engine() && Lawful(e) && OnWay(s, applied, whole, tail)
    ensures OnWay(Rounds(e, s, k), applied, whole, tail)
    decreases k
  {
    if k > 0 {
      RoundOnWay(e, s, applied, whole, tail);
      RoundsOnWay(e, Round(e, s).ser, k - 1, applied, whole, tail);
    }
  }

  // Staging never comes to the end of the stream before it has what the stream holds.
  lemma {:induction false} StageOnWay(e: Engine, s: Ser, need: nat, r: Got, applied: seq<FilterBlock>, whole: Dec, tail: seq<byte>)
    requires e == Rar5Laws.Rar5Engine() && Stages(e, s, need, r) && OnWay(s, applied, whole, tail)
    requires Consumed(s.d.win) + need <= |whole.win.hist|
    ensures r.err.None?
  {
    var k := StageVerdict(e, s, need, r);
    RoundsOnWay(e, s, k, applied, whole, tail);
    RoundOnWay(e, Rounds(e, s, k), applied, whole, tail);
  }

  lemma {:induction false} StagedOnWay(e: Engine, s: Ser, need: nat, r: Got, applied: seq<FilterBlock>, whole: Dec, tail: seq<byte>)
    requires e == Rar5Laws.Rar5Engine() && Stages(e, s, need, r) && OnWay(s, applied, whole, tail)
    ensures OnWay(r.ser, applied, whole, tail)
    decreases need, s.d.win.unread == 0
  {
    if need <= s.d.win.unread {
      StageAll(e, s, need, r);
      OnWaySame(s, r.ser, applied, whole, tail);
    } else {
      var f, more := StageTrip(e, s, need, r);
      RoundIs(e, s, need, f);
      RoundOnWay(e, s, applied, whole, tail);
      if !Starved(s, f) {
        StagedOnWay(e, f.ser, need - s.d.win.unread, more, applied, whole, tail);
      }
    }
  }

  // The blocks of the whole lie apart, and inside it.
  ghost predicate Sound(whole: Dec, base: nat) {
    && Apart(whole.fl) && |whole.win.hist| == base + whole.decoded
    && forall f :: f in whole.fl ==> f.start + f.length <= whole.decoded
  }

  lemma {:induction false} NextApart(whole: Dec, base: nat, front: seq<FilterBlock>, f: FilterBlock, fl: seq<FilterBlock>)
    requires Sound(whole, base) && (front + [f]) + fl <= whole.fl && fl != []
    ensures !Overlaps(f, fl[0])
  {
    ApartAt(whole.fl, |front|);
    assert whole.fl[|front|] == ((front + [f]) + fl)[|front|] && whole.fl[|front| + 1] == ((front + [f]) + fl)[|front| + 1];
  }

  // A filter that is due is applied.
  lemma {:induction false} DueOnWay(e: Engine, s: Ser, n: nat, base: nat, emitted: seq<byte>, applied: seq<FilterBlock>, whole: Dec, tail: seq<byte>)
    requires e == Rar5Laws.Rar5Engine() && Lawful(e) && EmitInv(e, s.d, base, emitted, applied)
    requires OnWay(s, applied, whole, tail) && Sound(whole, base) && s.d.fl != [] && s.d.fl[0].start <= s.d.tot
    ensures Emit(e, s, n).err.None? && OnWay(Emit(e, s, n).ser, applied + [s.d.fl[0]], whole, tail)
  {
    var f, s0, now := s.d.fl[0], Unqueued(s), applied + [s.d.fl[0]];
    DueNow(e, s.d, base, emitted, applied);
    OnWayPart(s, applied, whole, tail);
    assert f == (applied + s.d.fl)[|applied|] && f in whole.fl;
    OnWayUnqueued(s, applied, whole, tail);
    var staged := DueVerdict(e, s, n, base, emitted, applied);
    StageOnWay(e, s0, f.length, staged, now, whole, tail);
    StagedOnWay(e, s0, f.length, staged, now, whole, tail);
    OnWayPart(staged.ser, now, whole, tail);
    if staged.ser.d.fl != [] {
      NextApart(whole, base, applied, f, staged.ser.d.fl);
    }
    DueState(e, s, n, staged);
    OnWaySame(staged.ser, Emit(e, s, n).ser, now, whole, tail);
  }

  // Only tot and outbuf are touched after staging.
  lemma {:induction false} DueState(e: Engine, s: Ser, n: nat, staged: Got)
    requires Lawful(e) && Consumed(s.d.win) >= 0 && s.d.fl != [] && s.d.fl[0].start <= s.d.tot
    requires Stages(e, Unqueued(s), s.d.fl[0].length, staged) && Emit(e, s, n).err.None?
    ensures var r := Emit(e, s, n).ser; r.at == staged.ser.at && r.d == staged.ser.d.(tot := r.d.tot, outbuf := r.d.outbuf)
  {
    var again := FilterDue(e, s, n);
    StageIs(e, Unqueued(s), s.d.fl[0].length, staged);
    StageIs(e, Unqueued(s), s.d.fl[0].length, again);
  }

  // The decoder is on its way, with emitted out and applied done.
  ghost predicate Going(e: Engine, s: Ser, base: nat, emitted: seq<byte>, applied: seq<FilterBlock>, whole: Dec, tail: seq<byte>) {
    EmitInv(e, s.d, base, emitted, applied) && OnWay(s, applied, whole, tail)
  }

  lemma {:induction false} CopyGoes(e: Engine, s: Ser, n: nat, base: nat, emitted: seq<byte>, applied: seq<FilterBlock>, whole: Dec, tail: seq<byte>)
    requires Going(e, s, base, emitted, applied, whole, tail) && s.d.outbuf == [] && (s.d.fl == [] || s.d.tot + n <= s.d.fl[0].start)
    ensures var r := Copy(s, n); Going(e, r.ser, base, emitted + r.out, applied, whole, tail)
  {
    CopyEmits(e, s, n, base, emitted, applied);
    OnWaySame(s, Copy(s, n).ser, applied, whole, tail);
  }

  lemma {:induction false} EmitGoes(e: Engine, s: Ser, n: nat, base: nat, emitted: seq<byte>, applied: seq<FilterBlock>, whole: Dec, tail: seq<byte>)
    returns (applied': seq<FilterBlock>)
    requires e == Rar5Laws.Rar5Engine() && Lawful(e) && Going(e, s, base, emitted, applied, whole, tail) && Sound(whole, base) && s.d.outbuf == []
    ensures var r := Emit(e, s, n); r.err.None? && Going(e, r.ser, base, emitted + r.out, applied', whole, tail)
  {
    applied' := applied;
    if s.d.fl == [] {
      CopyGoes(e, s, n, base, emitted, applied, whole, tail);
    } else if s.d.fl[0].start > s.d.tot {
      CopyGoes(e, s, Min(s.d.fl[0].start - s.d.tot, n), base, emitted, applied, whole, tail);
    } else {
      applied' := applied + [s.d.fl[0]];
      DueOnWay(e, s, n, base, emitted, applied, whole, tail);
      FilterEmits(e, s, n, base, emitted, applied);
    }
  }

  lemma {:induction false} ReadGoes(e: Engine, s: Ser, n: nat, base: nat, emitted: seq<byte>, applied: seq<FilterBlock>, whole: Dec, tail: seq<byte>)
    returns (applied': seq<FilterBlock>)
    requires e == Rar5Laws.Rar5Engine() && Lawful(e) && Going(e, s, base, emitted, applied, whole, tail) && Sound(whole, base)
    ensures var r := Read(e, s, n);
      && Soft(r.err) && Going(e, r.ser, base, emitted + r.out, applied', whole, tail)
      && (r.err.Some? ==> r.ser.d.win.unread == 0 && r.ser.d.outbuf == [] && r.ser.d.win.hist == whole.win.hist)
  {
    applied' := applied;
    if s.d.outbuf != [] {
      Drains(e, s.d, Min(n, |s.d.outbuf|), base, emitted, applied);
      OnWaySame(s, Read(e, s, n).ser, applied, whole, tail);
    } else if n == 0 {
      assert emitted + [] == emitted;
    } else if s.d.win.unread > 0 {
      applied' := EmitGoes(e, s, n, base, emitted, applied, whole, tail);
    } else {
      var s1 := Filling(e, s).ser;
      FillKeepsInv(e, s, FillTarget(s.d.win), base, emitted, applied);
      OnWayFills(e, s, applied, whole, tail);
      if s1.d.win.unread == 0 {
        assert emitted + [] == emitted;
      } else {
        applied' := EmitGoes(e, s1, n, base, emitted, applied, whole, tail);
      }
    }
  }

  lemma {:induction false} RunGoes(e: Engine, s: Ser, sizes: seq<nat>, base: nat, emitted: seq<byte>, applied: seq<FilterBlock>, whole: Dec, tail: seq<byte>)
    returns (applied': seq<FilterBlock>)
    requires e == Rar5Laws.Rar5Engine() && Lawful(e) && Consumed(s.d.win) >= 0
    requires Going(e, s, base, emitted, applied, whole, tail) && Sound(whole, base)
    ensures var r := Run(e, s, sizes);
      && Soft(r.Err()) && Going(e, r.ser, base, emitted + r.Out(), applied', whole, tail)
      && (r.Err().Some? ==> r.ser.d.win.unread == 0 && r.ser.d.outbuf == [] && r.ser.d.win.hist == whole.win.hist)
    decreases |sizes|
  {
    applied' := applied;
    if sizes == [] {
      assert emitted + [] == emitted;
    } else {
      var Got(s1, out, err) := Read(e, s, sizes[0]);
      var applied1 := ReadGoes(e, s, sizes[0], base, emitted, applied, whole, tail);
      applied' := RunGoes(e, s1, sizes[1..], base, emitted + out, applied1, whole, tail);
      var more := Run(e, s1, sizes[1..]);
      assert Run(e, s, sizes) == Ran(more.ser, [Reply(out, err)] + more.replies);
      RunOn(Reply(out, err), more);
      LastReply(Reply(out, err), more);
      Assoc(emitted, out, more.Out());
      if more.replies == [] {
        NoMore(e, s1, sizes[1..]);
      }
    }
  }

  lemma {:induction false} NoMore(e: Engine, s: Ser, sizes: seq<nat>)
    requires Lawful(e) && Consumed(s.d.win) >= 0 && Run(e, s, sizes).replies == []
    ensures Run(e, s, sizes).ser == s
  {
  }

  // ---- The whole stream.

  // Blocks that lie apart, the last of them inside n bytes.
  lemma {:induction false} ApartFits(fl: seq<FilterBlock>, n: nat)
    requires Apart(fl) && (fl != [] ==> fl[|fl| - 1].start + fl[|fl| - 1].length <= n)
    ensures Fits(fl, n)
    decreases |fl|
  {
    if fl != [] {
      var front, f := fl[..|fl| - 1], fl[|fl| - 1];
      forall i, j | 0 <= i < j < |front| && j == i + 1 ensures !Overlaps(front[i], front[j]) {
        assert !Overlaps(fl[i], fl[j]);
      }
      if front != [] {
        ApartAt(fl, |front| - 1);
      }
      ApartFits(front, f.start);
    }
  }

  // The decoded stream with every block filtered.
  ghost function Finished(e: Engine, whole: Dec, base: nat): seq<byte>
    requires FiltersKeepLength(e) && Sound(whole, base)
  {
    ApartFits(whole.fl, whole.decoded);
    Transformed(e, Stream(whole, base), whole.fl)
  }

  lemma {:induction false} CutShort(y: seq<byte>, z: seq<byte>, n: nat)
    requires |y| <= n <= |y + z|
    ensures (y + z)[..n] == y + z[..n - |y|]
  {
  }

  // A stream with some of its blocks filtered is a front part of the one with all of them filtered, if the
  // rest start behind it.
  lemma {:induction false} TransformedFront(e: Engine, y: seq<byte>, n: nat, fs: seq<FilterBlock>, gs: seq<FilterBlock>)
    requires FiltersKeepLength(e) && n <= |y| && Fits(fs, n) && Fits(fs + gs, |y|)
    requires forall i :: 0 <= i < |gs| ==> gs[i].start >= n
    ensures Transformed(e, y[..n], fs) == Transformed(e, y, fs + gs)[..n]
    decreases |gs|
  {
    if gs == [] {
      assert fs + gs == fs && y == y[..n] + y[n..];
      TransformedPlain(e, y[..n], y[n..], fs);
    } else {
      var f, front := gs[|gs| - 1], gs[..|gs| - 1];
      LastBlock(fs, gs);
      assert y[..f.start][..n] == y[..n];
      TransformedFront(e, y[..f.start], n, fs, front);
      FrontKept(Transformed(e, y[..f.start], fs + front), e.RunFilter(f, y[f.start..f.start + f.length], f.start),
                y[f.start + f.length..], n);
    }
  }

  lemma {:induction false} LastBlock(fs: seq<FilterBlock>, gs: seq<FilterBlock>)
    requires gs != []
    ensures var all := fs + gs; all[..|all| - 1] == fs + gs[..|gs| - 1] && all[|all| - 1] == gs[|gs| - 1]
  {
  }

  lemma {:induction false} FrontKept(a: seq<byte>, b: seq<byte>, c: seq<byte>, n: nat)
    requires n <= |a|
    ensures (a + b + c)[..n] == a[..n]
  {
  }

  // A member that was written and whose operations are all sound: read by any calls it never fails, what has
  // come out is a front part of the plain stream with all its filters applied, and at the end it is all of it.
  lemma {:induction false} MemberComesOut(e: Engine, win: Win, dictSize: int, tables: Tables, blocks: seq<BlockText>, tail: seq<byte>, sizes: seq<nat>, whole: Dec)
    requires e == Rar5Laws.Rar5Engine() && Lawful(e) && FiltersKeepLength(e) && win.size > 1
    requires blocks != [] && SourceOk(tables, blocks)
    requires PlayAll(Rar5.Fresh(win, dictSize), AllOps(blocks)) == Applied(whole, None) && Sound(whole, |win.hist|)
    ensures var s := Ser(Rar5.Fresh(win, dictSize), Place(None, tables, false, Source(tables, blocks, tail)));
      var r := Run(e, s, sizes);
      && Soft(r.Err()) && r.Out() <= Finished(e, whole, |win.hist|)
      && (r.Err().Some? ==> r.Out() == Finished(e, whole, |win.hist|))
  {
    var base, d := |win.hist|, Rar5.Fresh(win, dictSize);
    var s := Ser(d, Place(None, tables, false, Source(tables, blocks, tail)));
    FreshGoes(e, d, s.at, base, blocks, tail, whole);
    var applied := RunGoes(e, s, sizes, base, [], [], whole, tail);
    var r := Run(e, s, sizes);
    assert [] + r.Out() == r.Out();
    ComesOut(e, r.ser, base, r.Out(), applied, whole, tail, r.Err());
  }

  lemma {:induction false} FreshGoes(e: Engine, d: Dec, at: Place, base: nat, blocks: seq<BlockText>, tail: seq<byte>, whole: Dec)
    requires FiltersKeepLength(e) && |d.win.hist| == base && d.win.unread == 0 && d.win.size > 1
    requires d.fl == [] && d.outbuf == [] && d.tot == d.decoded == 0
    requires blocks != [] && SourceOk(at.tables, blocks) && at.br.None? && at.src == Source(at.tables, blocks, tail)
    requires PlayAll(d, AllOps(blocks)) == Applied(whole, None)
    ensures Going(e, Ser(d, at), base, [], [], whole, tail)
  {
    FreshEmits(e, d, base);
    assert [] + AllOps(blocks) == AllOps(blocks);
    StandsFirst(at, blocks, tail);
    BehindItself(d);
    assert Here(Ser(d, at), [], whole, tail, [], blocks, d);
  }

  lemma {:induction false} FreshEmits(e: Engine, d: Dec, base: nat)
    requires FiltersKeepLength(e) && |d.win.hist| == base && d.win.unread == 0
    requires d.fl == [] && d.outbuf == [] && d.tot == d.decoded == 0
    ensures EmitInv(e, d, base, [], [])
  {
    assert Stream(d, base)[..0] == [];
  }

  lemma {:induction false} StandsFirst(at: Place, blocks: seq<BlockText>, tail: seq<byte>)
    requires blocks != [] && SourceOk(at.tables, blocks) && at.br.None? && at.src == Source(at.tables, blocks, tail)
    ensures Stands(at, [], blocks, tail)
  {
  }

  lemma {:induction false} BehindItself(d: Dec)
    ensures Behind(d, d, [])
  {
    assert [] + d.fl == d.fl;
  }

  // Where the decoder has got to says what has come out.
  lemma {:induction false} ComesOut(e: Engine, s: Ser, base: nat, out: seq<byte>, applied: seq<FilterBlock>, whole: Dec, tail: seq<byte>, err: Option<Error>)
    requires FiltersKeepLength(e) && Going(e, s, base, out, applied, whole, tail) && Sound(whole, base)
    requires err.Some? ==> s.d.win.unread == 0 && s.d.outbuf == [] && s.d.win.hist == whole.win.hist
    ensures out <= Finished(e, whole, base) && (err.Some? ==> out == Finished(e, whole, base))
  {
    FrontOut(e, s, base, out, applied, whole, tail);
    var f := Finished(e, whole, base);
    assert out == (out + s.d.outbuf)[..|out|];
    if err.Some? {
      AllRead(e, s, base, out, applied, whole);
      assert out + s.d.outbuf == out && f[..|f|] == f;
    }
  }

  // With nothing unread and everything decoded, everything is out.
  lemma {:induction false} AllRead(e: Engine, s: Ser, base: nat, out: seq<byte>, applied: seq<FilterBlock>, whole: Dec)
    requires EmitInv(e, s.d, base, out, applied) && s.d.win.unread == 0 && |s.d.win.hist| == |whole.win.hist| == base + whole.decoded
    ensures s.d.tot == whole.decoded
  {
    assert Emits(e, s.d, base, out, applied, Now);
  }

  lemma {:induction false} FrontOut(e: Engine, s: Ser, base: nat, out: seq<byte>, applied: seq<FilterBlock>, whole: Dec, tail: seq<byte>)
    requires FiltersKeepLength(e) && Going(e, s, base, out, applied, whole, tail) && Sound(whole, base)
    ensures var f := Finished(e, whole, base);
      |f| == whole.decoded && s.d.tot <= |f| && out + s.d.outbuf == f[..s.d.tot]
  {
    OnWayPart(s, applied, whole, tail);
    RestBehind(e, s, base, out, applied, whole, tail);
    EmittedSoFar(e, s.d, base, out, applied);
    FrontOfWhole(s.d, whole, base);
    var y, n, gs := Stream(whole, base), s.d.tot, whole.fl[|applied|..];
    ApartFitsAll(whole, base);
    assert whole.fl == applied + gs;
    TransformedFront(e, y, n, applied, gs);
  }

  lemma {:induction false} ApartFitsAll(whole: Dec, base: nat)
    requires Sound(whole, base)
    ensures Fits(whole.fl, whole.decoded) && |Stream(whole, base)| == whole.decoded
  {
    ApartFits(whole.fl, whole.decoded);
  }

  lemma {:induction false} EmittedSoFar(e: Engine, d: Dec, base: nat, out: seq<byte>, applied: seq<FilterBlock>)
    requires EmitInv(e, d, base, out, applied)
    ensures FiltersKeepLength(e) && |d.win.hist| == base + d.decoded && d.tot <= d.decoded && Fits(applied, d.tot)
    ensures out + d.outbuf == Transformed(e, Stream(d, base)[..d.tot], applied)
  {
    assert Emits(e, d, base, out, applied, Now);
  }

  lemma {:induction false} FrontOfWhole(d: Dec, whole: Dec, base: nat)
    requires d.win.hist <= whole.win.hist && |d.win.hist| == base + d.decoded && d.tot <= d.decoded
    ensures d.tot <= |Stream(whole, base)| && Stream(d, base)[..d.tot] == Stream(whole, base)[..d.tot]
  {
  }

  // The blocks not yet applied start behind what has been emitted: those that are queued, and those that have
  // still to be announced.
  lemma {:induction false} RestBehind(e: Engine, s: Ser, base: nat, out: seq<byte>, applied: seq<FilterBlock>, whole: Dec, tail: seq<byte>)
    requires Going(e, s, base, out, applied, whole, tail) && Sound(whole, base)
    ensures applied <= whole.fl && forall i :: |applied| <= i < |whole.fl| ==> whole.fl[i].start >= s.d.tot
  {
    assert Emits(e, s.d, base, out, applied, Now);
    OnWayPart(s, applied, whole, tail);
    var ops, blocks, w :| Here(s, applied, whole, tail, ops, blocks, w);
    LaterBehind(w, ops + AllOps(blocks), whole);
    forall i | |applied| <= i < |whole.fl| ensures whole.fl[i].start >= s.d.tot {
      if i < |w.fl| {
        assert whole.fl[i] == w.fl[i] == s.d.fl[i - |applied|];
      }
    }
  }

  lemma {:induction false} LaterBehind(w: Dec, ops: seq<Op>, whole: Dec)
    requires PlayAll(w, ops) == Applied(whole, None)
    ensures w.fl <= whole.fl && w.decoded <= whole.decoded && forall i :: |w.fl| <= i < |whole.fl| ==> whole.fl[i].start >= w.decoded
    decreases |ops|
  {
    if ops != [] {
      var w1 := Apply.ApplyOp(w, ops[0]).d;
      Apply.AppliedQueues(w, ops[0]);
      Apply.AppliedGrown(w, ops[0]);
      LaterBehind(w1, ops[1..], whole);
      forall i | |w.fl| <= i < |whole.fl| ensures whole.fl[i].start >= w.decoded {
        if i < |w1.fl| {
          assert whole.fl[i] == w1.fl[i];
        }
      }
    }
  }

  // ---- It comes to an end.

  ghost predicate Done(s: Ser, whole: Dec) {
    s.d.win.unread == 0 && s.d.outbuf == [] && s.d.win.hist == whole.win.hist
  }

  // The end is reported again and again.
  lemma {:induction false} DoneStays(e: Engine, s: Ser, n: nat, base: nat, emitted: seq<byte>, applied: seq<FilterBlock>, whole: Dec, tail: seq<byte>)
    requires e == Rar5Laws.Rar5Engine() && Lawful(e) && Going(e, s, base, emitted, applied, whole, tail) && Done(s, whole) && n > 0
    ensures var r := Read(e, s, n); r.err == Some(EOF) && r.out == [] && Done(r.ser, whole)
    ensures Going(e, Read(e, s, n).ser, base, emitted, applied, whole, tail)
  {
    var s1 := Filling(e, s).ser;
    OnWayFills(e, s, applied, whole, tail);
    OnWayPart(s1, applied, whole, tail);
    FillKeepsInv(e, s, FillTarget(s.d.win), base, emitted, applied);
  }

  lemma {:induction false} DoneEnds(e: Engine, s: Ser, sizes: seq<nat>, base: nat, emitted: seq<byte>, applied: seq<FilterBlock>, whole: Dec, tail: seq<byte>)
    requires e == Rar5Laws.Rar5Engine() && Lawful(e) && Consumed(s.d.win) >= 0
    requires Going(e, s, base, emitted, applied, whole, tail) && Done(s, whole)
    requires sizes != [] && forall i :: 0 <= i < |sizes| ==> sizes[i] > 0
    ensures Run(e, s, sizes).Err() == Some(EOF)
    decreases |sizes|
  {
    DoneStays(e, s, sizes[0], base, emitted, applied, whole, tail);
    var r := Read(e, s, sizes[0]);
    if |sizes| > 1 {
      DoneEnds(e, r.ser, sizes[1..], base, emitted, applied, whole, tail);
    }
    LastReply(Reply(r.out, r.err), Run(e, r.ser, sizes[1..]));
  }

  // Calls with room deliver a byte each until the end.
  lemma {:induction false} RunEnds(e: Engine, s: Ser, sizes: seq<nat>, base: nat, emitted: seq<byte>, applied: seq<FilterBlock>, whole: Dec, tail: seq<byte>)
    requires e == Rar5Laws.Rar5Engine() && Lawful(e) && Consumed(s.d.win) >= 0
    requires Going(e, s, base, emitted, applied, whole, tail) && Sound(whole, base)
    requires forall i :: 0 <= i < |sizes| ==> sizes[i] > 0
    ensures Run(e, s, sizes).Err() == Some(EOF) || |Run(e, s, sizes).Out()| >= |sizes|
    decreases |sizes|
  {
    if sizes != [] {
      var r := Read(e, s, sizes[0]);
      var more := Run(e, r.ser, sizes[1..]);
      var _ := ReadVerdict(e, s, sizes[0], base, emitted, applied);
      var applied1 := ReadGoes(e, s, sizes[0], base, emitted, applied, whole, tail);
      RunOn(Reply(r.out, r.err), more);
      LastReply(Reply(r.out, r.err), more);
      if r.err.None? {
        RunEnds(e, r.ser, sizes[1..], base, emitted + r.out, applied1, whole, tail);
      } else if |sizes| > 1 {
        DoneEnds(e, r.ser, sizes[1..], base, emitted + r.out, applied1, whole, tail);
      }
    }
  }

  // So more calls with room than the stream has bytes bring out all of it, and then the end.
  lemma {:induction false} MemberEnds(e: Engine, win: Win, dictSize: int, tables: Tables, blocks: seq<BlockText>, tail: seq<byte>, sizes: seq<nat>, whole: Dec)
    requires e == Rar5Laws.Rar5Engine() && Lawful(e) && FiltersKeepLength(e) && win.size > 1
    requires blocks != [] && SourceOk(tables, blocks)
    requires PlayAll(Rar5.Fresh(win, dictSize), AllOps(blocks)) == Applied(whole, None) && Sound(whole, |win.hist|)
    requires |sizes| > |Finished(e, whole, |win.hist|)| && forall i :: 0 <= i < |sizes| ==> sizes[i] > 0
    ensures var s := Ser(Rar5.Fresh(win, dictSize), Place(None, tables, false, Source(tables, blocks, tail)));
      Run(e, s, sizes).Err() == Some(EOF) && Run(e, s, sizes).Out() == Finished(e, whole, |win.hist|)
  {
    var base, d := |win.hist|, Rar5.Fresh(win, dictSize);
    var s := Ser(d, Place(None, tables, false, Source(tables, blocks, tail)));
    FreshGoes(e, d, s.at, base, blocks, tail, whole);
    MemberComesOut(e, win, dictSize, tables, blocks, tail, sizes, whole);
    RunEnds(e, s, sizes, base, [], [], whole, tail);
  }

  // ---- And through the pipeline.

  lemma {:induction false} WrittenWhole(e: Engine, ts: Tables, blocks: seq<BlockText>, tail: seq<byte>)
    requires e == Rar5Laws.Rar5Engine() && Lawful(e) && blocks != [] && SourceOk(ts, blocks)
    ensures Agreement.TablesWhole(e, Source(ts, blocks, tail))
    decreases |blocks|
  {
    var b := blocks[0];
    BlockTaken(e, ts, b, Source(InForce(b, ts), blocks[1..], tail));
    if !b.last {
      WrittenWhole(e, InForce(b, ts), blocks[1..], tail);
    }
  }

  // A source that was written has no cut table, so the pipeline returns the same.
  lemma {:induction false} PipelineToo(e: Engine, d: Dec, ts: Tables, blocks: seq<BlockText>, tail: seq<byte>, sizes: seq<nat>)
    requires e == Rar5Laws.Rar5Engine() && Lawful(e) && Lawful(Agreement.Sealing(e)) && Consumed(d.win) >= 0
    requires blocks != [] && SourceOk(ts, blocks)
    ensures var s := Ser(d, Place(None, ts, false, Source(ts, blocks, tail)));
      Run(Agreement.Sealing(e), s, sizes) == Run(e, s, sizes)
  {
    WrittenWhole(e, ts, blocks, tail);
    assert Agreement.Unsealed(e) == e;
    Agreement.RunsAgree(e, Ser(d, Place(None, ts, false, Source(ts, blocks, tail))), sizes);
  }
}
