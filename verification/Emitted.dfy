// What a run of Read emits: the decoded stream with every announced range replaced by its filter.

module Emitted {
  import opened Basics
  import opened DecodeTypes
  import opened Serial
  import opened Emission

  // The blocks lie one after another in the first n bytes.
  ghost predicate Fits(fs: seq<FilterBlock>, n: nat) {
    fs == [] || (fs[|fs| - 1].start + fs[|fs| - 1].length <= n && Fits(fs[..|fs| - 1], fs[|fs| - 1].start))
  }

  // y with each block's range replaced by the filter's output at the block's own position.
  ghost function Transformed(e: Engine, y: seq<byte>, fs: seq<FilterBlock>): (r: seq<byte>)
    requires FiltersKeepLength(e) && Fits(fs, |y|)
    ensures |r| == |y|
    decreases |fs|
  {
    if fs == [] then y
    else
      var f := fs[|fs| - 1];
      Transformed(e, y[..f.start], fs[..|fs| - 1])
        + e.RunFilter(f, y[f.start..f.start + f.length], f.start)
        + y[f.start + f.length..]
  }

  lemma {:induction false} CutIn(y: seq<byte>, z: seq<byte>, a: nat, b: nat)
    requires a <= b <= |y|
    ensures (y + z)[..a] == y[..a] && (y + z)[a..b] == y[a..b] && (y + z)[b..] == y[b..] + z
  {
  }

  lemma {:induction false} CutAfter(y: seq<byte>, z: seq<byte>)
    ensures (y + z)[..|y|] == y && (y + z)[|y|..|y| + |z|] == z && (y + z)[|y| + |z|..] == []
  {
  }

  // Plain bytes after the last block come out unchanged.
  lemma {:induction false} TransformedPlain(e: Engine, y: seq<byte>, z: seq<byte>, fs: seq<FilterBlock>)
    requires FiltersKeepLength(e) && Fits(fs, |y|)
    ensures Fits(fs, |y + z|) && Transformed(e, y + z, fs) == Transformed(e, y, fs) + z
  {
    if fs != [] {
      var f := fs[|fs| - 1];
      CutIn(y, z, f.start, f.start + f.length);
      var front := Transformed(e, y[..f.start], fs[..|fs| - 1]);
      var run := e.RunFilter(f, y[f.start..f.start + f.length], f.start);
      Assoc(front + run, y[f.start + f.length..], z);
    }
  }

  // One more block, right at the end.
  lemma {:induction false} TransformedBlock(e: Engine, y: seq<byte>, z: seq<byte>, fs: seq<FilterBlock>, f: FilterBlock)
    requires FiltersKeepLength(e) && Fits(fs, |y|) && f.start == |y| && f.length == |z|
    ensures Fits(fs + [f], |y + z|)
    ensures Transformed(e, y + z, fs + [f]) == Transformed(e, y, fs) + e.RunFilter(f, z, f.start)
  {
    assert (fs + [f])[..|fs|] == fs;
    assert (fs + [f])[|fs|] == f;
    CutAfter(y, z);
  }

  // Queued blocks are in order, none behind the emission cursor.
  ghost predicate QueueOk(d: Dec) {
    && (forall i :: 0 <= i < |d.fl| ==> d.tot <= d.fl[i].start && d.fl[i].length > 0 && d.fl[i].ftype <= 3)
    && (forall i, j :: 0 <= i < j < |d.fl| ==> d.fl[i].start <= d.fl[j].start)
  }

  // d' is d after some decoding and reading from the window.
  ghost predicate Decoded(d: Dec, d': Dec) {
    && d.win.hist <= d'.win.hist
    && |d'.win.hist| - d'.decoded == |d.win.hist| - d.decoded
    && d'.tot == d.tot && d'.outbuf == d.outbuf && d'.win.size == d.win.size
    && d.fl <= d'.fl
    && (QueueOk(d) && d.tot <= d.decoded ==> QueueOk(d'))
  }

  lemma {:induction false} GrownDecoded(d: Dec, d1: Dec, d2: Dec)
    requires Decoded(d, d1) && Grown(d1, d2)
    ensures Decoded(d, d2)
  {
    if Queued(d1, d2) {
      var n := |d1.fl|;
      assert forall i :: 0 <= i < n ==> d2.fl[i] == d1.fl[i];
      if QueueOk(d1) && d1.tot <= d1.decoded {
        forall i | 0 <= i < n ensures d2.fl[i].start <= d2.fl[n].start {
        }
      }
    }
  }

  lemma {:induction false} FillDecodes(e: Engine, d: Dec, s: Ser, target: nat)
    requires Lawful(e) && Decoded(d, s.d)
    ensures Decoded(d, SerialFill(e, s, target).ser.d)
    decreases |s.at.src|, InBlock(s.at)
  {
    assert Laws(e, Now);
    if s.d.win.unread < target {
      if s.at.br.None? {
        var Entered(at, err) := Enter(s.at, ReadBlock(e, s.at.src));
        if err.None? {
          FillDecodes(e, d, Ser(s.d, at), target);
        }
      } else {
        match e.Parse(s.at.tables, s.at.br.value)
        case BlockEnd =>
          if !s.at.lastBlock {
            FillDecodes(e, d, Ser(s.d, s.at.(br := None)), target);
          }
        case Stop(_, _) =>
        case Symbol(op, c) =>
          var a := e.Apply(s.d, op);
          GrownDecoded(d, s.d, a.d);
          if a.err.None? {
            FillDecodes(e, d, Ser(a.d, s.at.(br := Some(c))), target);
          }
      }
    }
  }

  // The blocks announced by the symbols a fill applies, in order.
  ghost function FillAnnounces(e: Engine, s: Ser, target: nat): seq<FilterBlock>
    requires Lawful(e)
    decreases |s.at.src|, InBlock(s.at)
  {
    assert Laws(e, Now);
    if s.d.win.unread >= target then []
    else if s.at.br.None? then
      var Entered(at, err) := Enter(s.at, ReadBlock(e, s.at.src));
      if err.Some? then [] else FillAnnounces(e, Ser(s.d, at), target)
    else
      match e.Parse(s.at.tables, s.at.br.value)
      case BlockEnd => if s.at.lastBlock then [] else FillAnnounces(e, Ser(s.d, s.at.(br := None)), target)
      case Stop(_, _) => []
      case Symbol(op, c) =>
        var a := e.Apply(s.d, op);
        if a.err.Some? then []
        else Announced(s.d.decoded, op) + FillAnnounces(e, Ser(a.d, s.at.(br := Some(c))), target)
  }

  // While a filter's input is staged.
  ghost function StageAnnounces(e: Engine, s: Ser, need: nat): seq<FilterBlock>
    requires Lawful(e) && Consumed(s.d.win) >= 0
    decreases need, s.d.win.unread == 0
  {
    if need <= s.d.win.unread then []
    else
      var f := Refill(e, s, need);
      FillAnnounces(e, TookBytes(s, need), FillTarget(s.d.win)) +
        if Starved(s, f) then [] else StageAnnounces(e, f.ser, need - s.d.win.unread)
  }

  // During one Read, which decodes when the window is empty and while a filter wants its input.
  ghost function ReadAnnounces(e: Engine, s: Ser, n: nat): seq<FilterBlock>
    requires Lawful(e) && Consumed(s.d.win) >= 0
  {
    if s.d.outbuf != [] || n == 0 then []
    else if s.d.win.unread > 0 then EmitAnnounces(e, s)
    else
      var Filled(s1, err) := SerialFill(e, s, FillTarget(s.d.win));
      FillAnnounces(e, s, FillTarget(s.d.win)) + if Soft(err) && s1.d.win.unread > 0 then EmitAnnounces(e, s1) else []
  }

  ghost function EmitAnnounces(e: Engine, s: Ser): seq<FilterBlock>
    requires Lawful(e) && Consumed(s.d.win) >= 0
  {
    if s.d.fl == [] || s.d.fl[0].start > s.d.tot then []
    else StageAnnounces(e, s.(d := s.d.(fl := s.d.fl[1..])), s.d.fl[0].length)
  }

  lemma {:induction false} Assoc<T>(a: seq<T>, b: seq<T>, c: seq<T>)
    ensures a + (b + c) == a + b + c
  {
  }

  // Every announced block is queued, behind the ones before it, and nothing else is.
  lemma {:induction false} FillQueues(e: Engine, s: Ser, target: nat)
    requires Lawful(e)
    ensures SerialFill(e, s, target).ser.d.fl == s.d.fl + FillAnnounces(e, s, target)
    decreases |s.at.src|, InBlock(s.at)
  {
    assert Laws(e, Now);
    if s.d.win.unread < target {
      if s.at.br.None? {
        var Entered(at, err) := Enter(s.at, ReadBlock(e, s.at.src));
        if err.None? {
          FillQueues(e, Ser(s.d, at), target);
        }
      } else {
        match e.Parse(s.at.tables, s.at.br.value)
        case BlockEnd =>
          if !s.at.lastBlock {
            FillQueues(e, Ser(s.d, s.at.(br := None)), target);
          }
        case Stop(_, _) =>
        case Symbol(op, c) =>
          var a := e.Apply(s.d, op);
          if a.err.None? {
            var s1 := Ser(a.d, s.at.(br := Some(c)));
            FillQueues(e, s1, target);
            Assoc(s.d.fl, Announced(s.d.decoded, op), FillAnnounces(e, s1, target));
          }
      }
    }
  }

  // What is announced while staging, in the manner of Stages.
  ghost predicate StageSays(e: Engine, s: Ser, need: nat, said: seq<FilterBlock>) {
    Lawful(e) && Consumed(s.d.win) >= 0 && forall now: Asked :: Said(e, s, need, said, now)
  }

  ghost predicate Said(e: Engine, s: Ser, need: nat, said: seq<FilterBlock>, now: Asked)
    requires Lawful(e) && Consumed(s.d.win) >= 0
  {
    StageAnnounces(e, s, need) == said
  }

  lemma {:induction false} SaysNone(e: Engine, s: Ser, need: nat, said: seq<FilterBlock>)
    requires StageSays(e, s, need, said) && need <= s.d.win.unread
    ensures said == []
  {
    assert Said(e, s, need, said, Now);
  }

  lemma {:induction false} SaysTrip(e: Engine, s: Ser, need: nat, f: Filled, said: seq<FilterBlock>) returns (first: seq<FilterBlock>, more: seq<FilterBlock>)
    requires StageSays(e, s, need, said) && Refills(e, s, need, f) && need > s.d.win.unread && Consumed(f.ser.d.win) >= 0
    ensures said == first + more && f.ser.d.fl == s.d.fl + first
    ensures if Starved(s, f) then more == [] else StageSays(e, f.ser, need - s.d.win.unread, more)
  {
    assert Said(e, s, need, said, Now) && Refilled(e, s, need, f, Now);
    FillQueues(e, TookBytes(s, need), FillTarget(s.d.win));
    first := FillAnnounces(e, TookBytes(s, need), FillTarget(s.d.win));
    more := if Starved(s, f) then [] else StageAnnounces(e, f.ser, need - s.d.win.unread);
  }

  lemma {:induction false} StageQueues(e: Engine, s: Ser, need: nat, r: Got, said: seq<FilterBlock>)
    requires Stages(e, s, need, r) && StageSays(e, s, need, said)
    ensures r.ser.d.fl == s.d.fl + said
    decreases need, s.d.win.unread == 0
  {
    if need <= s.d.win.unread {
      StageAll(e, s, need, r);
      SaysNone(e, s, need, said);
    } else {
      var f, more := StageTrip(e, s, need, r);
      var first, after := SaysTrip(e, s, need, f, said);
      if !Starved(s, f) {
        StageQueues(e, f.ser, need - s.d.win.unread, more, after);
        Assoc(s.d.fl, first, after);
      }
    }
  }

  // What stageFilterInput delivers is the decoded stream's next bytes.
  ghost predicate Delivers(d: Dec, c: nat, need: nat, r: Got) {
    && Decoded(d, r.ser.d)
    && (r.err.None? ==>
          && |r.out| == need && Consumed(r.ser.d.win) == c + need && c + need <= |r.ser.d.win.hist|
          && r.out == r.ser.d.win.hist[c..c + need])
  }

  lemma {:induction false} RefillDecodes(e: Engine, d: Dec, s: Ser, need: nat, f: Filled)
    requires Refills(e, s, need, f) && Decoded(d, s.d)
    ensures Decoded(d, f.ser.d)
  {
    assert Refilled(e, s, need, f, Now);
    FillDecodes(e, d, TookBytes(s, need), FillTarget(s.d.win));
  }

  lemma {:induction false} StageDelivers(e: Engine, d: Dec, s: Ser, need: nat, r: Got)
    requires Stages(e, s, need, r) && Decoded(d, s.d)
    ensures Delivers(d, Consumed(s.d.win), need, r) && s.d.win.hist <= r.ser.d.win.hist
    decreases need, s.d.win.unread == 0
  {
    if need <= s.d.win.unread {
      StageAll(e, s, need, r);
      DeliversNow(d, s, need);
    } else {
      var f, more := StageTrip(e, s, need, r);
      RefillDecodes(e, d, s, need, f);
      if Starved(s, f) {
        assert r.err.Some?;
      } else {
        StageDelivers(e, d, f.ser, need - s.d.win.unread, more);
        DeliversMore(d, s, f.ser, need, more, r);
      }
    }
  }

  lemma {:induction false} DeliversNow(d: Dec, s: Ser, need: nat)
    requires Decoded(d, s.d) && Consumed(s.d.win) >= 0 && need <= s.d.win.unread
    ensures Delivers(d, Consumed(s.d.win), need, Got(TookBytes(s, need), Taken(s.d.win, need), None))
  {
  }

  lemma {:induction false} DeliversMore(d: Dec, s: Ser, s2: Ser, need: nat, r: Got, whole: Got)
    requires Consumed(s.d.win) >= 0 && need > s.d.win.unread
    requires s.d.win.hist <= s2.d.win.hist <= r.ser.d.win.hist
    requires Delivers(d, |s.d.win.hist|, need - s.d.win.unread, r) && whole == After(Taken(s.d.win, need), r)
    ensures Delivers(d, Consumed(s.d.win), need, whole) && s.d.win.hist <= whole.ser.d.win.hist
  {
    if r.err.None? {
      var c, h := Consumed(s.d.win), r.ser.d.win.hist;
      assert h[c..c + need] == h[c..|s.d.win.hist|] + h[|s.d.win.hist|..c + need];
    }
  }

  // The decoded bytes of this member: the history from base on.
  ghost function Stream(d: Dec, base: nat): seq<byte>
    requires base <= |d.win.hist|
  {
    d.win.hist[base..]
  }

  // emitted is what Read has returned so far, applied the filters it has run.
  ghost predicate EmitInv(e: Engine, d: Dec, base: nat, emitted: seq<byte>, applied: seq<FilterBlock>) {
    Consumed(d.win) == base + d.tot && forall now: Asked :: Emits(e, d, base, emitted, applied, now)
  }

  // What it comes to, out of sight until a proof asks for it with Now.
  ghost predicate Emits(e: Engine, d: Dec, base: nat, emitted: seq<byte>, applied: seq<FilterBlock>, now: Asked) {
    && FiltersKeepLength(e)
    && |d.win.hist| == base + d.decoded
    && d.decoded == d.tot + d.win.unread
    && QueueOk(d)
    && Fits(applied, d.tot)
    && emitted + d.outbuf == Transformed(e, Stream(d, base)[..d.tot], applied)
  }

  lemma {:induction false} FillKeepsInv(e: Engine, s: Ser, target: nat, base: nat, emitted: seq<byte>, applied: seq<FilterBlock>)
    requires Lawful(e) && EmitInv(e, s.d, base, emitted, applied)
    ensures var d := SerialFill(e, s, target).ser.d;
      EmitInv(e, d, base, emitted, applied) && s.d.fl <= d.fl && d.outbuf == s.d.outbuf
  {
    assert Emits(e, s.d, base, emitted, applied, Now);
    FillDecodes(e, s.d, s, target);
    var d := SerialFill(e, s, target).ser.d;
    assert Stream(d, base)[..d.tot] == Stream(s.d, base)[..d.tot];
  }

  lemma {:induction false} CopyEmits(e: Engine, s: Ser, n: nat, base: nat, emitted: seq<byte>, applied: seq<FilterBlock>)
    requires EmitInv(e, s.d, base, emitted, applied) && s.d.outbuf == []
    requires s.d.fl == [] || s.d.tot + n <= s.d.fl[0].start
    ensures var Got(s', out, err) := Copy(s, n);
      EmitInv(e, s'.d, base, emitted + out, applied) && s'.d.fl == s.d.fl
  {
    assert Emits(e, s.d, base, emitted, applied, Now);
    var Got(s', out, err) := Copy(s, n);
    var y := Stream(s.d, base);
    StreamOn(s.d.win.hist, s.d.win.hist, base, s.d.tot, |out|);
    TransformedPlain(e, y[..s.d.tot], out, applied);
    CopiedQueue(s.d, s'.d);
    assert emitted + s.d.outbuf == emitted && (emitted + out) + s'.d.outbuf == emitted + out;
    EmitsNow(e, s'.d, base, emitted + out, applied, emitted + out);
  }

  lemma {:induction false} CopiedQueue(d: Dec, d': Dec)
    requires QueueOk(d) && d'.fl == d.fl && (d.fl == [] || d'.tot <= d.fl[0].start)
    ensures QueueOk(d')
  {
    if d.fl != [] {
      assert forall i :: 0 <= i < |d.fl| ==> d.fl[0].start <= d.fl[i].start;
    }
  }

  // Reading emits: with no error, the stream up to tot keeps being the transformed decoded stream,
  // and the filters run are the ones queued, in order, each exactly when tot reaches its start.
  lemma {:induction false} EmitEmits(e: Engine, s: Ser, n: nat, base: nat, emitted: seq<byte>, applied: seq<FilterBlock>)
    returns (applied': seq<FilterBlock>)
    requires Lawful(e) && EmitInv(e, s.d, base, emitted, applied) && s.d.outbuf == []
    ensures var Got(s', out, err) := Emit(e, s, n);
      err.None? ==>
        && EmitInv(e, s'.d, base, emitted + out, applied')
        && applied' + s'.d.fl == applied + s.d.fl + EmitAnnounces(e, s)
  {
    var d := s.d;
    applied' := applied;
    if d.fl == [] {
      CopyEmits(e, s, n, base, emitted, applied);
    } else if d.fl[0].start > d.tot {
      CopyEmits(e, s, Min(d.fl[0].start - d.tot, n), base, emitted, applied);
    } else {
      applied' := applied + [d.fl[0]];
      FilterEmits(e, s, n, base, emitted, applied);
      FilterCounts(e, s, n, applied);
    }
  }

  lemma {:induction false} FilterCounts(e: Engine, s: Ser, n: nat, applied: seq<FilterBlock>)
    requires Lawful(e) && Consumed(s.d.win) >= 0 && s.d.fl != [] && s.d.fl[0].start <= s.d.tot
    ensures var r := Emit(e, s, n);
      r.err.None? ==> applied + [s.d.fl[0]] + r.ser.d.fl == applied + s.d.fl + EmitAnnounces(e, s)
  {
    FilterQueues(e, s, n);
    Assoc(applied, [s.d.fl[0]], Emit(e, s, n).ser.d.fl);
    Assoc(applied, s.d.fl, EmitAnnounces(e, s));
  }

  // The queue's head is never behind.
  lemma {:induction false} DueNow(e: Engine, d: Dec, base: nat, emitted: seq<byte>, applied: seq<FilterBlock>)
    requires EmitInv(e, d, base, emitted, applied) && d.fl != [] && d.fl[0].start <= d.tot
    ensures d.fl[0].start == d.tot <= d.decoded && QueueOk(d.(fl := d.fl[1..]))
  {
    assert Emits(e, d, base, emitted, applied, Now);
  }

  lemma {:induction false} FilterEmits(e: Engine, s: Ser, n: nat, base: nat, emitted: seq<byte>, applied: seq<FilterBlock>)
    requires Lawful(e) && EmitInv(e, s.d, base, emitted, applied) && s.d.outbuf == []
    requires s.d.fl != [] && s.d.fl[0].start <= s.d.tot
    ensures s.d.fl[0].start == s.d.tot
    ensures var Got(s', out, err) := Emit(e, s, n);
      err.None? ==>
        EmitInv(e, s'.d, base, emitted + out, applied + [s.d.fl[0]])
  {
    var f, s0 := s.d.fl[0], s.(d := s.d.(fl := s.d.fl[1..]));
    DueNow(e, s.d, base, emitted, applied);
    var r := FilterDue(e, s, n);
    StageDelivers(e, s0.d, s0, f.length, r);
    if r.err.None? && Filtered(e, f, r.ser, r.out, n).err.None? {
      FilteredEmits(e, s.d, r, n, base, emitted, applied);
    }
  }

  lemma {:induction false} FilteredEmits(e: Engine, d: Dec, r: Got, n: nat, base: nat,
                                         emitted: seq<byte>, applied: seq<FilterBlock>)
    requires EmitInv(e, d, base, emitted, applied) && d.outbuf == []
    requires d.fl != [] && d.fl[0].start == d.tot
    requires r.err.None? && Delivers(d.(fl := d.fl[1..]), Consumed(d.win), d.fl[0].length, r)
    requires Filtered(e, d.fl[0], r.ser, r.out, n).err.None?
    ensures var Got(s', out, _) := Filtered(e, d.fl[0], r.ser, r.out, n);
      EmitInv(e, s'.d, base, emitted + out, applied + [d.fl[0]])
  {
    DueNow(e, d, base, emitted, applied);
    FilterRan(e, d, r.ser.d, r.out, n, base, emitted, applied);
    FilteredFlushes(e, d.fl[0], r.ser, r.out, n);
  }

  lemma {:induction false} FilteredFlushes(e: Engine, f: FilterBlock, s: Ser, buf: seq<byte>, n: nat)
    requires Filtered(e, f, s, buf, n).err.None?
    ensures var r := Filtered(e, f, s, buf, n); var res := e.RunFilter(f, buf, s.d.tot);
      r.ser.d == Flushed(s.d, res, n) && r.out == res[..Min(n, |res|)]
  {
  }

  lemma {:induction false} FilterQueues(e: Engine, s: Ser, n: nat)
    requires Lawful(e) && Consumed(s.d.win) >= 0 && s.d.fl != [] && s.d.fl[0].start <= s.d.tot
    ensures var r := Emit(e, s, n); r.err.None? ==> [s.d.fl[0]] + r.ser.d.fl == s.d.fl + EmitAnnounces(e, s)
  {
    var f, s0 := s.d.fl[0], s.(d := s.d.(fl := s.d.fl[1..]));
    var more := StageAnnounces(e, s0, f.length);
    StageQueues(e, s0, f.length, Stage(e, s0, f.length), more);
    Assoc([f], s.d.fl[1..], more);
  }

  lemma {:induction false} StreamOn(h: seq<byte>, h1: seq<byte>, base: nat, t: nat, n: nat)
    requires h <= h1 && base + t <= |h| && base + t + n <= |h1|
    ensures h1[base..][..t + n] == h[base..][..t] + h1[base + t..base + t + n]
  {
  }

  lemma {:induction false} SplitBack(emitted: seq<byte>, res: seq<byte>, k: nat)
    requires k <= |res|
    ensures (emitted + res[..k]) + res[k..] == emitted + res && emitted + [] == emitted
  {
    assert res[..k] + res[k..] == res;
    Assoc(emitted, res[..k], res[k..]);
  }

  lemma {:induction false} FilterRan(e: Engine, d: Dec, d1: Dec, buf: seq<byte>, n: nat, base: nat, emitted: seq<byte>, applied: seq<FilterBlock>)
    requires EmitInv(e, d, base, emitted, applied) && d.outbuf == []
    requires d.fl != [] && d.fl[0].start == d.tot
    requires Decoded(d.(fl := d.fl[1..]), d1) && QueueOk(d1)
    requires var f := d.fl[0];
      && |buf| == f.length && Consumed(d1.win) == base + d.tot + f.length <= |d1.win.hist|
      && buf == d1.win.hist[base + d.tot..base + d.tot + f.length]
      && (d1.fl == [] || d1.fl[0].start >= f.start + f.length)
    ensures var res := e.RunFilter(d.fl[0], buf, d1.tot);
      EmitInv(e, Flushed(d1, res, n), base, emitted + res[..Min(n, |res|)], applied + [d.fl[0]])
  {
    assert Emits(e, d, base, emitted, applied, Now);
    var f := d.fl[0];
    var res := e.RunFilter(f, buf, d1.tot);
    var k := Min(n, |res|);
    FlushedQueue(d1, res, n);
    SplitBack(emitted, res, k);
    RanThrough(e, d.win.hist, d1.win.hist, base, f, emitted, applied);
    EmitsNow(e, Flushed(d1, res, n), base, emitted + res[..k], applied + [f], emitted + res);
  }

  lemma {:induction false} EmitsNow(e: Engine, d: Dec, base: nat, emitted: seq<byte>, applied: seq<FilterBlock>, all: seq<byte>)
    requires FiltersKeepLength(e) && |d.win.hist| == base + d.decoded && d.decoded == d.tot + d.win.unread
    requires QueueOk(d) && Fits(applied, d.tot)
    requires all == emitted + d.outbuf && all == Transformed(e, d.win.hist[base..][..d.tot], applied)
    ensures EmitInv(e, d, base, emitted, applied)
  {
  }

  // The filter's block follows the stream transformed so far.
  lemma {:induction false} RanThrough(e: Engine, h: seq<byte>, h1: seq<byte>, base: nat, f: FilterBlock,
                                      emitted: seq<byte>, applied: seq<FilterBlock>)
    requires FiltersKeepLength(e) && h <= h1 && base + f.start <= |h| && base + f.start + f.length <= |h1|
    requires Fits(applied, f.start) && emitted == Transformed(e, h[base..][..f.start], applied)
    ensures Fits(applied + [f], f.start + f.length)
    ensures var res := e.RunFilter(f, h1[base + f.start..base + f.start + f.length], f.start);
      emitted + res == Transformed(e, h1[base..][..f.start + f.length], applied + [f])
  {
    StreamOn(h, h1, base, f.start, f.length);
    TransformedBlock(e, h[base..][..f.start], h1[base + f.start..base + f.start + f.length], applied, f);
  }

  // The decoder once a filter's output is on its way: the first n bytes to the caller, the rest to outbuf.
  ghost function Flushed(d1: Dec, res: seq<byte>, n: nat): Dec {
    d1.(tot := d1.tot + |res|, outbuf := res[Min(n, |res|)..])
  }

  lemma {:induction false} FlushedQueue(d1: Dec, res: seq<byte>, n: nat)
    requires QueueOk(d1) && (d1.fl == [] || d1.fl[0].start >= d1.tot + |res|)
    ensures QueueOk(Flushed(d1, res, n))
  {
    forall i | 0 <= i < |d1.fl| ensures d1.fl[0].start <= d1.fl[i].start {
      if i > 0 {
        assert d1.fl[0].start <= d1.fl[i].start;
      }
    }
  }

  // Handing out what outbuf holds.
  lemma {:induction false} Drains(e: Engine, d: Dec, k: nat, base: nat, emitted: seq<byte>, applied: seq<FilterBlock>)
    requires EmitInv(e, d, base, emitted, applied) && k <= |d.outbuf|
    ensures EmitInv(e, d.(outbuf := d.outbuf[k..]), base, emitted + d.outbuf[..k], applied)
  {
    assert Emits(e, d, base, emitted, applied, Now);
    SplitBack(emitted, d.outbuf, k);
  }

  lemma {:induction false} ReadEmits(e: Engine, s: Ser, n: nat, base: nat, emitted: seq<byte>, applied: seq<FilterBlock>)
    returns (applied': seq<FilterBlock>)
    requires Lawful(e) && EmitInv(e, s.d, base, emitted, applied)
    ensures var Got(s', out, err) := Read(e, s, n);
      Soft(err) ==>
        && EmitInv(e, s'.d, base, emitted + out, applied')
        && applied' + s'.d.fl == applied + s.d.fl + ReadAnnounces(e, s, n)
  {
    applied' := applied;
    var Got(s', out, err) := Read(e, s, n);
    if s.d.outbuf != [] {
      Drains(e, s.d, Min(n, |s.d.outbuf|), base, emitted, applied);
    } else if n == 0 {
      assert emitted + [] == emitted;
    } else if s.d.win.unread > 0 {
      applied' := EmitEmits(e, s, n, base, emitted, applied);
    } else {
      applied' := FilledEmits(e, s, n, base, emitted, applied);
    }
  }

  lemma {:induction false} FilledEmits(e: Engine, s: Ser, n: nat, base: nat, emitted: seq<byte>, applied: seq<FilterBlock>)
    returns (applied': seq<FilterBlock>)
    requires Lawful(e) && EmitInv(e, s.d, base, emitted, applied)
    requires s.d.outbuf == [] && n > 0 && s.d.win.unread == 0
    ensures var Got(s', out, err) := Read(e, s, n);
      Soft(err) ==>
        && EmitInv(e, s'.d, base, emitted + out, applied')
        && applied' + s'.d.fl == applied + s.d.fl + ReadAnnounces(e, s, n)
  {
    applied' := applied;
    var target := FillTarget(s.d.win);
    FillKeepsInv(e, s, target, base, emitted, applied);
    FillQueues(e, s, target);
    var Filled(s1, err) := SerialFill(e, s, target);
    var said := FillAnnounces(e, s, target);
    if s1.d.win.unread == 0 {
      assert emitted + [] == emitted;
      Assoc(applied, s.d.fl, said);
    } else {
      applied' := EmitEmits(e, s1, n, base, emitted, applied);
      Assoc(applied, s.d.fl, said);
      Assoc(applied + s.d.fl, said, EmitAnnounces(e, s1));
    }
  }

  // What one call returns, and what a run returns: Read called with these buffer sizes in turn, until
  // one call fails.
  datatype Reply = Reply(out: seq<byte>, err: Option<Error>)

  datatype Ran = Ran(ser: Ser, replies: seq<Reply>) {
    function Out(): seq<byte> { Joined(replies) }

    // Only the last call can have failed.
    function Err(): Option<Error> { if replies == [] then None else replies[|replies| - 1].err }
  }

  function Joined(replies: seq<Reply>): seq<byte> {
    if replies == [] then [] else replies[0].out + Joined(replies[1..])
  }

  function Run(e: Engine, s: Ser, sizes: seq<nat>): (r: Ran)
    requires Lawful(e) && Consumed(s.d.win) >= 0
    ensures |r.replies| <= |sizes|
    ensures |r.replies| < |sizes| ==> !Soft(r.Err())
    ensures forall i :: 0 <= i < |r.replies| - 1 ==> Soft(r.replies[i].err)
    decreases |sizes|
  {
    if sizes == [] then Ran(s, [])
    else
      var Got(s1, out, err) := Read(e, s, sizes[0]);
      if !Soft(err) then Ran(s1, [Reply(out, err)])
      else
        var more := Run(e, s1, sizes[1..]);
        Ran(more.ser, [Reply(out, err)] + more.replies)
  }

  ghost function RunAnnounces(e: Engine, s: Ser, sizes: seq<nat>): seq<FilterBlock>
    requires Lawful(e) && Consumed(s.d.win) >= 0
    decreases |sizes|
  {
    if sizes == [] then []
    else
      var Got(s1, _, err) := Read(e, s, sizes[0]);
      ReadAnnounces(e, s, sizes[0]) + if Soft(err) then RunAnnounces(e, s1, sizes[1..]) else []
  }

  // However the caller sizes its reads, an error-free run has emitted exactly the decoded stream up
  // to tot with every filter applied to its own range, less what outbuf still holds. The filters run,
  // and behind them those still queued, are the ones the stream announced.
  lemma {:induction false} RunEmits(e: Engine, s: Ser, sizes: seq<nat>, base: nat, emitted: seq<byte>, applied: seq<FilterBlock>)
    returns (applied': seq<FilterBlock>)
    requires Lawful(e) && Consumed(s.d.win) >= 0 && EmitInv(e, s.d, base, emitted, applied)
    ensures var r := Run(e, s, sizes);
      Soft(r.Err()) ==>
        && EmitInv(e, r.ser.d, base, emitted + r.Out(), applied')
        && applied' + r.ser.d.fl == applied + s.d.fl + RunAnnounces(e, s, sizes)
    decreases |sizes|
  {
    applied' := applied;
    if sizes == [] {
      assert emitted + [] == emitted;
    } else {
      var Got(s1, out, err) := Read(e, s, sizes[0]);
      var applied1 := ReadEmits(e, s, sizes[0], base, emitted, applied);
      if Soft(err) {
        applied' := RunEmits(e, s1, sizes[1..], base, emitted + out, applied1);
        var more := Run(e, s1, sizes[1..]);
        RunOn(Reply(out, err), more);
        Assoc(emitted, out, more.Out());
        Assoc(applied + s.d.fl, ReadAnnounces(e, s, sizes[0]), RunAnnounces(e, s1, sizes[1..]));
      }
    }
  }

  lemma {:induction false} RunOn(first: Reply, more: Ran)
    requires Soft(first.err)
    ensures var r := Ran(more.ser, [first] + more.replies);
      r.Out() == first.out + more.Out() && (Soft(r.Err()) <==> Soft(more.Err()))
  {
    assert ([first] + more.replies)[1..] == more.replies;
  }
}
