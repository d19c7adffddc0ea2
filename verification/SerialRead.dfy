// decoder50.Read and stageFilterInput on the real parts: the serial decoder, the ring buffer, the caller's
// buffer, the filters in place (decoder50.go:324-458).

module SerialRead {
  import opened Basics
  import opened DecodeTypes
  import opened Serial
  import opened Emission
  import opened Emitted
  import BF = BlockFill
  import BranchFilters
  import Filters
  import Rar5Laws

  class SerialReader {
    const sd: BF.SerialDecoder
    ghost var repr: set<object>   // all a call may change
    ghost const e: Engine   // the repository's

    // It stands at s, ready for more unless a hard error came: out of sight until a proof asks with Now.
    ghost predicate StandsAt(s: Ser, ready: bool)
      reads this, repr
    {
      this in repr && Lawful(e) && Consumed(s.d.win) >= 0 && forall now: Asked :: Holds(s, ready, now)
    }

    ghost predicate Holds(s: Ser, ready: bool, now: Asked)
      reads this, repr
    {
      && {sd, sd.dec, sd.dec.offset, sd.dec.win} <= repr && this in repr - {sd, sd.dec, sd.dec.win} - sd.tables.repr - sd.scratch
      && sd.dec.win.buf in repr && sd.tables.repr + sd.scratch <= repr && (sd.br != null ==> sd.br in repr)
      && sd.dec.Valid() && (ready ==> sd.Valid()) && s == Ser(sd.dec.D(), sd.At()) && BF.IsRar5(e)
    }

    lemma {:induction false} IsEngine(s: Ser, ready: bool)
      requires StandsAt(s, ready)
      ensures BF.IsRar5(e)
    {
      assert Holds(s, ready, Now);
    }

    constructor (sd: BF.SerialDecoder)
      requires sd.Valid()
      ensures this.sd == sd && StandsAt(Ser(sd.dec.D(), sd.At()), true) && e == Rar5Laws.Rar5Engine()
      ensures fresh(repr - ({sd, sd.dec, sd.dec.offset, sd.dec.win, sd.dec.win.buf} + sd.tables.repr + sd.scratch
                            + if sd.br != null then {sd.br} else {}))
    {
      this.sd, e := sd, Rar5Laws.Rar5Engine();
      repr := {this, sd, sd.dec, sd.dec.offset, sd.dec.win, sd.dec.win.buf} + sd.tables.repr + sd.scratch;
      new;
      if sd.br != null {
        repr := repr + {sd.br};
      }
      Rar5Laws.Rar5Lawful(e);
    }

    lemma {:induction false} Ends(s: Ser)
      requires StandsAt(s, true)
      ensures StandsAt(s, false)
    {
      assert Holds(s, true, Now);
    }

    method Fill(ghost s: Ser) returns (err: Option<Error>, ghost f: Filled)
      requires StandsAt(s, true)
      modifies repr
      ensures StandsAt(f.ser, Soft(err)) && fresh(repr - old(repr))
      ensures f.err == err && BF.FillEnds(s, FillTarget(s.d.win), f)
    {
      assert Holds(s, true, Now);
      err := sd.Fill();
      f := Filled(Ser(sd.dec.D(), sd.At()), err);
      repr := repr + if sd.br == null then {} else {sd.br};
    }

    lemma {:induction false} FillMet(s: Ser, f: Filled, ready: bool)
      requires StandsAt(f.ser, ready) && BF.FillEnds(s, FillTarget(s.d.win), f)
      ensures SerialFill(e, s, FillTarget(s.d.win)) == f
    {
      IsEngine(f.ser, ready);
    }

    // win.Read(p[at:end]).
    method TakeBytes(p: array<byte>, at: nat, end: nat, ghost s: Ser) returns (n: nat)
      requires StandsAt(s, true) && p !in repr && at <= end <= p.Length
      modifies repr, p
      ensures Consumed(s.d.win) >= 0 && n == Min(end - at, s.d.win.unread)
      ensures StandsAt(TookBytes(s, end - at), true) && repr == old(repr)
      ensures p[..at + n] == old(p[..at]) + Taken(s.d.win, end - at) && p[at + n..] == old(p[at + n..])
    {
      assert Holds(s, true, Now);
      n := Take(sd, p, at, end);
    }

    static method Take(sd: BF.SerialDecoder, p: array<byte>, at: nat, end: nat) returns (n: nat)
      requires sd.Valid() && at <= end <= p.Length
      requires p != sd.dec.win.buf && p as object !in {sd.dec.offset} && p !in sd.tables.repr + sd.scratch
      modifies sd.dec.win, p
      ensures sd.Valid() && sd.dec.win.buf == old(sd.dec.win.buf) && sd.At() == old(sd.At())
      ensures Consumed(old(sd.dec.D()).win) >= 0 && n == Min(end - at, old(sd.dec.win.unread))
      ensures sd.dec.D() == old(sd.dec.D().(win := Took(sd.dec.D().win, end - at)))
      ensures p[..at + n] == old(p[..at]) + old(Taken(sd.dec.D().win, end - at)) && p[at + n..] == old(p[at + n..])
    {
      assert Looked(Now);
      n := sd.dec.win.Read(p, at, end);
    }

    method Available(ghost s: Ser) returns (n: nat)
      requires StandsAt(s, true)
      ensures n == s.d.win.unread
    {
      assert Holds(s, true, Now);
      n := sd.dec.win.Available();
    }

    // The fill after need bytes were asked of s.
    method FillAfter(ghost s: Ser, ghost need: nat, ghost f: Filled) returns (err: Option<Error>)
      requires StandsAt(TookBytes(s, need), true) && Refills(e, s, need, f)
      modifies repr
      ensures StandsAt(f.ser, Soft(err)) && err == f.err && fresh(repr - old(repr))
    {
      assert Holds(TookBytes(s, need), true, Now) && Refilled(e, s, need, f, Now);
      ghost var f1;
      err, f1 := Fill(TookBytes(s, need));
    }

    // One trip of stageFilterInput's loop: what the window holds, then more decoding if that was not enough.
    // Staging need bytes from s is r, and what is left of it from where it leaves off more.
    method StageOnce(p: array<byte>, at: nat, ghost need: nat, ghost s: Ser, ghost r: Got)
      returns (n: nat, err: Option<Error>, ghost s1: Ser, ghost got: seq<byte>, ghost more: Got)
      requires StandsAt(s, true) && p !in repr && 0 < need && at + need == p.Length && Stages(e, s, need, r)
      modifies repr, p
      ensures StandsAt(s1, err.None?) && fresh(repr - old(repr))
      ensures n <= need && |got| == n && p[..at + n] == old(p[..at]) + got
      ensures err.Some? ==> !Soft(err) && r.err == err && r.ser == s1
      ensures err.None? ==> Stages(e, s1, need - n, more) && r == After(got, more)
      ensures err.None? && n == 0 ==> s.d.win.unread == 0 && s1.d.win.unread > 0
    {
      n := TakeBytes(p, at, p.Length, s);
      got, s1 := Taken(s.d.win, need), TookBytes(s, need);
      if at + n == p.Length {
        err := None;
        more := StageEnds(e, s, need, r);
        return;
      }
      ghost var f;
      f, more := StageTrip(e, s, need, r);
      err, s1 := StageMore(n, need, s, r, f, more);
    }

    // The window did not hold enough.
    method StageMore(n: nat, ghost need: nat, ghost s: Ser, ghost r: Got, ghost f: Filled, ghost more: Got)
      returns (err: Option<Error>, ghost s1: Ser)
      requires StandsAt(TookBytes(s, need), true) && Refills(e, s, need, f) && n == s.d.win.unread < need
      requires if Starved(s, f) then r == Got(f.ser, Taken(s.d.win, need), if Soft(f.err) then Some(UnexpectedEOF) else f.err)
               else Stages(e, f.ser, need - n, more) && r == After(Taken(s.d.win, need), more)
      modifies repr
      ensures StandsAt(s1, err.None?) && fresh(repr - old(repr))
      ensures if Starved(s, f) then !Soft(err) && r.err == err && r.ser == s1 else err.None? && s1 == f.ser
    {
      err := FillAfter(s, need, f);
      s1 := f.ser;
      if !Soft(err) {
        return;
      }
      var left := Available(s1);
      err := None;
      if n == 0 && left == 0 {
        err := Some(UnexpectedEOF);
        Ends(s1);
      }
    }

    // And from p[..at] on to p[..to], with staging all of it r.
    method StageOn(p: array<byte>, at: nat, ghost need: nat, ghost s: Ser, ghost r: Got, ghost left: Got)
      returns (to: nat, err: Option<Error>, ghost rest: nat, ghost s1: Ser, ghost more: Got)
      requires StandsAt(s, true) && p !in repr && 0 < need && at + need == p.Length
      requires Stages(e, s, need, left) && r == After(p[..at], left)
      modifies repr, p
      ensures StandsAt(s1, err.None?) && fresh(repr - old(repr)) && to + rest == p.Length
      ensures err.Some? ==> !Soft(err) && r.err == err && r.ser == s1
      ensures err.None? ==> Stages(e, s1, rest, more) && r == After(p[..to], more)
      ensures err.None? ==> rest < need || (rest == need && s.d.win.unread == 0 && s1.d.win.unread > 0)
    {
      ghost var front, got := p[..at], [];
      var n;
      n, err, s1, got, more := StageOnce(p, at, need, s, left);
      to, rest := at + n, need - n;
      AfterAfter(front, got, more);
    }

    // stageFilterInput.
    method StageFilterInput(p: array<byte>, ghost s: Ser) returns (err: Option<Error>, ghost r: Got)
      requires StandsAt(s, true) && p !in repr && Consumed(s.d.win) >= 0
      modifies repr, p
      ensures Stages(e, s, p.Length, r) && err == r.err && (err.None? ==> p[..] == r.out)
      ensures StandsAt(r.ser, err.None?) && fresh(repr - old(repr))
    {
      r := StageStarts(e, s, p.Length, p[..0]);
      err := None;
      var at: nat := 0;
      ghost var s1, more, left: nat := s, r, p.Length;
      while at < p.Length
        invariant at + left == p.Length && err.None? && StandsAt(s1, true) && p !in repr && fresh(repr - old(repr))
        invariant Stages(e, s1, left, more) && r == After(p[..at], more)
        decreases left, s1.d.win.unread == 0
      {
        at, err, left, s1, more := StageOn(p, at, left, s1, r, more);
        if err.Some? {
          return;
        }
      }
      Staged(p, at, left, s1, r, more);
    }

    lemma {:induction false} Staged(p: array<byte>, at: nat, left: nat, s1: Ser, r: Got, more: Got)
      requires at + left == p.Length && left == 0 && Stages(e, s1, left, more) && r == After(p[..at], more)
      ensures r.err.None? && r.ser == s1 && r.out == p[..]
    {
      StageAll(e, s1, 0, more);
      assert p[..at] == p[..];
    }

    // The fields Read works on.
    method Fields(ghost s: Ser) returns (fl: seq<FilterBlock>, tot: nat, outbuf: seq<byte>)
      requires StandsAt(s, true)
      ensures fl == s.d.fl && tot == s.d.tot && outbuf == s.d.outbuf
    {
      assert Holds(s, true, Now);
      fl, tot, outbuf := sd.dec.fl, sd.dec.tot, sd.dec.outbuf;
    }

    method SetFields(fl: seq<FilterBlock>, tot: nat, outbuf: seq<byte>, ghost s: Ser)
      requires StandsAt(s, true)
      modifies repr
      ensures StandsAt(s.(d := s.d.(fl := fl, tot := tot, outbuf := outbuf)), true) && repr == old(repr)
    {
      assert Holds(s, true, Now);
      assert Looked(Now);
      sd.dec.fl, sd.dec.tot, sd.dec.outbuf := fl, tot, outbuf;
    }

    // The switch on the filter's type: the block is the front of the result.
    static method RunFilter(f: FilterBlock, buf: array<byte>, pos: nat) returns (out: array<byte>)
      requires f.ftype <= 3
      modifies buf
      ensures (out == buf || fresh(out)) && out.Length >= buf.Length
      ensures out[..buf.Length] == Rar5Laws.RunFilter(f, old(buf[..]), pos)
    {
      assert buf[..] == buf[..buf.Length];
      match f.ftype
      case 0 =>
        var spare := new byte[buf.Length];
        out := Filters.FilterDelta(f.param, buf, spare);
      case 3 =>
        BranchFilters.FilterArm(buf, pos);
        out := buf;
      case _ =>
        BranchFilters.FilterE8(if f.ftype == 1 then 0xe8 else 0xe9, buf, pos);
        out := buf;
    }

    // A filter's block, staged in buf, through the filter and to the caller.
    method Filtered(p: array<byte>, f: FilterBlock, buf: array<byte>, ghost s: Ser) returns (n: nat, err: Option<Error>)
      requires StandsAt(s, true) && p !in repr && buf !in repr && buf != p
      modifies repr, p, buf
      ensures var r := Emission.Filtered(e, f, s, old(buf[..]), p.Length);
        && n == |r.out| <= p.Length && p[..n] == r.out && p[n..] == old(p[n..]) && err == r.err
        && StandsAt(r.ser, err.None?) && repr == old(repr)
    {
      var fl, tot, outbuf := Fields(s);
      n := 0;
      if fl != [] && fl[0].start < f.start + f.length {
        Ends(s);
        return n, Some(InvalidFilter);
      }
      if f.ftype > 3 {
        Ends(s);
        return n, Some(UnknownFilter);
      }
      EngineFilters(s);
      var res := RunFilter(f, buf, tot);
      var out := res[..buf.Length];
      n := Deliver(p, out);
      SetFields(fl, tot + |out|, out[n..], s);
      err := None;
    }

    // copy(p, out).
    static method Deliver(p: array<byte>, out: seq<byte>) returns (n: nat)
      modifies p
      ensures n == Min(p.Length, |out|) && p[..n] == out[..n] && p[n..] == old(p[n..])
    {
      n := Min(p.Length, |out|);
      forall k | 0 <= k < n {
        p[k] := out[k];
      }
    }

    // The engine's filters are the repository's.
    lemma {:induction false} EngineFilters(s: Ser)
      requires StandsAt(s, true)
      ensures forall f, buf, pos :: e.RunFilter(f, buf, pos) == Rar5Laws.RunFilter(f, buf, pos)
    {
      IsEngine(s, true);
      Rar5Laws.Rar5Is(e);
    }

    // The unfiltered copy: at most n bytes, straight from the window.
    method CopyOut(p: array<byte>, n: nat, ghost s: Ser) returns (k: nat)
      requires StandsAt(s, true) && p !in repr && n <= p.Length
      modifies repr, p
      ensures var r := Copy(s, n);
        && k == |r.out| <= p.Length && p[..k] == r.out && p[k..] == old(p[k..]) && StandsAt(r.ser, true) && repr == old(repr)
    {
      k := TakeBytes(p, 0, n, s);
      var fl, tot, outbuf := Fields(TookBytes(s, n));
      SetFields(fl, tot + k, outbuf, TookBytes(s, n));
    }

    // Read once the window holds something.
    method Emit(p: array<byte>, ghost s: Ser) returns (n: nat, err: Option<Error>, ghost r: Got)
      requires StandsAt(s, true) && p !in repr
      modifies repr, p
      ensures r == Emission.Emit(e, s, p.Length)
      ensures n == |r.out| <= p.Length && p[..n] == r.out && p[n..] == old(p[n..]) && err == r.err
      ensures StandsAt(r.ser, err.None?) && fresh(repr - old(repr))
    {
      r := Emission.Emit(e, s, p.Length);
      err := None;
      var fl, tot, outbuf := Fields(s);
      if fl == [] || fl[0].start > tot {
        var limit := p.Length;
        if fl != [] {
          var avail := Available(s);
          limit := Min(Min(fl[0].start - tot, avail), limit);
        }
        n := CopyOut(p, limit, s);
        return;
      }
      n, err, r := EmitBlock(p, s);
    }

    // The filter at the head of the queue is due.
    method EmitBlock(p: array<byte>, ghost s: Ser) returns (n: nat, err: Option<Error>, ghost r: Got)
      requires StandsAt(s, true) && p !in repr && s.d.fl != [] && s.d.fl[0].start <= s.d.tot
      modifies repr, p
      ensures r == Emission.Emit(e, s, p.Length)
      ensures n == |r.out| <= p.Length && p[..n] == r.out && p[n..] == old(p[n..]) && err == r.err
      ensures StandsAt(r.ser, err.None?) && fresh(repr - old(repr))
    {
      r := Emission.Emit(e, s, p.Length);
      var fl, tot, outbuf := Fields(s);
      var f := fl[0];
      ghost var s0 := s.(d := s.d.(fl := fl[1..]));
      SetFields(fl[1..], tot, outbuf, s);
      var buf := new byte[f.length];
      ghost var staged;
      err, staged := StageFilterInput(buf, s0);
      StageIs(e, s0, f.length, staged);
      if err.Some? {
        n := 0;
        return;
      }
      n, err := Filtered(p, f, buf, staged.ser);
    }

    // Read.
    method Read(p: array<byte>, ghost s: Ser) returns (n: nat, err: Option<Error>, ghost r: Got)
      requires StandsAt(s, true) && p !in repr
      modifies repr, p
      ensures r == Emission.Read(e, s, p.Length)
      ensures n == |r.out| <= p.Length && p[..n] == r.out && p[n..] == old(p[n..]) && err == r.err
      ensures StandsAt(r.ser, Soft(err)) && fresh(repr - old(repr))
    {
      r := Emission.Read(e, s, p.Length);
      n, err := 0, None;
      var fl, tot, outbuf := Fields(s);
      if outbuf != [] {
        n := Deliver(p, outbuf);
        SetFields(fl, tot, outbuf[n..], s);
        return;
      }
      if p.Length == 0 {
        return;
      }
      var avail := Available(s);
      ghost var s1 := s;
      if avail == 0 {
        ghost var f;
        err, f := Fill(s);
        FillMet(s, f, Soft(err));
        s1 := f.ser;
        if !Soft(err) {
          return;
        }
        avail := Available(s1);
        if avail == 0 {
          err := Some(EOF);
          return;
        }
      }
      n, err, r := Emit(p, s1);
    }

    // A caller's buffer of n bytes.
    method ReadInto(n: nat, ghost s: Ser) returns (reply: Reply, ghost s1: Ser)
      requires StandsAt(s, true)
      modifies repr
      ensures Emission.Read(e, s, n) == Got(s1, reply.out, reply.err)
      ensures StandsAt(s1, Soft(reply.err)) && fresh(repr - old(repr))
    {
      var p := new byte[n];
      ghost var r;
      var k, err;
      k, err, r := Read(p, s);
      reply, s1 := Reply(p[..k], err), r.ser;
    }

    // Any calls, up to the first hard error.
    method ReadAll(sizes: seq<nat>, ghost s: Ser) returns (replies: seq<Reply>)
      requires StandsAt(s, true)
      modifies repr
      ensures replies == Run(e, s, sizes).replies
    {
      replies := [];
      ghost var s1, whole := s, Run(e, s, sizes).replies;
      for i := 0 to |sizes|
        invariant StandsAt(s1, true) && fresh(repr - old(repr))
        invariant whole == replies + Run(e, s1, sizes[i..]).replies
      {
        ghost var was, front := s1, replies;
        var reply;
        reply, s1 := ReadInto(sizes[i], s1);
        replies := replies + [reply];
        RunFurther(e, was, sizes[i..], reply, s1, front);
        if !Soft(reply.err) {
          return;
        }
        assert sizes[i..][1..] == sizes[i + 1..];
      }
    }
  }

  lemma {:induction false} RunFurther(e: Engine, s: Ser, sizes: seq<nat>, reply: Reply, s1: Ser, front: seq<Reply>)
    requires Lawful(e) && Consumed(s.d.win) >= 0 && sizes != [] && Emission.Read(e, s, sizes[0]) == Got(s1, reply.out, reply.err)
    ensures front + Run(e, s, sizes).replies ==
            front + [reply] + if Soft(reply.err) then Run(e, s1, sizes[1..]).replies else []
  {
  }

  // A serial decoder on its real parts, whatever buffers its Read is called with, answers as the
  // specification's does.
  method ReadAll(sd: BF.SerialDecoder, sizes: seq<nat>) returns (replies: seq<Reply>)
    requires sd.Valid()
    modifies if sd.br != null then {sd.br} else {}, sd, sd.dec, sd.dec.offset, sd.dec.win, sd.dec.win.buf, sd.tables.repr, sd.scratch
    ensures Lawful(Rar5Laws.Rar5Engine()) && Consumed(old(sd.dec.D()).win) >= 0
    ensures replies == Run(Rar5Laws.Rar5Engine(), old(Ser(sd.dec.D(), sd.At())), sizes).replies
  {
    ghost var s := Ser(sd.dec.D(), sd.At());
    var r := new SerialReader(sd);
    r.IsEngine(s, true);
    replies := r.ReadAll(sizes, s);
  }
}
