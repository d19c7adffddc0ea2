// decoder50.Read and stageFilterInput as a specification over the serial fill, and what they emit
// (decoder50.go:324-458).

module Emission {
  import opened Basics
  import opened DecodeTypes
  import opened Serial

  // window.Read: at most n unread bytes, oldest first.
  function Taken(w: Win, n: nat): seq<byte>
    requires Consumed(w) >= 0
  {
    w.hist[Consumed(w)..Consumed(w) + Min(n, w.unread)]
  }

  function Took(w: Win, n: nat): (w': Win)
    ensures Consumed(w') == Consumed(w) + Min(n, w.unread)
  {
    w.(unread := w.unread - Min(n, w.unread))
  }

  function TookBytes(s: Ser, n: nat): Ser {
    s.(d := s.d.(win := Took(s.d.win, n)))
  }

  // What a read ends with: the decoder, the bytes delivered, the error.
  datatype Got = Got(ser: Ser, out: seq<byte>, err: Option<Error>)

  // The fill that follows once everything in the window has been taken.
  function Refill(e: Engine, s: Ser, need: nat): (r: Filled)
    requires Lawful(e) && Consumed(s.d.win) >= 0
    ensures Consumed(r.ser.d.win) >= 0 && (need > s.d.win.unread ==> s.d.win.hist <= r.ser.d.win.hist)
  {
    SerialFill(e, TookBytes(s, need), FillTarget(s.d.win))
  }

  // Nothing is to be had from the window, from before or after a fill, or the fill failed.
  predicate Starved(s: Ser, r: Filled) {
    !Soft(r.err) || (s.d.win.unread == 0 && r.ser.d.win.unread == 0)
  }

  // stageFilterInput for need more bytes.
  function Stage(e: Engine, s: Ser, need: nat): (r: Got)
    requires Lawful(e) && Consumed(s.d.win) >= 0
    ensures Consumed(r.ser.d.win) >= 0 && (r.err.Some? ==> !Soft(r.err))
    decreases need, s.d.win.unread == 0
  {
    if need <= s.d.win.unread then Got(TookBytes(s, need), Taken(s.d.win, need), None)
    else
      var f := Refill(e, s, need);
      if Starved(s, f) then Got(f.ser, Taken(s.d.win, need), if Soft(f.err) then Some(UnexpectedEOF) else f.err)
      else After(Taken(s.d.win, need), Stage(e, f.ser, need - s.d.win.unread))
  }

  // Staging need bytes from s gives r, and its first fill is f: said without saying how they come about,
  // which a proof asks for with Staged(.., Now) or Refilled(.., Now).
  ghost predicate Stages(e: Engine, s: Ser, need: nat, r: Got) {
    Lawful(e) && Consumed(s.d.win) >= 0 && forall now: Asked :: Staged(e, s, need, r, now)
  }

  ghost predicate Staged(e: Engine, s: Ser, need: nat, r: Got, now: Asked)
    requires Lawful(e) && Consumed(s.d.win) >= 0
  {
    Stage(e, s, need) == r
  }

  ghost predicate Refilled(e: Engine, s: Ser, need: nat, f: Filled, now: Asked)
    requires Lawful(e) && Consumed(s.d.win) >= 0
  {
    Refill(e, s, need) == f
  }

  ghost predicate Refills(e: Engine, s: Ser, need: nat, f: Filled) {
    Lawful(e) && Consumed(s.d.win) >= 0 && forall now: Asked :: Refilled(e, s, need, f, now)
  }

  lemma {:induction false} StageStarts(e: Engine, s: Ser, need: nat, none: seq<byte>) returns (r: Got)
    requires Lawful(e) && Consumed(s.d.win) >= 0 && none == []
    ensures Stages(e, s, need, r) && r == After(none, r)
  {
    r := Stage(e, s, need);
  }

  lemma {:induction false} StageIs(e: Engine, s: Ser, need: nat, r: Got)
    requires Stages(e, s, need, r)
    ensures Stage(e, s, need) == r
  {
    assert Staged(e, s, need, r, Now);
  }

  // Everything is there.
  lemma {:induction false} StageAll(e: Engine, s: Ser, need: nat, r: Got)
    requires Stages(e, s, need, r) && need <= s.d.win.unread
    ensures r == Got(TookBytes(s, need), Taken(s.d.win, need), None)
  {
    assert Staged(e, s, need, r, Now);
  }

  lemma {:induction false} StageNone(e: Engine, s: Ser)
    requires Lawful(e) && Consumed(s.d.win) >= 0
    ensures Stages(e, s, 0, Got(s, [], None))
  {
    var w := s.d.win;
    assert TookBytes(s, 0) == s && Taken(w, 0) == [];
  }

  lemma {:induction false} StageEnds(e: Engine, s: Ser, need: nat, r: Got) returns (more: Got)
    requires Stages(e, s, need, r) && need <= s.d.win.unread
    ensures Stages(e, TookBytes(s, need), 0, more) && r == After(Taken(s.d.win, need), more)
  {
    more := Got(TookBytes(s, need), [], None);
    StageAll(e, s, need, r);
    StageNone(e, TookBytes(s, need));
  }

  // It is not: one trip of the loop, and what the rest of it gives.
  lemma {:induction false} StageTrip(e: Engine, s: Ser, need: nat, r: Got) returns (f: Filled, more: Got)
    requires Stages(e, s, need, r) && need > s.d.win.unread
    ensures Refills(e, s, need, f) && Consumed(f.ser.d.win) == |s.d.win.hist| && s.d.win.hist <= f.ser.d.win.hist
    ensures if Starved(s, f) then r == Got(f.ser, Taken(s.d.win, need), if Soft(f.err) then Some(UnexpectedEOF) else f.err)
            else Stages(e, f.ser, need - s.d.win.unread, more) && r == After(Taken(s.d.win, need), more)
  {
    assert Staged(e, s, need, r, Now);
    f, more := Refill(e, s, need), Got(s, [], None);
    if !Starved(s, f) {
      more := Stage(e, f.ser, need - s.d.win.unread);
    }
  }

  // decoder50.Read into a buffer of n bytes.
  function Read(e: Engine, s: Ser, n: nat): (r: Got)
    requires Lawful(e) && Consumed(s.d.win) >= 0
    ensures Consumed(r.ser.d.win) >= 0
  {
    if s.d.outbuf != [] then
      var k := Min(n, |s.d.outbuf|);
      Got(s.(d := s.d.(outbuf := s.d.outbuf[k..])), s.d.outbuf[..k], None)
    else if n == 0 then Got(s, [], None)
    else if s.d.win.unread > 0 then Emit(e, s, n)
    else
      var Filled(s1, err) := SerialFill(e, s, FillTarget(s.d.win));
      if !Soft(err) then Got(s1, [], err)
      else if s1.d.win.unread == 0 then Got(s1, [], Some(EOF))
      else Emit(e, s1, n)
  }

  // Read once the window holds something.
  function Emit(e: Engine, s: Ser, n: nat): (r: Got)
    requires Lawful(e) && Consumed(s.d.win) >= 0
    ensures Consumed(r.ser.d.win) >= 0 && (r.err.Some? ==> !Soft(r.err))
  {
    var d := s.d;
    if d.fl == [] then Copy(s, n)
    else if d.fl[0].start > d.tot then Copy(s, Min(d.fl[0].start - d.tot, n))
    else
      var f := d.fl[0];
      var Got(s1, buf, err) := Stage(e, s.(d := d.(fl := d.fl[1..])), f.length);
      if err.Some? then Got(s1, [], err) else Filtered(e, f, s1, buf, n)
  }

  // The filter at the head of the queue is due: it is staged and applied.
  lemma {:induction false} FilterDue(e: Engine, s: Ser, n: nat) returns (r: Got)
    requires Lawful(e) && Consumed(s.d.win) >= 0 && s.d.fl != [] && s.d.fl[0].start <= s.d.tot
    ensures var f := s.d.fl[0];
      && Stages(e, s.(d := s.d.(fl := s.d.fl[1..])), f.length, r)
      && Emit(e, s, n) == if r.err.Some? then Got(r.ser, [], r.err) else Filtered(e, f, r.ser, r.out, n)
  {
    r := Stage(e, s.(d := s.d.(fl := s.d.fl[1..])), s.d.fl[0].length);
  }

  // The filter f applied to its input. One that overlaps the next is refused.
  function Filtered(e: Engine, f: FilterBlock, s: Ser, buf: seq<byte>, n: nat): (r: Got)
    ensures r.ser.d.win == s.d.win && (r.err.Some? ==> !Soft(r.err))
  {
    if s.d.fl != [] && s.d.fl[0].start < f.start + f.length then Got(s, [], Some(InvalidFilter))
    else if f.ftype > 3 then Got(s, [], Some(UnknownFilter))
    else
      var out := e.RunFilter(f, buf, s.d.tot);
      var k := Min(n, |out|);
      Got(s.(d := s.d.(tot := s.d.tot + |out|, outbuf := out[k..])), out[..k], None)
  }

  // The unfiltered copy from the window to the caller.
  function Copy(s: Ser, n: nat): (r: Got)
    requires Consumed(s.d.win) >= 0
    ensures Consumed(r.ser.d.win) >= 0
  {
    var out := Taken(s.d.win, n);
    var s1 := TookBytes(s, n);
    Got(s1.(d := s1.d.(tot := s1.d.tot + |out|)), out, None)
  }

  function After(got: seq<byte>, r: Got): Got {
    r.(out := got + r.out)
  }

  lemma {:induction false} AfterAfter(a: seq<byte>, b: seq<byte>, r: Got)
    ensures After(a, After(b, r)) == After(a + b, r)
  {
    assert a + (b + r.out) == (a + b) + r.out;
  }
}
