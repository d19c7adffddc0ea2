// Decoding never overruns unread data, and no decoded byte is lost count of.

module Bounds {
  import opened Basics
  import opened DecodeTypes
  import opened Serial
  import opened Emission
  import opened Emitted
  import opened Apply

  // What AppliedFits says, of any engine.
  ghost predicate AppliesFit(e: Engine) {
    forall d, op :: DecOk(d) && InRange(op) && d.win.unread < FillTarget(d.win) ==>
      DecOk(e.Apply(d, op).d) && |e.Apply(d, op).d.win.hist| <= |d.win.hist| + MAX_LENGTH
  }

  // Every symbol a fill from s applies finds the window with room for it.
  ghost predicate FindsRoom(e: Engine, s: Ser, target: nat)
    requires Lawful(e)
    decreases |s.at.src|, InBlock(s.at)
  {
    assert Laws(e, Now);
    s.d.win.unread < target ==>
      if s.at.br.None? then
        var Entered(at, err) := Enter(s.at, ReadBlock(e, s.at.src));
        err.None? ==> FindsRoom(e, Ser(s.d, at), target)
      else
        match e.Parse(s.at.tables, s.at.br.value)
        case BlockEnd => !s.at.lastBlock ==> FindsRoom(e, Ser(s.d, s.at.(br := None)), target)
        case Stop(_, _) => true
        case Symbol(op, c) =>
          var a := e.Apply(s.d, op);
          && s.d.win.unread + |a.d.win.hist| - |s.d.win.hist| < s.d.win.size
          && (a.err.None? ==> FindsRoom(e, Ser(a.d, s.at.(br := Some(c))), target))
  }

  lemma {:induction false} FillFits(e: Engine, s: Ser, target: nat)
    requires Lawful(e) && AppliesFit(e) && DecOk(s.d) && target <= FillTarget(s.d.win)
    ensures FindsRoom(e, s, target)
    ensures DecOk(SerialFill(e, s, target).ser.d)
    decreases |s.at.src|, InBlock(s.at)
  {
    assert Laws(e, Now);
    if s.d.win.unread < target {
      if s.at.br.None? {
        var Entered(at, err) := Enter(s.at, ReadBlock(e, s.at.src));
        if err.None? {
          FillFits(e, Ser(s.d, at), target);
        }
      } else {
        match e.Parse(s.at.tables, s.at.br.value)
        case BlockEnd =>
          if !s.at.lastBlock {
            FillFits(e, Ser(s.d, s.at.(br := None)), target);
          }
        case Stop(_, _) =>
        case Symbol(op, c) =>
          var a := e.Apply(s.d, op);
          assert Grown(s.d, a.d);
          if a.err.None? {
            FillFits(e, Ser(a.d, s.at.(br := Some(c))), target);
          }
      }
    }
  }

  // d' is d with n bytes taken from the window, and whatever was decoded meanwhile.
  ghost predicate Accounts(d: Dec, d': Dec, n: int) {
    && d'.decoded - d'.win.unread == d.decoded - d.win.unread + n
    && d'.tot == d.tot && d'.win.size == d.win.size
  }

  lemma {:induction false} FillAccounts(e: Engine, s: Ser, target: nat)
    requires Lawful(e)
    ensures Accounts(s.d, SerialFill(e, s, target).ser.d, 0)
  {
    assert Decoded(s.d, s.d);
    FillDecodes(e, s.d, s, target);
  }

  lemma {:induction false} AccountsBoth(d: Dec, d1: Dec, d2: Dec, a: int, b: int)
    requires Accounts(d, d1, a) && Accounts(d1, d2, b)
    ensures Accounts(d, d2, a + b)
  {
  }

  lemma {:induction false} RefillAccounts(e: Engine, s: Ser, need: nat, f: Filled)
    requires Refills(e, s, need, f) && need > s.d.win.unread
    ensures Accounts(s.d, f.ser.d, s.d.win.unread)
  {
    assert Refilled(e, s, need, f, Now);
    FillAccounts(e, TookBytes(s, need), FillTarget(s.d.win));
  }

  // Staging a filter's input neither loses nor invents a byte, however it ends.
  lemma {:induction false} StageAccounts(e: Engine, s: Ser, need: nat, r: Got)
    requires Stages(e, s, need, r)
    ensures Accounts(s.d, r.ser.d, |r.out|) && |r.out| <= need && (r.err.None? ==> |r.out| == need)
    decreases need, s.d.win.unread == 0
  {
    if need <= s.d.win.unread {
      StageAll(e, s, need, r);
    } else {
      var f, more := StageTrip(e, s, need, r);
      RefillAccounts(e, s, need, f);
      if !Starved(s, f) {
        StageAccounts(e, f.ser, need - s.d.win.unread, more);
        AccountsBoth(s.d, f.ser.d, more.ser.d, s.d.win.unread, |more.out|);
      }
    }
  }

  lemma {:induction false} RefillFits(e: Engine, s: Ser, need: nat, f: Filled)
    requires Refills(e, s, need, f) && AppliesFit(e) && DecOk(s.d)
    ensures DecOk(f.ser.d)
  {
    assert Refilled(e, s, need, f, Now);
    FillFits(e, TookBytes(s, need), FillTarget(s.d.win));
  }

  lemma {:induction false} StageFits(e: Engine, s: Ser, need: nat, r: Got)
    requires Stages(e, s, need, r) && AppliesFit(e) && DecOk(s.d)
    ensures DecOk(r.ser.d)
    decreases need, s.d.win.unread == 0
  {
    if need <= s.d.win.unread {
      StageAll(e, s, need, r);
    } else {
      var f, more := StageTrip(e, s, need, r);
      RefillFits(e, s, need, f);
      if !Starved(s, f) {
        StageFits(e, f.ser, need - s.d.win.unread, more);
      }
    }
  }

  // decoded is tot plus what is unread, plus what a failed filter had taken from the window and not
  // delivered.
  ghost predicate Counted(d: Dec, held: nat) {
    DecOk(d) && d.decoded == d.tot + d.win.unread + held
  }

  // What a filter stages from s on, if it is one's turn: what is held should it fail.
  ghost function EmitHolds(e: Engine, s: Ser): nat
    requires Lawful(e) && Consumed(s.d.win) >= 0
  {
    if s.d.fl == [] || s.d.fl[0].start > s.d.tot then 0
    else |Stage(e, s.(d := s.d.(fl := s.d.fl[1..])), s.d.fl[0].length).out|
  }

  // What a failed Read, and a run's last call, leave held: nothing unless a filter failed.
  ghost function ReadHolds(e: Engine, s: Ser, n: nat): nat
    requires Lawful(e) && Consumed(s.d.win) >= 0
  {
    if Soft(Read(e, s, n).err) then 0
    else if s.d.win.unread > 0 then EmitHolds(e, s)
    else
      var Filled(s1, err) := SerialFill(e, s, FillTarget(s.d.win));
      if Soft(err) then EmitHolds(e, s1) else 0
  }

  ghost function RunHolds(e: Engine, s: Ser, sizes: seq<nat>): nat
    requires Lawful(e) && Consumed(s.d.win) >= 0
    decreases |sizes|
  {
    if sizes == [] then 0
    else
      var Got(s1, _, err) := Read(e, s, sizes[0]);
      if Soft(err) then RunHolds(e, s1, sizes[1..]) else ReadHolds(e, s, sizes[0])
  }

  lemma {:induction false} ReadFits(e: Engine, s: Ser, n: nat)
    requires Lawful(e) && AppliesFit(e) && Counted(s.d, 0) && Consumed(s.d.win) >= 0
    ensures Counted(Read(e, s, n).ser.d, ReadHolds(e, s, n))
  {
    if s.d.outbuf == [] && n > 0 {
      if s.d.win.unread > 0 {
        EmitFits(e, s, n);
      } else {
        FillFits(e, s, FillTarget(s.d.win));
        FillAccounts(e, s, FillTarget(s.d.win));
        var Filled(s1, err) := SerialFill(e, s, FillTarget(s.d.win));
        if Soft(err) && s1.d.win.unread > 0 {
          EmitFits(e, s1, n);
        }
      }
    }
  }

  lemma {:induction false} EmitFits(e: Engine, s: Ser, n: nat)
    requires Lawful(e) && AppliesFit(e) && Counted(s.d, 0) && Consumed(s.d.win) >= 0
    ensures var Got(s', out, err) := Emit(e, s, n); Counted(s'.d, if Soft(err) then 0 else EmitHolds(e, s))
  {
    assert Laws(e, Now);
    var d := s.d;
    if d.fl != [] && d.fl[0].start <= d.tot {
      var f, s0 := d.fl[0], s.(d := d.(fl := d.fl[1..]));
      var st := Stage(e, s0, f.length);
      StageFits(e, s0, f.length, st);
      StageAccounts(e, s0, f.length, st);
      if st.err.None? {
        assert |e.RunFilter(f, st.out, st.ser.d.tot)| == |st.out|;
      }
    }
  }

  // In every run, whatever the buffer sizes: unread bytes stay below the window's size, and no
  // decoded byte is lost count of.
  lemma {:induction false} RunFits(e: Engine, s: Ser, sizes: seq<nat>)
    requires Lawful(e) && AppliesFit(e) && Counted(s.d, 0) && Consumed(s.d.win) >= 0
    ensures Counted(Run(e, s, sizes).ser.d, RunHolds(e, s, sizes))
    ensures Soft(Run(e, s, sizes).Err()) ==> RunHolds(e, s, sizes) == 0
    decreases |sizes|
  {
    if sizes != [] {
      ReadFits(e, s, sizes[0]);
      var Got(s1, out, err) := Read(e, s, sizes[0]);
      if Soft(err) {
        RunFits(e, s1, sizes[1..]);
        RunOn(Reply(out, err), Run(e, s1, sizes[1..]));
      }
    }
  }
}
