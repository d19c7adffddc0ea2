// Serial and parallel decoding deliver the same bytes and errors.

module Agreement {
  import opened Basics
  import opened DecodeTypes
  import opened Serial
  import opened Emission
  import opened Emitted
  import opened Pipeline

  function Unsealed(e: Engine): Engine {
    e.(sealed := false)
  }

  function Sealing(e: Engine): Engine {
    e.(sealed := true)
  }

  // The fill from s gets as far as a block whose code-length tables are cut.
  ghost predicate MeetsCut(e: Engine, s: Ser, target: nat)
    requires Lawful(e)
    decreases |s.at.src|, InBlock(s.at)
  {
    assert Laws(e, Now);
    s.d.win.unread < target &&
    if s.at.br.None? then
      TableCut(e, s.at.src)
      || (TakeBlock(e, s.at.src).Block? && MeetsCut(e, Ser(s.d, Enter(s.at, TakeBlock(e, s.at.src)).at), target))
    else
      match e.Parse(s.at.tables, s.at.br.value)
      case BlockEnd => !s.at.lastBlock && MeetsCut(e, Ser(s.d, s.at.(br := None)), target)
      case Stop(_, _) => false
      case Symbol(op, c) =>
        e.Apply(s.d, op).err.None? && MeetsCut(e, Ser(e.Apply(s.d, op).d, s.at.(br := Some(c))), target)
  }

  // The state a fill leaves in the pipeline, its place in the source included, is the serial decoder's
  // exactly when no such block is met. For what Read returns that is enough, but not needed: see CutUnseen.
  lemma {:induction false} FillsAgreeIff(e: Engine, s: Ser, target: nat)
    requires Lawful(e) && Lawful(Unsealed(e)) && Lawful(Sealing(e))
    ensures SerialFill(Unsealed(e), s, target) == SerialFill(Sealing(e), s, target) <==> !MeetsCut(e, s, target)
    decreases |s.at.src|, InBlock(s.at)
  {
    assert Laws(e, Now);
    var u, v := Unsealed(e), Sealing(e);
    if s.d.win.unread < target {
      if s.at.br.None? {
        var b := TakeBlock(e, s.at.src);
        assert TakeBlock(u, s.at.src) == b && TakeBlock(v, s.at.src) == b;
        if !TableCut(e, s.at.src) {
          var Entered(at, err) := Enter(s.at, b);
          if err.None? {
            FillsAgreeIff(e, Ser(s.d, at), target);
          }
        }
      } else {
        var p := e.Parse(s.at.tables, s.at.br.value);
        assert u.Parse(s.at.tables, s.at.br.value) == p && v.Parse(s.at.tables, s.at.br.value) == p;
        match p
        case BlockEnd =>
          if !s.at.lastBlock {
            FillsAgreeIff(e, Ser(s.d, s.at.(br := None)), target);
          }
        case Stop(_, _) =>
        case Symbol(op, c) =>
          var a := e.Apply(s.d, op);
          assert u.Apply(s.d, op) == a && v.Apply(s.d, op) == a;
          if a.err.None? {
            FillsAgreeIff(e, Ser(a.d, s.at.(br := Some(c))), target);
          }
      }
    }
  }

  // No block reached from src has its tables cut: something to be checked before decoding starts.
  predicate TablesWhole(e: Engine, src: seq<byte>)
    requires Lawful(e)
    decreases |src|
  {
    assert Laws(e, Now);
    var b := TakeBlock(e, src);
    !TableCut(e, src) && (b.Block? && !b.lastBlock ==> TablesWhole(e, b.rest))
  }

  ghost predicate WholeFrom(e: Engine, at: Place)
    requires Lawful(e)
  {
    (at.br.Some? && at.lastBlock) || TablesWhole(e, at.src)
  }

  lemma {:induction false} WholeMeetsNone(e: Engine, s: Ser, target: nat)
    requires Lawful(e) && Lawful(Unsealed(e)) && WholeFrom(e, s.at)
    ensures !MeetsCut(e, s, target)
    ensures var r := SerialFill(Unsealed(e), s, target); Soft(r.err) ==> WholeFrom(e, r.ser.at)
    decreases |s.at.src|, InBlock(s.at)
  {
    assert Laws(e, Now);
    var u := Unsealed(e);
    if s.d.win.unread < target {
      if s.at.br.None? {
        var b := TakeBlock(e, s.at.src);
        assert TakeBlock(u, s.at.src) == b;
        var Entered(at, err) := Enter(s.at, b);
        if err.None? {
          WholeMeetsNone(e, Ser(s.d, at), target);
        } else if Soft(err) {
          assert b == NoBlock(EOF, []) && TakeBlock(e, []) == NoBlock(EOF, []);
        }
      } else {
        var p := e.Parse(s.at.tables, s.at.br.value);
        assert u.Parse(s.at.tables, s.at.br.value) == p;
        match p
        case BlockEnd =>
          if !s.at.lastBlock {
            WholeMeetsNone(e, Ser(s.d, s.at.(br := None)), target);
          }
        case Stop(_, _) =>
        case Symbol(op, c) =>
          var a := e.Apply(s.d, op);
          assert u.Apply(s.d, op) == a;
          if a.err.None? {
            WholeMeetsNone(e, Ser(a.d, s.at.(br := Some(c))), target);
          }
      }
    }
  }

  // The two engines fill alike from s, and go on doing so.
  lemma {:induction false} FillsAgree(e: Engine, s: Ser, target: nat)
    requires Lawful(e) && Lawful(Unsealed(e)) && Lawful(Sealing(e)) && WholeFrom(e, s.at)
    ensures SerialFill(Unsealed(e), s, target) == SerialFill(Sealing(e), s, target)
    ensures var r := SerialFill(Sealing(e), s, target); Soft(r.err) ==> WholeFrom(e, r.ser.at)
  {
    FillsAgreeIff(e, s, target);
    WholeMeetsNone(e, s, target);
  }

  lemma {:induction false} RefillsAgree(e: Engine, s: Ser, need: nat, f: Filled, g: Filled)
    requires Lawful(e) && WholeFrom(e, s.at) && Refills(Unsealed(e), s, need, f) && Refills(Sealing(e), s, need, g)
    ensures f == g && (Soft(f.err) ==> WholeFrom(e, f.ser.at))
  {
    assert Refilled(Unsealed(e), s, need, f, Now) && Refilled(Sealing(e), s, need, g, Now);
    FillsAgree(e, TookBytes(s, need), FillTarget(s.d.win));
  }

  lemma {:induction false} StagesAgree(e: Engine, s: Ser, need: nat, r: Got, v: Got)
    requires Lawful(e) && WholeFrom(e, s.at) && Stages(Unsealed(e), s, need, r) && Stages(Sealing(e), s, need, v)
    ensures r == v && (r.err.None? ==> WholeFrom(e, r.ser.at))
    decreases need, s.d.win.unread == 0
  {
    if need <= s.d.win.unread {
      StageAll(Unsealed(e), s, need, r);
      StageAll(Sealing(e), s, need, v);
    } else {
      var f, more := StageTrip(Unsealed(e), s, need, r);
      var g, most := StageTrip(Sealing(e), s, need, v);
      RefillsAgree(e, s, need, f, g);
      if !Starved(s, f) {
        StagesAgree(e, f.ser, need - s.d.win.unread, more, most);
      }
    }
  }

  lemma {:induction false} EmitsAgree(e: Engine, s: Ser, n: nat)
    requires Lawful(e) && Lawful(Unsealed(e)) && Lawful(Sealing(e)) && WholeFrom(e, s.at) && Consumed(s.d.win) >= 0
    ensures Emit(Unsealed(e), s, n) == Emit(Sealing(e), s, n)
    ensures var r := Emit(Sealing(e), s, n); r.err.None? ==> WholeFrom(e, r.ser.at)
  {
    if s.d.fl != [] && s.d.fl[0].start <= s.d.tot {
      var s0, n0 := s.(d := s.d.(fl := s.d.fl[1..])), s.d.fl[0].length;
      StagesAgree(e, s0, n0, Stage(Unsealed(e), s0, n0), Stage(Sealing(e), s0, n0));
    }
    assert forall f, buf, pos :: Unsealed(e).RunFilter(f, buf, pos) == Sealing(e).RunFilter(f, buf, pos);
  }

  lemma {:induction false} ReadsAgree(e: Engine, s: Ser, n: nat)
    requires Lawful(e) && Lawful(Unsealed(e)) && Lawful(Sealing(e)) && WholeFrom(e, s.at) && Consumed(s.d.win) >= 0
    ensures Read(Unsealed(e), s, n) == Read(Sealing(e), s, n)
    ensures var r := Read(Sealing(e), s, n); Soft(r.err) ==> WholeFrom(e, r.ser.at)
  {
    if s.d.outbuf == [] && n > 0 {
      if s.d.win.unread > 0 {
        EmitsAgree(e, s, n);
      } else {
        var target := FillTarget(s.d.win);
        FillsAgree(e, s, target);
        var Filled(s1, err) := SerialFill(Sealing(e), s, target);
        if Soft(err) {
          EmitsAgree(e, s1, n);
        }
      }
    }
  }

  // Any run of Read, up to its first hard error.
  lemma {:induction false} RunsAgree(e: Engine, s: Ser, sizes: seq<nat>)
    requires Lawful(e) && Lawful(Unsealed(e)) && Lawful(Sealing(e)) && WholeFrom(e, s.at) && Consumed(s.d.win) >= 0
    ensures Run(Unsealed(e), s, sizes) == Run(Sealing(e), s, sizes)
    decreases |sizes|
  {
    if sizes != [] {
      ReadsAgree(e, s, sizes[0]);
      var Got(s1, out, err) := Read(Sealing(e), s, sizes[0]);
      if Soft(err) {
        RunsAgree(e, s1, sizes[1..]);
      }
    }
  }

  // A last block whose tables are cut, with no symbol left for the tables in force, leaves the two decoders
  // in different places, and no Read ever shows it.
  lemma {:induction false} CutUnseen(e: Engine, d: Dec, tables: Tables, src: seq<byte>, sizes: seq<nat>)
    requires Lawful(e) && Lawful(Unsealed(e)) && Lawful(Sealing(e)) && d.win.unread == 0 && d.outbuf == []
    requires TableCut(e, src) && TakeBlock(e, src).lastBlock && e.Parse(tables, TakeBlock(e, src).cur).BlockEnd?
    ensures !TablesWhole(e, src)
    ensures var s := Ser(d, Place(None, tables, false, src));
      && (FillTarget(d.win) > 0 ==> MeetsCut(e, s, FillTarget(d.win)))
      && Run(Unsealed(e), s, sizes).replies == Run(Sealing(e), s, sizes).replies
    decreases |sizes|
  {
    if sizes != [] {
      var u, v := Unsealed(e), Sealing(e);
      var b := TakeBlock(e, src);
      var s := Ser(d, Place(None, tables, false, src));
      if sizes[0] == 0 || FillTarget(d.win) == 0 {
        CutUnseen(e, d, tables, src, sizes[1..]);
      } else {
        var inside, outside := Ser(d, Place(Some(b.cur), tables, true, b.rest)), Ser(d, Place(None, tables, false, []));
        CutEntered(e, d, tables, src, sizes[0]);
        LastStill(u, inside);
        EndStill(v, outside);
        StillAlike(u, v, inside, outside, sizes[1..]);
      }
    }
  }

  lemma {:induction false} CutEntered(e: Engine, d: Dec, tables: Tables, src: seq<byte>, n: nat)
    requires Lawful(e) && Lawful(Unsealed(e)) && Lawful(Sealing(e)) && d.win.unread == 0 && d.outbuf == []
    requires TableCut(e, src) && n > 0 && FillTarget(d.win) > 0
    ensures var s, b := Ser(d, Place(None, tables, false, src)), TakeBlock(e, src);
      && Read(Unsealed(e), s, n) == Got(Ser(d, Place(Some(b.cur), tables, b.lastBlock, b.rest)), [], Some(EOF))
      && Read(Sealing(e), s, n) == Got(Ser(d, Place(None, tables, false, [])), [], Some(EOF))
  {
    assert Laws(e, Now);
    var u, v, b := Unsealed(e), Sealing(e), TakeBlock(e, src);
    var s := Ser(d, Place(None, tables, false, src));
    assert TakeBlock(u, src) == b && TakeBlock(v, src) == b;
    assert SerialFill(u, s, FillTarget(d.win)) == Filled(Ser(d, Place(Some(b.cur), tables, b.lastBlock, b.rest)), Some(EOF));
    assert SerialFill(v, s, FillTarget(d.win)) == Filled(Ser(d, Place(None, tables, false, [])), Some(EOF));
  }

  // Every Read from s says EOF and changes nothing.
  ghost predicate Still(e: Engine, s: Ser) {
    Lawful(e) && Consumed(s.d.win) >= 0 && forall n :: Read(e, s, n) == Got(s, [], if n == 0 then None else Some(EOF))
  }

  lemma {:induction false} LastStill(e: Engine, s: Ser)
    requires Lawful(e) && Consumed(s.d.win) >= 0 && s.d.win.unread == 0 && s.d.outbuf == []
    requires AtEnd(e, s.at) && s.at.lastBlock
    ensures Still(e, s)
  {
    assert SerialFill(e, s, FillTarget(s.d.win)).ser == s;
  }

  lemma {:induction false} EndStill(e: Engine, s: Ser)
    requires Lawful(e) && Consumed(s.d.win) >= 0 && s.d.win.unread == 0 && s.d.outbuf == []
    requires s.at.br.None? && s.at.src == []
    ensures Still(e, s)
  {
    assert Laws(e, Now);
    assert TakeBlock(e, []) == NoBlock(EOF, []);
    assert SerialFill(e, s, FillTarget(s.d.win)).ser == s;
  }

  lemma {:induction false} StillAlike(u: Engine, v: Engine, s: Ser, t: Ser, sizes: seq<nat>)
    requires Still(u, s) && Still(v, t)
    ensures Run(u, s, sizes).replies == Run(v, t, sizes).replies
    decreases |sizes|
  {
    if sizes != [] {
      assert Read(u, s, sizes[0]).err == Read(v, t, sizes[0]).err;
      StillAlike(u, v, s, t, sizes[1..]);
    }
  }

  // Calls Read with each buffer size in turn, stopping at the first hard error.
  method ReadAll(dec: Decoder50, sizes: seq<nat>) returns (replies: seq<Reply>)
    requires dec.Valid()
    modifies dec
    ensures replies == Run(dec.e, old(dec.g.ser), sizes).replies
  {
    replies := [];
    ghost var whole := Run(dec.e, dec.g.ser, sizes).replies;
    for i := 0 to |sizes|
      invariant dec.Valid()
      invariant whole == replies + Run(dec.e, dec.g.ser, sizes[i..]).replies
    {
      assert sizes[i..][1..] == sizes[i + 1..];
      var out, err := dec.Read(sizes[i]);
      if !Soft(err) {
        return replies + [Reply(out, err)];
      }
      Assoc(replies, [Reply(out, err)], Run(dec.e, dec.g.ser, sizes[i + 1..]).replies);
      replies := replies + [Reply(out, err)];
    }
  }

  // The repository's rule: from the same decoder state, tables and source, with no table cut, a
  // serial decoder and a pipeline of any number of workers, item capacity and payload limit,
  // whatever order its workers complete in, return the same bytes and the same error from every call,
  // and they are the ones of the specification.
  method BothDecoders(e: Engine, d: Dec, tables: Tables, src: seq<byte>, sizes: seq<nat>,
                      workers: nat, itemCap: nat, payloadLimit: int)
    returns (a: seq<Reply>, b: seq<Reply>)
    requires Lawful(e) && Consumed(d.win) >= 0 && workers > 1
    requires TablesWhole(e, src)
    ensures a == b && Lawful(Unsealed(e))
    ensures a == Run(Unsealed(e), Ser(d, Place(None, tables, false, src)), sizes).replies
  {
    SealedLawful(e, false);
    SealedLawful(e, true);
    var serial := new Decoder50(e, 1, itemCap, payloadLimit, d, tables, src);
    var parallel := new Decoder50(e, workers, itemCap, payloadLimit, d, tables, src);
    a := ReadAll(serial, sizes);
    b := ReadAll(parallel, sizes);
    RunsAgree(e, Ser(d, Place(None, tables, false, src)), sizes);
  }
}
