// Solid history over a whole extraction run of a RAR5 archive: what dispatch admits, and what
// finishActive and the refusals record about the window (reader.go:565-827, 1124-1150).

module SolidRun {
  import opened Basics
  import E = Entry
  import W = Window

  // A file block as dispatch sees it: how its header parses, and what it declares.
  datatype Parse = Parsed | Named | Nameless   // Named: it failed, but says which new member it was

  datatype FileBlock = FileBlock(
    parse: Parse, firstBlock: bool, header: E.Header, unpackVersion: nat, solid: bool,
    packed: nat, dictSize: int, stored: bool
  )

  datatype Cause = BadHeader | Unsupported | SolidMismatch | Bomb | TooLarge | DictMismatch | Broken | NoChain

  // What dispatch makes of a file block.
  datatype Seen = Skipped | Refused(cause: Cause) | Linked | Admitted

  // How a file block ended, for the history: good only if it was admitted and delivered in full, or is
  // a link, which contributes nothing.
  datatype Fate = Good | Bad

  const BOMB_RATIO: nat := 65536
  const BOMB_FLOOR: nat := 1024 * 1024
  const MAX_INT64: nat := 0x7fff_ffff_ffff_ffff

  function Expands(b: FileBlock): bool {
    b.packed == 0 || (b.packed <= MAX_INT64 / BOMB_RATIO && b.header.unpackedSize > BOMB_RATIO * b.packed)
  }

  ghost predicate AllGood(fates: seq<Fate>) {
    forall i :: 0 <= i < |fates| ==> fates[i] == Good
  }

  // The verdicts that leave the history as its successors assume.
  predicate Sound(e: E.Entry)
    reads e
  {
    !e.Short() && (e.done == Some(E.End) || e.done == Some(E.ChecksumUnsupported))
  }

  // The member a file block declares.
  predicate Of(e: E.Entry, b: FileBlock) {
    e.header == b.header && e.size == b.header.unpackedSize
  }

  class Reader {
    const win: W.Window
    const g: E.Digests
    const done: E.Signal
    const maxWindow: int
    var entry: E.Entry?
    var solid: bool
    var solidSeen: bool
    var archiveMax: int
    var capLatched: bool
    ghost var since: seq<Fate>         // of the file blocks since the one that last reset the history
    ghost var chains: seq<FileBlock>   // the members a decode chain has been built for

    // The window's flag says exactly whether anything since then went wrong.
    ghost predicate Valid()
      reads this, win, win.buf, entry
    {
      && win.Valid() && g.Incremental()
      && (entry != null ==> entry.Valid())
      && (win.incomplete <==> !AllGood(since))
    }

    // The entry in progress was built here, on this Reader's signal.
    twostate predicate Owned()
      reads this, entry
    {
      entry != null ==> fresh(entry) && entry.cancelled == done && (entry.src != null ==> fresh(entry.src))
    }

    constructor (win: W.Window, g: E.Digests, done: E.Signal, maxWindow: int)
      requires win.Valid() && g.Incremental() && !win.incomplete
      ensures Valid() && entry == null && since == [] && chains == [] && this.win == win
    {
      this.win, this.g, this.done, this.maxWindow := win, g, done, maxWindow;
      entry, solid, solidSeen, archiveMax, capLatched, since, chains := null, false, false, 0, false, [], [];
    }

    // The archive header's solid flag: the first one seen sets it, every later one must agree.
    method ArchiveHeader(flag: bool) returns (ok: bool)
      requires Valid()
      modifies this`solid, this`solidSeen
      ensures Valid() && ok == !(old(solidSeen) && old(solid) != flag)
      ensures if ok then solidSeen && solid == flag else solid == old(solid) && solidSeen == old(solidSeen)
    {
      if solidSeen && solid != flag {
        return false;
      }
      solid, solidSeen := flag, true;
      ok := true;
    }

    method MarkIncomplete()
      requires win.Valid()
      modifies win`incomplete
      ensures win.Valid() && win.incomplete
    {
      win.incomplete := true;
    }

    // A block that contributed nothing the history's successors may build on.
    method Damage()
      requires Valid()
      modifies win`incomplete, this`since
      ensures Valid() && since == old(since) + [Bad] && win.incomplete && win.W() == old(win.W())
    {
      MarkIncomplete();
      since := since + [Bad];
      assert since[|since| - 1] == Bad;
    }

    // A block the history's successors need not mind.
    method NoDamage()
      requires Valid()
      modifies this`since
      ensures Valid() && since == old(since) + [Good]
    {
      ghost var was := since;
      since := since + [Good];
      assert forall i :: 0 <= i < |was| ==> since[i] == was[i];
      assert since[|was|] == Good;
    }

    // How a member that had no verdict yet is left: in a solid archive read out, since its successors need
    // what it decodes; in any other cut off where it is.
    ghost predicate Left(e: E.Entry, verdict: Option<E.Fault>, src: E.Chain?, asked: nat)
      reads this, e, e.cancelled, src
    {
      if !solid then e.src == null
      else verdict.None? && src != null ==> e.src == src && e.ReadOut(asked)
    }

    // finishActive: the member in progress is read out in a solid archive and cut in any other; either
    // way the window is marked unless the member delivered everything soundly.
    method FinishActive()
      requires Valid()
      modifies this`entry, this`since, win`incomplete, entry, if entry != null then {entry.cancelled} else {},
        if entry != null && entry.src != null then {entry.src} else {}
      ensures Valid() && entry == null && win.W() == old(win.W())
      ensures old(entry) != null ==> old(entry).Valid() && old(entry).done.Some?
      ensures old(entry) == null ==> since == old(since)
      ensures old(entry) != null ==> since == old(since) + [if Sound(old(entry)) then Good else Bad]
      ensures old(entry) != null ==> Left(old(entry), old(entry.done), old(entry.src), if old(entry.src != null) then old(entry.src.asked) else 0)
    {
      var e := entry;
      if e == null {
        return;
      }
      entry := null;
      End(e);
      if e.Short() || (e.done.Some? && e.done != Some(E.End) && e.done != Some(E.ChecksumUnsupported)) {
        Damage();
      } else {
        NoDamage();
      }
    }

    method End(e: E.Entry)
      requires e.Valid()
      modifies e, e.cancelled, e.src
      ensures e.Valid() && e.done.Some?
      ensures Left(e, old(e.done), old(e.src), if old(e.src != null) then old(e.src.asked) else 0)
    {
      if solid {
        var _ := e.Close();
      } else {
        e.Sever();
      }
    }

    // sizeWindow. reserved says whether the system provides a larger buffer when asked.
    method SizeWindow(b: FileBlock, reserved: bool) returns (cause: Option<Cause>)
      requires Valid() && entry == null
      modifies this`archiveMax, this`capLatched, win
      ensures win.Valid() && win.incomplete == old(win.incomplete) && (win.buf == old(win.buf) || fresh(win.buf))
      ensures b.solid || cause.Some? ==> win.W() == old(win.W())
      ensures since == old(since) && entry == old(entry) && solid == old(solid)
      ensures cause.None? && !b.solid ==> win.W().size == Grown(b, old(win.W()).size, if old(capLatched) then old(archiveMax) else maxWindow)
      ensures cause == (
        if b.dictSize <= 0 || b.stored || Min(b.dictSize, if old(capLatched) then old(archiveMax) else maxWindow) <= old(win.W()).size then None
        else if b.solid then if win.incomplete then None else Some(DictMismatch)
        else if reserved then None else Some(TooLarge))
    {
      if b.dictSize <= 0 || b.stored {
        return None;
      }
      if !capLatched {
        archiveMax, capLatched := maxWindow, true;
      }
      var want := Min(b.dictSize, archiveMax);
      if want <= win.buf.Length {
        return None;
      }
      if b.solid {
        if win.incomplete {
          return None;
        }
        return Some(DictMismatch);
      }
      var ok := win.Grow(want, reserved);
      cause := if ok then None else Some(TooLarge);
    }

    method Refuse(cause: Cause) returns (r: Seen)
      requires Valid() && entry == null
      modifies win`incomplete, this`since
      ensures Valid() && entry == null && r == Refused(cause) && since == old(since) + [Bad] && win.incomplete && win.W() == old(win.W())
    {
      Damage();
      r := Refused(cause);
    }

    // dispatch on a file block, past the check that the set starts here. chainOk says whether the
    // password and the key derivation let the chain be built.
    method Dispatch(b: FileBlock, reserved: bool, chainOk: bool) returns (r: Seen)
      requires Valid() && entry == null
      modifies this, win
      ensures Valid() && (entry != null <==> r.Admitted?) && Owned() && (entry != null ==> Of(entry, b))
      // A solid member's chain is built only on a history nothing has gone wrong in, which it keeps, in a
      // window it has not grown.
      ensures r.Admitted? && b.solid ==> old(AllGood(since)) && since == old(since) && win.W() == old(win.W()).(unread := 0)
      ensures b.solid ==> win.W().size == old(win.W()).size && win.W().hist == old(win.W()).hist
      // Any other admitted member starts the history afresh.
      ensures r.Admitted? && !b.solid ==> since == [] && win.W().hist == [] && !win.incomplete
      ensures r.Admitted? && !b.solid ==> win.W().size == Grown(b, old(win.W()).size, if old(capLatched) then old(archiveMax) else maxWindow)
      ensures r.Linked? ==> since == old(since) + [Good] && win.W() == old(win.W())
      ensures chains == old(chains) + if r.Admitted? then [b] else []
      ensures solid == old(solid) && solidSeen == old(solidSeen)
      ensures r.Skipped? || r.Refused? ==> win.incomplete
      ensures r == Refused(Broken) ==> b.solid && !old(AllGood(since))
      ensures r.Skipped? || r.Refused? ==> since == (if !b.solid && r == Refused(NoChain) then [] else old(since)) + [Bad]
      // Which blocks get as far as that is decided in this order.
      ensures r == Decided(b, solid, old(win.incomplete), old(win.W().size),
                           if old(capLatched) then old(archiveMax) else maxWindow, reserved, chainOk)
    {
      if b.parse != Parsed {
        Damage();
        return if b.parse == Named then Refused(BadHeader) else Skipped;
      }
      if !b.firstBlock {
        Damage();
        return Skipped;
      }
      if b.unpackVersion != 0 {
        r := Refuse(Unsupported);
        return;
      }
      if b.solid && !solid {
        r := Refuse(SolidMismatch);
        return;
      }
      if b.header.link {
        NoDamage();
        return Linked;
      }
      if b.header.unpackedSize > BOMB_FLOOR && Expands(b) {
        r := Refuse(Bomb);
        return;
      }
      r := Admit(b, reserved, chainOk);
    }

    method Admit(b: FileBlock, reserved: bool, chainOk: bool) returns (r: Seen)
      requires Valid() && entry == null && (b.solid ==> solid)
      modifies this, win
      ensures Valid() && (entry != null <==> r.Admitted?) && solid == old(solid) && solidSeen == old(solidSeen) && Owned() && (entry != null ==> Of(entry, b))
      ensures r.Admitted? && b.solid ==> old(AllGood(since)) && since == old(since) && win.W() == old(win.W()).(unread := 0)
      ensures b.solid ==> win.W().size == old(win.W()).size && win.W().hist == old(win.W()).hist
      ensures r.Admitted? && !b.solid ==> since == [] && win.W().hist == [] && !win.incomplete
      ensures chains == old(chains) + if r.Admitted? then [b] else []
      ensures r.Refused? ==> win.incomplete
      ensures r == Refused(Broken) ==> b.solid && !old(AllGood(since))
      ensures r.Refused? ==> since == (if !b.solid && r == Refused(NoChain) then [] else old(since)) + [Bad]
      ensures r.Admitted? && !b.solid ==> win.W().size == Grown(b, old(win.W()).size, if old(capLatched) then old(archiveMax) else maxWindow)
      ensures r == Sized(b, old(win.incomplete), old(win.W().size), if old(capLatched) then old(archiveMax) else maxWindow, reserved, chainOk)
    {
      var cause := SizeWindow(b, reserved);
      if cause.Some? {
        r := Refuse(cause.value);
        return;
      }
      r := Begin(b, chainOk);
    }

    // BeginFile, then the entry and its decode chain.
    method Begin(b: FileBlock, chainOk: bool) returns (r: Seen)
      requires Valid() && entry == null && (b.solid ==> solid)
      modifies this`entry, this`since, this`chains, win
      ensures Valid() && (entry != null <==> r.Admitted?) && Owned() && (entry != null ==> Of(entry, b))
      ensures chains == old(chains) + if r.Admitted? then [b] else []
      ensures r == if b.solid && old(win.incomplete) then Refused(Broken) else if chainOk then Admitted else Refused(NoChain)
      ensures if r == Refused(Broken) then win.W() == old(win.W()) && win.incomplete
              else if b.solid then win.W() == old(win.W()).(unread := 0) else win.W().hist == [] && win.W().size == old(win.W()).size
      ensures r.Admitted? ==> !win.incomplete && since == if b.solid then old(since) else []
      ensures r.Refused? ==> win.incomplete && since == (if !b.solid && r == Refused(NoChain) then [] else old(since)) + [Bad]
    {
      var ok := win.BeginFile(b.solid);
      if !ok {
        r := Refuse(Broken);
        return;
      }
      if !b.solid {
        since := [];
      }
      if !chainOk {
        r := Refuse(NoChain);
        return;
      }
      BuildEntry(b);
      r := Admitted;
    }

    method BuildEntry(b: FileBlock)
      requires g.Incremental()
      modifies this`entry, this`chains
      ensures entry != null && entry.Valid() && Owned() && Of(entry, b) && chains == old(chains) + [b]
    {
      var e := new E.Entry(g, b.header, null, done);
      var chain := new E.Chain(b.packed);
      e.SetSource(chain);
      entry := e;
      chains := chains + [b];
    }
  }

  // The window a member needs, where that is more than there is.
  function Grown(b: FileBlock, size: nat, cap: int): nat {
    if b.dictSize <= 0 || b.stored || b.dictSize <= size || cap <= size then size
    else if b.dictSize <= cap then b.dictSize else cap
  }

  // The order of dispatch's decisions, as a function of what they read.
  function Decided(b: FileBlock, solid: bool, incomplete: bool, size: nat, cap: int, reserved: bool, chainOk: bool): Seen {
    if b.parse == Nameless || (b.parse == Parsed && !b.firstBlock) then Skipped
    else if b.parse == Named then Refused(BadHeader)
    else if b.unpackVersion != 0 then Refused(Unsupported)
    else if b.solid && !solid then Refused(SolidMismatch)
    else if b.header.link then Linked
    else if b.header.unpackedSize > BOMB_FLOOR && Expands(b) then Refused(Bomb)
    else Sized(b, incomplete, size, cap, reserved, chainOk)
  }

  function Sized(b: FileBlock, incomplete: bool, size: nat, cap: int, reserved: bool, chainOk: bool): Seen {
    if b.solid && incomplete then Refused(Broken)
    else if b.dictSize > 0 && !b.stored && Min(b.dictSize, cap) > size && b.solid then Refused(DictMismatch)
    else if b.dictSize > 0 && !b.stored && Min(b.dictSize, cap) > size && !reserved then Refused(TooLarge)
    else if chainOk then Admitted else Refused(NoChain)
  }

  // ---- Whole runs.

  // What a run shows of one file block: what dispatch made of it, whether the member it became ended
  // with all its bytes and a clean or unverifiable digest, and the window's size afterwards.
  datatype Record = Record(b: FileBlock, seen: Seen, sound: bool, size: nat)

  // It started the history afresh: BeginFile got as far as resetting the window.
  predicate Resets(rec: Record) {
    !rec.b.solid && (rec.seen.Admitted? || rec.seen == Refused(NoChain))
  }

  // It left nothing for its successors to miss.
  predicate LeftWhole(rec: Record) {
    rec.seen.Linked? || (rec.seen.Admitted? && rec.sound)
  }

  // Block j is among those the history block i finds was made by: none after it, before i, reset it.
  ghost predicate Behind(log: seq<Record>, j: int, i: int)
    requires i <= |log|
  {
    0 <= j < i && forall k :: j < k < i ==> !Resets(log[k])
  }

  // The first n blocks left a history with nothing missing.
  ghost predicate SoundHistory(log: seq<Record>, n: nat)
    requires n <= |log|
  {
    forall j :: Behind(log, j, n) ==> LeftWhole(log[j])
  }

  // The decode chains built: one for every admitted member, and no other.
  function Built(log: seq<Record>): seq<FileBlock> {
    if log == [] then []
    else
      var last := log[|log| - 1];
      Built(log[..|log| - 1]) + if last.seen.Admitted? then [last.b] else []
  }

  // How the blocks ended from the last one that reset the history on, that one included.
  function Since(log: seq<Record>): seq<Fate> {
    if log == [] then []
    else
      var last := log[|log| - 1];
      (if Resets(last) then [] else Since(log[..|log| - 1])) + [if LeftWhole(last) then Good else Bad]
  }

  lemma {:induction false} SinceIsHistory(log: seq<Record>)
    ensures AllGood(Since(log)) <==> SoundHistory(log, |log|)
  {
    if log != [] {
      var n := |log| - 1;
      var front := log[..n];
      SinceIsHistory(front);
      assert forall k :: 0 <= k < n ==> log[k] == front[k];
      assert forall j :: Behind(log, j, n) <==> Behind(front, j, n);
      assert forall j :: Behind(log, j, n) && !Resets(log[n]) ==> Behind(log, j, n + 1);
      forall j | Behind(log, j, n + 1) && j < n ensures Behind(log, j, n) && !Resets(log[n]) {
        assert j < n < n + 1;
      }
      LastFate(if Resets(log[n]) then [] else Since(front), if LeftWhole(log[n]) then Good else Bad);
      assert Behind(log, n, n + 1);
    }
  }

  lemma {:induction false} LastFate(fates: seq<Fate>, f: Fate)
    ensures AllGood(fates + [f]) <==> AllGood(fates) && f == Good
  {
    assert (fates + [f])[|fates|] == f;
    assert forall i :: 0 <= i < |fates| ==> (fates + [f])[i] == fates[i];
  }

  // A longer log says the same of its front.
  lemma {:induction false} HistoryOfFront(log: seq<Record>, rec: Record, n: nat)
    requires n <= |log|
    ensures SoundHistory(log + [rec], n) <==> SoundHistory(log, n)
  {
    assert forall i :: 0 <= i < n ==> (log + [rec])[i] == log[i];
    assert forall j :: Behind(log + [rec], j, n) <==> Behind(log, j, n);
  }

  // A solid member's decode chain is built only on a sound history, a block is refused for a broken one
  // only if it is, and no solid block changes the window's size.
  ghost predicate SolidlyBuilt(log: seq<Record>, size: nat) {
    forall i :: 0 <= i < |log| ==> SolidAt(log, i, size)
  }

  ghost predicate SolidAt(log: seq<Record>, i: nat, size: nat)
    requires i < |log|
  {
    log[i].b.solid ==>
      && (log[i].seen.Admitted? ==> SoundHistory(log, i))
      && (log[i].seen == Refused(Broken) ==> !SoundHistory(log, i))
      && log[i].size == if i == 0 then size else log[i - 1].size
  }

  lemma {:induction false} LogGrows(log: seq<Record>, rec: Record, size: nat)
    requires SolidlyBuilt(log, size)
    requires rec.b.solid ==>
      && (rec.seen.Admitted? ==> AllGood(Since(log)))
      && (rec.seen == Refused(Broken) ==> !AllGood(Since(log)))
      && rec.size == if log == [] then size else log[|log| - 1].size
    ensures SolidlyBuilt(log + [rec], size)
    ensures Since(log + [rec]) == (if Resets(rec) then [] else Since(log)) + [if LeftWhole(rec) then Good else Bad]
    ensures Built(log + [rec]) == Built(log) + if rec.seen.Admitted? then [rec.b] else []
  {
    var more := log + [rec];
    assert more[..|log|] == log;
    SinceIsHistory(log);
    forall i | 0 <= i < |more| ensures SolidAt(more, i, size) {
      HistoryOfFront(log, rec, i);
      assert forall k :: 0 <= k < |log| ==> more[k] == log[k];
      assert i < |log| ==> SolidAt(log, i, size);
    }
  }

  // A file block arrives, behind archive headers with these solid flags, and the caller makes these calls
  // on what NextEntry returned for it.
  datatype Arrival = Arrival(archives: seq<bool>, b: FileBlock, reserved: bool, chainOk: bool, calls: seq<E.Call>)

  function Flags(arrivals: seq<Arrival>): seq<bool> {
    if arrivals == [] then [] else arrivals[0].archives + Flags(arrivals[1..])
  }

  // No header contradicts the first one seen.
  ghost predicate Agree(seen: bool, solid: bool, flags: seq<bool>) {
    forall i :: 0 <= i < |flags| ==> flags[i] == if seen then solid else flags[0]
  }

  lemma {:induction false} AgreeOne(seen: bool, solid: bool, flag: bool, more: seq<bool>)
    ensures Agree(seen, solid, [flag] + more) <==> !(seen && solid != flag) && Agree(true, flag, more)
  {
    var all := [flag] + more;
    assert all[0] == flag;
    assert forall i :: 0 <= i < |more| ==> all[1 + i] == more[i];
  }

  // The record tells the truth of the member the block became, if it became one.
  ghost predicate Tells(rec: Record, e: E.Entry?)
    reads e
  {
    forall now :: Looked(now) ==>
      && (e != null <==> rec.seen.Admitted?)
      && (rec.sound <==> e != null && Sound(e))
      && (e != null ==> Of(e, rec.b) && e.Valid() && e.done.Some?)
  }

  // Any run, from a Reader that has read nothing yet. Every member admitted is returned as it ended.
  // An archive header that contradicts an earlier one ends the run.
  method Extract(r: Reader, arrivals: seq<Arrival>) returns (log: seq<Record>, members: seq<E.Entry?>, fatal: bool)
    requires r.Valid() && r.entry == null && r.since == []
    modifies r, r.win, r.done
    ensures r.Valid() && r.entry == null
    ensures |log| == |members| && if fatal then |log| < |arrivals| else |log| == |arrivals|
    ensures fatal <==> !Agree(old(r.solidSeen), old(r.solid), Flags(arrivals))
    ensures Answered(log, members, arrivals[..|log|])
    ensures r.chains == old(r.chains) + Built(log)
    ensures SolidlyBuilt(log, old(r.win.W()).size)
    ensures r.win.incomplete <==> !SoundHistory(log, |log|)
  {
    log, members, fatal := [], [], false;
    ghost var size := r.win.W().size;
    NoneRecorded(r.chains, size);
    for i := 0 to |arrivals|
      invariant r.Valid() && r.entry == null && |log| == |members| == i && !fatal
      invariant Agree(old(r.solidSeen), old(r.solid), Flags(arrivals)) <==> Agree(r.solidSeen, r.solid, Flags(arrivals[i..]))
      invariant forall j :: 0 <= j < i ==> members[j] == null || fresh(members[j])
      invariant Answered(log, members, arrivals[..i])
      invariant Recorded(log, r.since, old(r.chains), r.chains, size, r.win.W().size)
    {
      assert arrivals[i..][0] == arrivals[i] && arrivals[i..][1..] == arrivals[i + 1..];
      var rec, e;
      fatal, rec, e := Arrive(r, arrivals[i], Flags(arrivals[i + 1..]), log, old(r.chains), size);
      if fatal {
        RunRecorded(log, r.since, old(r.chains), r.chains, size, r.win.W().size);
        return;
      }
      AnsweredOn(log, members, arrivals, i, rec, e);
      log, members := log + [rec], members + [e];
    }
    RunRecorded(log, r.since, old(r.chains), r.chains, size, r.win.W().size);
  }

  // Every arrival has its record, and its member ended as that says.
  ghost predicate Answered(log: seq<Record>, members: seq<E.Entry?>, arrivals: seq<Arrival>)
    reads set i | 0 <= i < |members| && members[i] != null :: members[i]
  {
    |log| == |members| == |arrivals| && forall i :: 0 <= i < |log| ==> log[i].b == arrivals[i].b && Tells(log[i], members[i])
  }

  lemma {:induction false} AnsweredOn(log: seq<Record>, members: seq<E.Entry?>, arrivals: seq<Arrival>, i: nat, rec: Record, e: E.Entry?)
    requires i < |arrivals| && Answered(log, members, arrivals[..i]) && rec.b == arrivals[i].b && Tells(rec, e)
    ensures Answered(log + [rec], members + [e], arrivals[..i + 1])
  {
    assert arrivals[..i + 1] == arrivals[..i] + [arrivals[i]];
  }

  // One arrival, and what it adds to the record.
  method Arrive(r: Reader, a: Arrival, ghost more: seq<bool>, ghost log: seq<Record>, ghost chains0: seq<FileBlock>, ghost size0: nat)
    returns (fatal: bool, rec: Record, e: E.Entry?)
    requires r.Valid() && r.entry == null && Recorded(log, r.since, chains0, r.chains, size0, r.win.W().size)
    modifies r, r.win, r.done
    ensures r.Valid() && r.entry == null && (e != null ==> fresh(e))
    ensures fatal ==>
      && !Agree(old(r.solidSeen), old(r.solid), a.archives + more) && r.win.incomplete == old(r.win.incomplete)
      && Recorded(log, r.since, chains0, r.chains, size0, r.win.W().size)
    ensures !fatal ==>
      && (Agree(old(r.solidSeen), old(r.solid), a.archives + more) <==> Agree(r.solidSeen, r.solid, more))
      && rec.b == a.b && Tells(rec, e) && Recorded(log + [rec], r.since, chains0, r.chains, size0, r.win.W().size)
  {
    rec, e := Record(a.b, Skipped, false, r.win.buf.Length), null;
    fatal := Headers(r, a.archives, more);
    if fatal {
      return;
    }
    ghost var since, chains, size := r.since, r.chains, r.win.W().size;
    rec, e := OneBlock(r, a);
    RecordedOn(log, since, chains0, chains, size0, size, rec, r.since, r.chains);
  }

  // What the Reader has kept of a run is what its log says.
  ghost predicate Recorded(log: seq<Record>, since: seq<Fate>, chains0: seq<FileBlock>, chains: seq<FileBlock>, size0: nat, size: nat) {
    forall now :: Looked(now) ==>
      && since == Since(log) && chains == chains0 + Built(log) && SolidlyBuilt(log, size0)
      && size == if log == [] then size0 else log[|log| - 1].size
  }

  lemma {:induction false} NoneRecorded(chains: seq<FileBlock>, size: nat)
    ensures Recorded([], [], chains, chains, size, size)
  {
  }

  lemma {:induction false} RecordedOn(log: seq<Record>, since: seq<Fate>, chains0: seq<FileBlock>, chains: seq<FileBlock>, size0: nat, size: nat,
                                      rec: Record, since': seq<Fate>, chains': seq<FileBlock>)
    requires Recorded(log, since, chains0, chains, size0, size)
    requires chains' == chains + (if rec.seen.Admitted? then [rec.b] else [])
    requires since' == (if Resets(rec) then [] else since) + [if LeftWhole(rec) then Good else Bad]
    requires rec.b.solid ==>
      && (rec.seen.Admitted? ==> AllGood(since)) && (rec.seen == Refused(Broken) ==> !AllGood(since)) && rec.size == size
    ensures Recorded(log + [rec], since', chains0, chains', size0, rec.size)
  {
    assert Looked(Now);
    LogGrows(log, rec, size0);
  }

  lemma {:induction false} RunRecorded(log: seq<Record>, since: seq<Fate>, chains0: seq<FileBlock>, chains: seq<FileBlock>, size0: nat, size: nat)
    requires Recorded(log, since, chains0, chains, size0, size)
    ensures chains == chains0 + Built(log) && SolidlyBuilt(log, size0) && (AllGood(since) <==> SoundHistory(log, |log|))
  {
    assert Looked(Now);
    SinceIsHistory(log);
  }

  // The archive headers in front of a block; what matters of them is what is to come.
  method Headers(r: Reader, flags: seq<bool>, ghost more: seq<bool>) returns (fatal: bool)
    requires r.Valid()
    modifies r`solid, r`solidSeen
    ensures r.Valid() && (fatal ==> !Agree(old(r.solidSeen), old(r.solid), flags + more))
    ensures !fatal ==> (Agree(old(r.solidSeen), old(r.solid), flags + more) <==> Agree(r.solidSeen, r.solid, more))
  {
    fatal := false;
    for i := 0 to |flags|
      invariant r.Valid()
      invariant Agree(old(r.solidSeen), old(r.solid), flags + more) <==> Agree(r.solidSeen, r.solid, flags[i..] + more)
    {
      assert flags[i..] + more == [flags[i]] + (flags[i + 1..] + more);
      AgreeOne(r.solidSeen, r.solid, flags[i], flags[i + 1..] + more);
      var ok := r.ArchiveHeader(flags[i]);
      if !ok {
        return true;
      }
    }
    assert flags[|flags|..] + more == more;
  }

  // NextEntry, the caller's calls, and the finishActive the following NextEntry starts with.
  method OneBlock(r: Reader, a: Arrival) returns (rec: Record, e: E.Entry?)
    requires r.Valid() && r.entry == null
    modifies r, r.win, r.done
    ensures r.Valid() && r.entry == null
    ensures rec.b == a.b && rec.size == r.win.W().size && Tells(rec, e) && (e != null ==> fresh(e))
    ensures rec.seen == Decided(a.b, r.solid, old(r.win.incomplete), old(r.win.W()).size,
                                if old(r.capLatched) then old(r.archiveMax) else r.maxWindow, a.reserved, a.chainOk)
    ensures r.solid == old(r.solid) && r.solidSeen == old(r.solidSeen)
    ensures r.chains == old(r.chains) + if rec.seen.Admitted? then [a.b] else []
    ensures r.since == (if Resets(rec) then [] else old(r.since)) + [if LeftWhole(rec) then Good else Bad]
    ensures a.b.solid ==>
      && (rec.seen.Admitted? ==> AllGood(old(r.since)))
      && (rec.seen == Refused(Broken) ==> !AllGood(old(r.since)))
      && rec.size == old(r.win.W()).size
  {
    var seen := r.Dispatch(a.b, a.reserved, a.chainOk);
    e := r.entry;
    if e != null {
      ReadOut(r, a.calls);
    }
    rec := Record(a.b, seen, e != null && Sound(e), r.win.buf.Length);
  }

  // The calls made on the member in progress, and its end.
  method ReadOut(r: Reader, calls: seq<E.Call>)
    requires r.Valid() && r.entry != null && r.entry.cancelled == r.done
    modifies r`entry, r`since, r.win`incomplete, r.entry, r.done, r.entry.src
    ensures r.Valid() && r.entry == null && r.win.W() == old(r.win.W())
    ensures var e := old(r.entry); e.Valid() && e.done.Some? && r.since == old(r.since) + [if Sound(e) then Good else Bad]
  {
    var _ := E.Calls(r.entry, calls);
    r.FinishActive();
  }
}
