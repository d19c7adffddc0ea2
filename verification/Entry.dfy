// entry.go: a member's byte budget and its verdict.

module Entry {
  import opened Basics

  datatype Header = Header(
    link: bool, lastBlock: bool, encrypted: bool, useMac: bool,
    hasCrc: bool, crc: nat, hasBlake: bool, blake: seq<byte>, unpackedSize: int
  )

  datatype Fault =
    | End                    // io.EOF: as a verdict, success
    | ReaderClosed
    | Truncated
    | CorruptHeader
    | ChecksumUnsupported
    | Mismatch
    | LinkEntry
    | NoActiveFile
    | Other(code: int)       // whatever the source reports

  // CRC32 and BLAKE2sp, uninterpreted. A checksum can be taken piece by piece.
  datatype Digests = Digests(update: (nat, seq<byte>) -> nat, blake: seq<byte> -> seq<byte>) {
    function Update(c: nat, s: seq<byte>): nat { update(c, s) }
    function Blake(s: seq<byte>): seq<byte> { blake(s) }

    ghost predicate Incremental() {
      (forall c :: Update(c, []) == c) && forall c, a, b :: Update(Update(c, a), b) == Update(c, a + b)
    }
  }

  // Reader.done: closed once, by any goroutine, at any time, and never opened again.
  class Signal {
    var closed: bool

    method IsClosed() returns (c: bool)
      modifies this
      ensures c == closed && (old(closed) ==> closed)
    {
      c := *;
      c := c || closed;
      closed := c;
    }
  }

  // The decode chain below a member: any bytes, any error, and possibly a new header in force, from a
  // volume it advanced to. Only a run of empty reads has to end.
  class Chain {
    var patience: nat
    ghost var reported: Option<Fault>   // by the last Read
    ghost var asked: nat

    constructor (patience: nat) {
      this.patience, reported, asked := patience, None, 0;
    }

    method Read(n: nat) returns (bytes: seq<byte>, err: Option<Fault>, next: Option<Header>)
      modifies this
      ensures |bytes| <= n && reported == err && asked == old(asked) + 1
      ensures patience <= old(patience) && (n > 0 && bytes == [] && err.None? ==> patience < old(patience))
    {
      bytes :| |bytes| <= n;
      err := *;
      next := *;
      if n > 0 && bytes == [] && err.None? {
        if patience == 0 {
          err := Some(End);
        } else {
          patience := patience - 1;
        }
      }
      reported, asked := err, asked + 1;
    }
  }

  // Everything delivered, under a last-block header, with every digest it records matching, and at
  // least one recorded if there is anything to check.
  ghost predicate Vouched(g: Digests, cur: Header, size: int, delivered: seq<byte>) {
    && |delivered| == (if size > 0 then size else 0)
    && cur.lastBlock
    && (size != 0 ==>
          && !cur.useMac && (cur.hasCrc || cur.hasBlake)
          && (cur.hasCrc ==> g.Update(0, delivered) == cur.crc)
          && (cur.hasBlake ==> g.Blake(delivered) == cur.blake))
  }

  class Entry {
    const g: Digests
    const header: Header
    const size: int
    const cancelled: Signal
    var cur: Header
    var src: Chain?
    var hashed: bool            // src is a hashedSource
    var hashInput: seq<byte>    // what its hasher has been given
    var remaining: int
    var crc: nat
    var done: Option<Fault>
    ghost var delivered: seq<byte>

    ghost predicate Valid()
      reads this
    {
      && g.Incremental()
      && |delivered| + remaining == size && (size >= 0 ==> remaining >= 0) && (size < 0 ==> delivered == [])
      && crc == g.Update(0, delivered)
      && (done == Some(End) ==> Vouched(g, cur, size, delivered))
      && (src == null ==> !hashed) && (hashed ==> hashInput == delivered)
    }

    // newEntry. A nil source is set later, or never.
    constructor (g: Digests, header: Header, src: Chain?, cancelled: Signal)
      requires g.Incremental()
      ensures Valid() && this.g == g && this.header == header && this.cancelled == cancelled && this.src == src
      ensures hashed <==> src != null && header.hasBlake && !header.encrypted && !header.useMac
      ensures done.None? && delivered == [] && size == remaining == header.unpackedSize && cur == header
    {
      this.g, this.header, this.cancelled, cur := g, header, cancelled, header;
      size, remaining, crc, done := header.unpackedSize, header.unpackedSize, 0, None;
      this.src, hashed := src, src != null && header.hasBlake && !header.encrypted && !header.useMac;
      delivered, hashInput := [], [];
    }

    // linkEntry: nothing to read, whatever size the header declares.
    constructor Link(g: Digests, header: Header, cancelled: Signal)
      requires g.Incremental() && header.link
      ensures Valid() && this.header == header && done.None? && delivered == [] && size == remaining == 0 && src == null && cur == header
    {
      this.g, this.header, this.cancelled, cur := g, header, cancelled, header;
      size, remaining, crc, done, src, hashed := 0, 0, 0, None, null, false;
      delivered, hashInput := [], [];
    }

    // terminalEntry: a refusal, finished before it starts.
    constructor Terminal(g: Digests, header: Header, cause: Fault, cancelled: Signal)
      requires g.Incremental() && cause != End
      ensures Valid() && this.header == header && done == Some(cause) && delivered == [] && size == 0
    {
      this.g, this.header, this.cancelled, cur := g, header, cancelled, header;
      size, remaining, crc, done, src, hashed := 0, 0, 0, Some(cause), null, false;
      delivered, hashInput := [], [];
    }

    predicate Short()
      reads this
    {
      remaining > 0
    }

    // Some digest is recorded, and every one that is can be compared.
    predicate Checkable()
      reads this
    {
      !cur.useMac && (cur.hasCrc || cur.hasBlake) && (cur.hasBlake ==> hashed)
    }

    // verifyChecksum.
    function VerifyChecksum(): (v: Option<Fault>)
      requires Valid()
      reads this
      ensures v.None? <==> Vouched(g, cur, size, delivered) && (size != 0 && cur.hasBlake ==> hashed)
      ensures v != Some(End) && (v == Some(Truncated) <==> Short())
      ensures v == Some(CorruptHeader) <==> !Short() && !cur.lastBlock
      ensures v == Some(ChecksumUnsupported) <==> !Short() && cur.lastBlock && size != 0 && !Checkable()
      // A mismatch is reported of a complete member exactly if a recorded digest differs.
      ensures v == Some(Mismatch) <==>
        && !Short() && cur.lastBlock && size != 0 && Checkable()
        && ((cur.hasCrc && g.Update(0, delivered) != cur.crc) || (cur.hasBlake && g.Blake(delivered) != cur.blake))
    {
      if Short() then Some(Truncated)
      else if !cur.lastBlock then Some(CorruptHeader)
      else if size == 0 then None
      else if cur.useMac || (cur.hasBlake && !hashed) || (!cur.hasCrc && !cur.hasBlake) then Some(ChecksumUnsupported)
      else if cur.hasCrc && crc != cur.crc then Some(Mismatch)
      else if cur.hasBlake && g.Blake(hashInput) != cur.blake then Some(Mismatch)
      else None
    }

    // setSource.
    method SetSource(chain: Chain)
      requires Valid() && src == null && done.None? && delivered == []
      modifies this
      ensures Valid() && done.None? && src == chain && cur == old(cur) && remaining == old(remaining) && delivered == old(delivered)
      ensures hashed <==> header.hasBlake && !header.encrypted && !header.useMac
    {
      src := chain;
      hashed := header.hasBlake && !header.encrypted && !header.useMac;
      hashInput := [];
    }

    // severActive: the source is cut, and a member without a verdict gets one.
    method Sever()
      requires Valid()
      modifies this, cancelled
      ensures Valid() && done.Some? && src == null && delivered == old(delivered) && remaining == old(remaining)
      ensures old(done).Some? ==> done == old(done)
      ensures old(done).None? && Short() ==> done == Some(Truncated) || (done == Some(ReaderClosed) && cancelled.closed)
      ensures old(done).None? && !Short() ==> done == Some(VerifyChecksum().GetOr(End))
      ensures !hashed && cur == old(cur)
    {
      src, hashed := null, false;
      if done.None? {
        var _ := Finish(if Short() then Some(Truncated) else None);
      }
    }

    // finish: the first verdict stands. A member that ended short while its Reader was closed says so;
    // success is checked here and nowhere else.
    method Finish(err0: Option<Fault>) returns (v: Fault)
      requires Valid() && err0 != Some(End)
      modifies `done, cancelled
      ensures Valid() && done == Some(v)
      ensures old(done).Some? ==> done == old(done)
      ensures old(cancelled.closed) ==> cancelled.closed
      ensures old(done).None? && err0.None? ==> v == VerifyChecksum().GetOr(End)
      ensures old(done).None? && err0.Some? ==> v == err0.value || (v == ReaderClosed && cancelled.closed && Short())
      ensures old(done).None? && err0.Some? && Short() && old(cancelled.closed) ==> v == ReaderClosed
    {
      if done.Some? {
        return done.value;
      }
      var err := err0;
      if err.Some? && Short() && err.value != ReaderClosed {
        var closed := cancelled.IsClosed();
        if closed {
          err := Some(ReaderClosed);
        }
      }
      if err.None? {
        err := VerifyChecksum();
      }
      v := if err.None? then End else err.value;
      done := Some(v);
    }

    // Nothing more is to be had: all there, a link, the Reader closed, or the source said so since it had
    // been read that often.
    ghost predicate ReadOut(before: nat)
      requires src != null
      reads this, src, cancelled
    {
      !Short() || cur.link || (done == Some(ReaderClosed) && cancelled.closed) || (src.reported.Some? && src.asked > before)
    }

    // Read into n bytes. A link's refusal is not a verdict.
    method Read(n: nat) returns (out: seq<byte>, err: Option<Fault>)
      requires Valid()
      modifies this, cancelled, src
      ensures Valid() && |out| <= n && src == old(src)
      ensures delivered == old(delivered) + out
      ensures old(done).Some? ==> out == [] && err == done == old(done)
      ensures done.Some? ==> err == done
      ensures err.Some? && done.None? ==> out == [] && err == Some(if cur.link then LinkEntry else NoActiveFile)
      ensures old(done).None? && done.Some? && old(remaining) > 0 && src != null ==>
        || (done == Some(ReaderClosed) && cancelled.closed && Short())
        || (src.reported.None? && !Short() && done == Some(VerifyChecksum().GetOr(End)))
        || (src.reported == Some(End) && done == Some(if Short() then Truncated else VerifyChecksum().GetOr(End)))
        || (src.reported != Some(End) && done == src.reported)
      ensures done.None? && err.None? && n > 0 ==> remaining < old(remaining) || (src != null && src.patience < old(src.patience))
      ensures src != null ==> src.patience <= old(src.patience)
      ensures remaining <= old(remaining)
      // Nothing is read of a member that owes nothing, nor once the Reader is closed.
      ensures old(done).None? && !old(cur).link && src != null && old(remaining) <= 0 ==>
        out == [] && done == Some(VerifyChecksum().GetOr(End)) && src.asked == old(src.asked)
      ensures old(done).None? && !old(cur).link && src != null && old(remaining) > 0 && old(cancelled.closed) ==>
        out == [] && done == Some(ReaderClosed) && src.asked == old(src.asked)
      ensures old(done).None? && n == 0 && done.Some? && old(remaining) > 0 ==> done == Some(ReaderClosed) && cancelled.closed
      ensures old(done).None? && src != null && err.Some? ==> ReadOut(old(src.asked))
      ensures src != null ==> src.asked >= old(src.asked)
    {
      out := [];
      assert delivered + [] == delivered;
      if done.Some? {
        return [], done;
      }
      if cur.link {
        return [], Some(LinkEntry);
      }
      if src == null {
        return [], Some(NoActiveFile);
      }
      if remaining <= 0 {
        var v := Finish(None);
        return [], Some(v);
      }
      var closed := cancelled.IsClosed();
      if closed {
        var v := Finish(Some(ReaderClosed));
        return [], Some(v);
      }
      if n == 0 {
        return [], None;
      }
      var fault, next;
      out, fault, next := src.Read(Min(n, remaining));
      Took(out, next);
      if fault.None? && remaining > 0 {
        return out, None;
      }
      var v := Finish(if fault.None? then None else if fault == Some(End) then if remaining > 0 then Some(Truncated) else None else fault);
      err := Some(v);
    }

    // Bytes from the chain: the checksum and the budget move together.
    method Took(out: seq<byte>, next: Option<Header>)
      requires Valid() && done.None? && src != null && |out| <= remaining
      modifies `cur, `hashInput, `crc, `remaining, `delivered
      ensures Valid() && delivered == old(delivered) + out && remaining == old(remaining) - |out| && cur == next.GetOr(old(cur))
    {
      if next.Some? {
        cur := next.value; // advanceVolume, from below
      }
      hashInput := if hashed then hashInput + out else hashInput;
      assert g.Update(g.Update(0, delivered), out) == g.Update(0, delivered + out);
      crc := g.Update(crc, out);
      remaining := remaining - |out|;
      delivered := delivered + out;
    }

    // Close: whatever is left is read and dropped, and the verdict reported, nil for success.
    method Close() returns (err: Option<Fault>)
      requires Valid()
      modifies this, cancelled, src
      ensures Valid() && done.Some? && old(delivered) <= delivered && src == old(src)
      ensures old(done).Some? ==> done == old(done) && delivered == old(delivered)
      ensures err == if done == Some(End) then None else done
      ensures old(done).None? && src != null ==> ReadOut(old(src.asked))
    {
      if done.None? {
        if src != null {
          Discard();
        }
        if done.None? {
          var _ := Finish(None);
        }
      }
      err := if done == Some(End) then None else done;
    }

    // io.Copy(io.Discard, e), with a buffer of some size.
    method Discard()
      requires Valid() && done.None? && src != null
      modifies this, cancelled, src
      ensures Valid() && old(delivered) <= delivered && src == old(src) && ReadOut(old(src.asked))
    {
      var err: Option<Fault> := None;
      while err.None?
        invariant Valid() && src == old(src) && old(delivered) <= delivered && (err.None? ==> done.None?)
        invariant src.asked >= old(src.asked) && (err.Some? ==> ReadOut(old(src.asked)))
        decreases err.None?, if remaining > 0 then remaining else 0, src.patience
      {
        var n: nat :| n > 0;
        var out;
        out, err := Read(n);
      }
    }
  }

  // One call on an entry: Read with a buffer size, or Close.
  datatype Call = ReadCall(n: nat) | CloseCall

  datatype Result = Result(out: seq<byte>, err: Option<Fault>, verdict: Option<Fault>)

  method Do(e: Entry, call: Call) returns (r: Result)
    requires e.Valid()
    modifies e, e.cancelled, e.src
    ensures e.Valid() && r.verdict == e.done && e.src == old(e.src)
    ensures old(e.done).Some? ==> r.verdict == old(e.done) && r.out == []
    ensures call.CloseCall? ==> r.verdict.Some? && r.err == if r.verdict == Some(End) then None else r.verdict
    ensures if call.ReadCall? then e.delivered == old(e.delivered) + r.out else r.out == [] && old(e.delivered) <= e.delivered
  {
    var out, err := [], None;
    match call {
      case ReadCall(n) => out, err := e.Read(n);
      case CloseCall => err := e.Close();
    }
    r := Result(out, err, e.done);
  }

  // Once a call has left a verdict, it never changes and no bytes follow it.
  ghost predicate Settled(rs: seq<Result>) {
    forall i, j :: 0 <= i < j < |rs| && rs[i].verdict.Some? ==> rs[j].verdict == rs[i].verdict && rs[j].out == []
  }

  // Whatever verdict they left is v.
  ghost predicate StandsBy(rs: seq<Result>, v: Option<Fault>) {
    forall i :: 0 <= i < |rs| && rs[i].verdict.Some? ==> rs[i].verdict == v
  }

  lemma {:induction false} SettledOn(rs: seq<Result>, v: Option<Fault>, r: Result)
    requires Settled(rs) && StandsBy(rs, v) && (v.Some? ==> r.verdict == v && r.out == [])
    ensures Settled(rs + [r]) && StandsBy(rs + [r], r.verdict)
  {
  }

  // What the calls returned, put together.
  function Joined(rs: seq<Result>): seq<byte> {
    if rs == [] then [] else Joined(rs[..|rs| - 1]) + rs[|rs| - 1].out
  }

  // From a member that had delivered from, the calls returned what it has delivered since, but for what a
  // Close dropped.
  ghost predicate Returned(from: seq<byte>, rs: seq<Result>, now: seq<byte>, closed: bool) {
    from + Joined(rs) <= now && (!closed ==> now == from + Joined(rs))
  }

  lemma {:induction false} ReturnedOn(from: seq<byte>, rs: seq<Result>, was: seq<byte>, closed: bool, call: Call, r: Result, now: seq<byte>)
    requires Returned(from, rs, was, closed)
    requires if call.ReadCall? then now == was + r.out && (closed ==> r.out == []) else r.out == [] && was <= now
    ensures Returned(from, rs + [r], now, closed || call.CloseCall?)
  {
    assert (rs + [r])[..|rs|] == rs;
    assert Joined(rs + [r]) == Joined(rs) + r.out;
    assert from + Joined(rs + [r]) == (from + Joined(rs)) + r.out;
  }

  // One of the first n calls is a Close.
  ghost predicate ClosedBy(calls: seq<Call>, n: nat)
    requires n <= |calls|
  {
    n > 0 && (calls[n - 1].CloseCall? || ClosedBy(calls, n - 1))
  }

  lemma {:induction false} ClosedByAll(calls: seq<Call>)
    ensures ClosedBy(calls, |calls|) <==> CloseCall in calls
    decreases |calls|
  {
    if calls != [] {
      var front := calls[..|calls| - 1];
      ClosedByAll(front);
      ClosedBySame(front, calls, |front|);
      assert calls == front + [calls[|calls| - 1]];
    }
  }

  lemma {:induction false} ClosedBySame(a: seq<Call>, b: seq<Call>, n: nat)
    requires n <= |a| && n <= |b| && a[..n] == b[..n]
    ensures ClosedBy(a, n) == ClosedBy(b, n)
  {
    if n > 0 {
      assert a[..n][n - 1] == b[..n][n - 1] && a[..n][..n - 1] == a[..n - 1] && b[..n][..n - 1] == b[..n - 1];
      ClosedBySame(a, b, n - 1);
    }
  }

  // What calls on a member that had delivered from have come to: it has delivered now, with the verdict v,
  // and has been closed or not.
  ghost predicate CameTo(from: seq<byte>, rs: seq<Result>, now: seq<byte>, v: Option<Fault>, closed: bool) {
    forall look :: Looked(look) ==>
      && Settled(rs) && StandsBy(rs, v) && (rs != [] ==> rs[|rs| - 1].verdict == v)
      && (closed ==> v.Some?) && Returned(from, rs, now, closed)
  }

  lemma {:induction false} CameFirst(from: seq<byte>, v: Option<Fault>)
    ensures CameTo(from, [], from, v, false)
  {
  }

  lemma {:induction false} CameOn(from: seq<byte>, rs: seq<Result>, was: seq<byte>, v: Option<Fault>, closed: bool,
                                  call: Call, r: Result, now: seq<byte>)
    requires CameTo(from, rs, was, v, closed) && (v.Some? ==> r.verdict == v && r.out == [])
    requires if call.ReadCall? then now == was + r.out else r.verdict.Some? && r.out == [] && was <= now
    ensures CameTo(from, rs + [r], now, r.verdict, closed || call.CloseCall?)
  {
    assert Looked(Now);
    SettledOn(rs, v, r);
    ReturnedOn(from, rs, was, closed, call, r, now);
    assert (rs + [r])[|rs + [r]| - 1] == r;
  }

  // Any sequence of calls: the first verdict stands, the byte budget balances, and success means the
  // member was vouched for.
  method Calls(e: Entry, calls: seq<Call>) returns (rs: seq<Result>)
    requires e.Valid()
    modifies e, e.cancelled, e.src
    ensures e.Valid() && |rs| == |calls| && Settled(rs) && e.src == old(e.src)
    ensures Returned(old(e.delivered), rs, e.delivered, CloseCall in calls)
    ensures |e.delivered| + e.remaining == e.size && (e.size >= 0 ==> e.remaining >= 0)
    ensures rs != [] && rs[|rs| - 1].verdict == Some(End) ==> Vouched(e.g, e.cur, e.size, e.delivered)
    ensures CloseCall in calls ==> rs[|rs| - 1].verdict.Some?
  {
    rs := [];
    ghost var closed := false;
    CameFirst(e.delivered, e.done);
    for i := 0 to |calls|
      invariant e.Valid() && |rs| == i && e.src == old(e.src)
      invariant closed <==> ClosedBy(calls, i)
      invariant CameTo(old(e.delivered), rs, e.delivered, e.done, closed)
    {
      ghost var was, v := e.delivered, e.done;
      var r := Do(e, calls[i]);
      CameOn(old(e.delivered), rs, was, v, closed, calls[i], r, e.delivered);
      rs := rs + [r];
      closed := closed || calls[i].CloseCall?;
    }
    ClosedByAll(calls);
    assert Looked(Now);
  }
}
