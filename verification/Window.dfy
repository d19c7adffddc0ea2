// window.go: the ring buffer, refining an unbounded history and a queue of unread bytes.

module Window {
  import opened Basics
  import opened DecodeTypes
  import opened Lz77

  const MIN_WINDOW: nat := 0x4_0000
  const MAX_FILL_TARGET: nat := 0x100_0000

  // The buffer holds the last size bytes of the history: this lap's in front of w, the last lap's from w on.
  ghost predicate Holds(buf: seq<byte>, w: nat, lap: nat, hist: seq<byte>) {
    && w < |buf| && |hist| == lap + w && (lap > 0 ==> lap >= |buf|)
    && forall now :: Looked(now) ==>
         && (forall k :: 0 <= k < w ==> buf[k] == hist[lap + k])
         && (lap > 0 ==> forall k :: w <= k < |buf| ==> buf[k] == hist[lap - |buf| + k])
  }

  // n bytes lie between r and w.
  ghost predicate Between(size: nat, r: nat, w: nat, full: bool, n: nat) {
    && r < size && w < size
    && n == (if full then size else if w >= r then w - r else size - r + w)
    && (full ==> r == w)
  }

  // A chunk that fits in front of the end of the buffer has been put at w.
  ghost predicate Put(was: seq<byte>, buf: seq<byte>, w: nat, chunk: seq<byte>) {
    && |buf| == |was| && w + |chunk| <= |was|
    && buf[w..w + |chunk|] == chunk
    && (forall k :: 0 <= k < w || w + |chunk| <= k < |was| ==> buf[k] == was[k])
  }

  // Where w, and with it the current lap, end up.
  function Next(size: nat, w: nat): nat {
    if w >= size then 0 else w
  }

  function NextLap(size: nat, w: nat, lap: nat): nat {
    if w >= size then lap + size else lap
  }

  lemma {:induction false} PutHolds(was: seq<byte>, buf: seq<byte>, w: nat, lap: nat, hist: seq<byte>, chunk: seq<byte>)
    requires Holds(was, w, lap, hist) && Put(was, buf, w, chunk)
    ensures var w' := w + |chunk|; Holds(buf, Next(|buf|, w'), NextLap(|buf|, w', lap), hist + chunk)
  {
    assert Looked(Now);
    forall k | 0 <= k < w + |chunk| ensures buf[k] == (hist + chunk)[lap + k] {
      if k >= w {
        assert buf[w..w + |chunk|][k - w] == chunk[k - w];
      }
    }
  }

  lemma {:induction false} PutBetween(size: nat, r: nat, w: nat, full: bool, n: nat, k: nat)
    requires Between(size, r, w, full, n) && 0 < k && n + k <= size && w + k <= size
    ensures var w' := Next(size, w + k); Between(size, r, w', full || w' == r, n + k)
  {
  }

  // Where the byte distance back from w lies in the buffer.
  ghost predicate Back(size: nat, w: nat, distance: nat, src: nat) {
    src < size && src == (if w >= distance then w - distance else w - distance + size)
  }

  lemma {:induction false} BackMoves(size: nat, w: nat, distance: nat, src: nat, n: nat)
    requires Back(size, w, distance, src) && w < size && 0 < distance <= size && src + n <= size && w + n <= size && n <= distance
    ensures Back(size, Next(size, w + n), distance, Next(size, src + n))
  {
  }

  lemma {:induction false} DepthGrows(w: Win, bytes: seq<byte>)
    ensures Depth(w) <= Depth(Written(w, bytes)) && Written(w, bytes).size == w.size
    ensures Written(w, bytes).unread == w.unread + |bytes| && w.hist <= Written(w, bytes).hist
  {
  }

  lemma {:induction false} SliceJoin(front: seq<byte>, h: seq<byte>, from: nat, a: nat, b: nat)
    requires from + a + b <= |h|
    ensures front + h[from..from + (a + b)] == (front + h[from..from + a]) + h[from + a..from + a + b]
  {
  }

  // copy(p[at:], chunk).
  method PutAt(p: array<byte>, at: nat, chunk: seq<byte>)
    requires at + |chunk| <= p.Length
    modifies p
    ensures p[..at + |chunk|] == old(p[..at]) + chunk && p[at + |chunk|..] == old(p[at + |chunk|..])
  {
    forall k | 0 <= k < |chunk| {
      p[at + k] := chunk[k];
    }
  }

  lemma {:induction false} WrittenMore(w0: Win, p: seq<byte>, i: nat, n: nat)
    requires i + n <= |p|
    ensures p[i..][..n] == p[i..i + n] && p[i..][n..] == p[i + n..]
    ensures Written(Written(w0, p[..i]), p[i..i + n]) == Written(w0, p[..i + n])
  {
    assert p[..i] + p[i..i + n] == p[..i + n];
    assert w0.hist + p[..i] + p[i..i + n] == w0.hist + (p[..i] + p[i..i + n]);
  }

  // A stretch of the buffer lying at a fixed offset from the history is a stretch of the history.
  lemma {:induction false} StretchIs(buf: seq<byte>, r: nat, hist: seq<byte>, offset: int, n: nat)
    requires r + n <= |buf| && 0 <= offset + r && offset + r + n <= |hist|
    requires forall k :: r <= k < r + n ==> buf[k] == hist[offset + k]
    ensures buf[r..r + n] == hist[offset + r..offset + r + n]
  {
    var here, there := buf[r..r + n], hist[offset + r..offset + r + n];
    forall x | 0 <= x < n ensures here[x] == there[x] {
      assert buf[r + x] == hist[offset + (r + x)];
    }
  }

  function Least(a: nat, b: nat, c: nat, d: nat): (n: nat)
    ensures n <= a && n <= b && n <= c && n <= d && (n == a || n == b || n == c || n == d)
  {
    Min(Min(a, b), Min(c, d))
  }

  class Window {
    var buf: array<byte>
    var r: nat
    var w: nat
    var full: bool
    var wrapped: bool
    var incomplete: bool
    ghost var hist: seq<byte>
    ghost var unread: nat
    ghost var lap: nat

    ghost predicate Valid()
      reads this, buf
    {
      && Holds(buf[..], w, lap, hist)
      && (wrapped <==> lap > 0)
      && Between(buf.Length, r, w, full, unread) && unread <= |hist|
    }

    ghost function W(): Win
      reads this, buf
    {
      Win(hist, unread, buf.Length)
    }

    constructor (size: nat)
      ensures Valid() && fresh(buf) && !incomplete
      ensures W() == Win([], 0, if size < MIN_WINDOW then MIN_WINDOW else size)
    {
      var n := if size < MIN_WINDOW then MIN_WINDOW else size;
      buf := new byte[n](_ => 0);
      r, w, full, wrapped, incomplete := 0, 0, false, false, false;
      hist, unread, lap := [], 0, 0;
    }

    function HistoryLen(): (n: nat)
      requires Valid()
      reads this, buf
      ensures n == Depth(W())
    {
      if wrapped then buf.Length else w
    }

    function Available(): (n: nat)
      requires Valid()
      reads this, buf
      ensures n == unread
    {
      if full then buf.Length else if w >= r then w - r else buf.Length - r + w
    }

    function Target(): (n: nat)
      reads this, buf
      ensures n == FillTarget(W()) && n <= 0x100_0000 && 2 * n <= buf.Length && (n < 0x100_0000 ==> buf.Length < 2 * n + 2)
    {
      Min(buf.Length / 2, MAX_FILL_TARGET)
    }

    // The bookkeeping every write ends with: a chunk has just been put at w.
    method Advance(ghost was: seq<byte>, ghost chunk: seq<byte>, n: nat)
      requires Holds(was, w, lap, hist) && Put(was, buf[..], w, chunk) && |chunk| == n
      requires (wrapped <==> lap > 0) && Between(buf.Length, r, w, full, unread) && unread <= |hist|
      requires 0 < n && unread + n <= buf.Length
      modifies `w, `full, `wrapped, `hist, `unread, `lap
      ensures Valid() && W() == Written(old(W()), chunk)
      ensures w == Next(buf.Length, old(w) + n)
    {
      PutHolds(was, buf[..], w, lap, hist, chunk);
      PutBetween(buf.Length, r, w, full, unread, n);
      lap := NextLap(buf.Length, w + n, lap);
      hist, unread := hist + chunk, unread + n;
      w := w + n;
      if w >= buf.Length {
        w := 0;
        wrapped := true;
      }
      assert w == Next(buf.Length, old(w) + n) && (wrapped <==> lap > 0);
      if w == r {
        full := true;
      }
    }

    method WriteByte(c: byte)
      requires Valid() && unread < buf.Length
      modifies this, buf
      ensures Valid() && W() == Written(old(W()), [c]) && buf == old(buf) && incomplete == old(incomplete)
    {
      ghost var was := buf[..];
      buf[w] := c;
      Advance(was, [c], 1);
    }

    method WriteBytes(p: seq<byte>)
      requires Valid() && unread + |p| <= buf.Length
      modifies this, buf
      ensures Valid() && W() == Written(old(W()), p) && buf == old(buf) && incomplete == old(incomplete)
    {
      ghost var w0, a := W(), buf;
      var rest := p;
      assert w0.hist + p[..0] == w0.hist;
      while rest != []
        invariant Valid() && buf == a && incomplete == old(incomplete) && |rest| <= |p|
        invariant W() == Written(w0, p[..|p| - |rest|]) && rest == p[|p| - |rest|..]
        decreases |rest|
      {
        var n := Min(buf.Length - w, |rest|);
        WrittenMore(w0, p, |p| - |rest|, n);
        PutChunk(rest[..n]);
        rest := rest[n..];
      }
      assert p[..|p|] == p;
    }

    // copy(w.buf[w.w:], chunk).
    method PutChunk(chunk: seq<byte>)
      requires Valid() && chunk != [] && unread + |chunk| <= buf.Length && w + |chunk| <= buf.Length
      modifies this, buf
      ensures Valid() && W() == Written(old(W()), chunk) && buf == old(buf) && incomplete == old(incomplete)
      ensures w == Next(buf.Length, old(w) + |chunk|)
    {
      ghost var was := buf[..];
      forall k | 0 <= k < |chunk| {
        buf[w + k] := chunk[k];
      }
      Advance(was, chunk, |chunk|);
    }

    // The next n bytes there are the history's, as long as they wrap neither end.
    lemma {:induction false} SourceHolds(src: nat, distance: nat, n: nat)
      requires Valid() && 0 < distance <= Depth(W()) && Back(buf.Length, w, distance, src) && n <= distance && src + n <= buf.Length
      ensures buf[src..src + n] == hist[|hist| - distance..|hist| - distance + n]
    {
      assert Looked(Now);
    }

    // CopyBytes, in chunks no single one of which overlaps itself: the byte-at-a-time copy, or a
    // refusal that changes nothing.
    method CopyBytes(length: nat, distance: int) returns (ok: bool)
      requires Valid() && unread + length <= buf.Length
      modifies this, buf
      ensures Valid() && buf == old(buf) && incomplete == old(incomplete)
      ensures match Lz77.CopyBytes(old(W()), length, distance)
              case Some(w') => ok && W() == w'
              case None => !ok && W() == old(W())
    {
      if distance <= 0 || distance > HistoryLen() {
        return false;
      }
      ghost var h0, a := hist, buf;
      var src := w - distance;
      if src < 0 {
        src := src + buf.Length;
      }
      var remaining := length;
      while remaining > 0
        invariant Valid() && buf == a && incomplete == old(incomplete)
        invariant 0 <= remaining <= length && 0 <= src
        invariant unread == old(unread) + length - remaining && |hist| == |h0| + length - remaining
        invariant Repeats(h0, distance, hist)
        invariant distance <= Depth(W()) && Back(buf.Length, w, distance, src)
      {
        src, remaining := CopyStep(src, distance, remaining, h0);
      }
      LzCopyRepeats(h0, distance, length, hist);
      ok := true;
    }

    method CopyStep(src0: nat, distance: nat, left: nat, ghost h0: seq<byte>) returns (src: nat, remaining: nat)
      requires Valid() && 0 < left && 0 < distance <= |h0| && distance <= Depth(W()) && unread + left <= buf.Length
      requires Back(buf.Length, w, distance, src0) && Repeats(h0, distance, hist)
      modifies this, buf
      ensures Valid() && buf == old(buf) && incomplete == old(incomplete)
      ensures remaining < left && unread == old(unread) + left - remaining && |hist| == old(|hist|) + left - remaining
      ensures distance <= Depth(W()) && Back(buf.Length, w, distance, src) && Repeats(h0, distance, hist)
    {
      var n := Least(left, distance, buf.Length - src0, buf.Length - w);
      RepeatsChunk(h0, distance, hist, n);
      src := CopyChunk(src0, distance, n);
      remaining := left - n;
    }

    method CopyChunk(src0: nat, distance: nat, n: nat) returns (src: nat)
      requires Valid() && 0 < n <= distance <= Depth(W()) && unread + n <= buf.Length
      requires Back(buf.Length, w, distance, src0)
      requires src0 + n <= buf.Length && w + n <= buf.Length
      modifies this, buf
      ensures Valid() && buf == old(buf) && incomplete == old(incomplete)
      ensures unread == old(unread) + n && hist == old(hist + hist[|hist| - distance..|hist| - distance + n])
      ensures distance <= Depth(W()) && Back(buf.Length, w, distance, src)
    {
      DepthGrows(W(), hist[|hist| - distance..|hist| - distance + n]);
      SourceHolds(src0, distance, n);
      BackMoves(buf.Length, w, distance, src0, n);
      src := src0 + n;
      PutChunk(buf[src0..src0 + n]); // copy takes the bytes as they were: memmove
      if src >= buf.Length {
        src := 0;
      }
    }

    // Read into p[at..end]: the oldest unread bytes, as many as fit.
    method Read(p: array<byte>, at: nat, end: nat) returns (copied: nat)
      requires Valid() && p != buf && at <= end <= p.Length
      modifies this, p
      ensures Valid() && buf == old(buf) && incomplete == old(incomplete)
      ensures copied == Min(end - at, old(unread))
      ensures p[..at + copied] == old(p[..at]) + old(hist[|hist| - unread..|hist| - unread + copied])
      ensures p[at + copied..] == old(p[at + copied..])
      ensures W() == old(W()).(unread := old(unread) - copied)
    {
      var avail := Available();
      copied := 0;
      if avail == 0 {
        return;
      }
      var n := Min(end - at, avail);
      var wasFull := full;
      if n > 0 {
        full := false;
      }
      ghost var from, front := |hist| - unread, p[..at];
      while copied < n
        invariant copied <= n && unread == old(unread) - copied
        invariant Between(buf.Length, r, w, if copied == 0 then wasFull else false, unread)
        invariant p[..at + copied] == front + hist[from..from + copied] && p[at + copied..] == old(p[at + copied..])
        modifies `r, `unread, p
      {
        copied := ReadChunk(p, at, copied, n, wasFull && copied == 0, from, front);
      }
    }

    // One contiguous stretch, up to w or to the end of the buffer.
    method ReadChunk(p: array<byte>, at: nat, copied: nat, n: nat, lapped: bool, ghost from: nat, ghost front: seq<byte>)
      returns (c: nat)
      requires p != buf && copied < n && at + n <= p.Length && Holds(buf[..], w, lap, hist)
      requires (wrapped <==> lap > 0) && unread <= |hist| && n - copied <= unread
      requires Between(buf.Length, r, w, lapped, unread) && from + copied == |hist| - unread
      requires p[..at + copied] == front + hist[from..from + copied]
      modifies `r, `unread, p
      ensures copied < c <= n && unread == old(unread) - (c - copied)
      ensures Between(buf.Length, r, w, false, unread)
      ensures p[..at + c] == front + hist[from..from + c] && p[at + c..] == old(p[at + c..])
    {
      var end := w;
      if w < r || lapped {
        end := buf.Length;
      }
      var chunk := Min(n - copied, end - r);
      StretchHolds(chunk, lapped);
      PutAt(p, at + copied, buf[r..r + chunk]);
      SliceJoin(front, hist, from, copied, chunk);
      r := r + chunk;
      c := copied + chunk;
      unread := unread - chunk;
      if r >= buf.Length {
        r := 0;
      }
    }

    lemma {:induction false} StretchHolds(chunk: nat, lapped: bool)
      requires Holds(buf[..], w, lap, hist) && (wrapped <==> lap > 0) && unread <= |hist| && chunk <= unread
      requires Between(buf.Length, r, w, lapped, unread)
      requires r + chunk <= if w < r || lapped then buf.Length else w
      ensures buf[r..r + chunk] == hist[|hist| - unread..|hist| - unread + chunk]
    {
      assert Looked(Now);
      var from := |hist| - unread;
      if w < r || lapped {
        StretchIs(buf[..], r, hist, lap - buf.Length, chunk);
        assert from == lap - buf.Length + r;
      } else {
        StretchIs(buf[..], r, hist, lap, chunk);
        assert from == lap + r;
      }
      assert buf[..][r..r + chunk] == buf[r..r + chunk];
    }

    // Reset: the history goes, or only what is unread of it does.
    method Reset(keepHistory: bool)
      requires Valid()
      modifies this
      ensures Valid() && buf == old(buf) && incomplete == old(incomplete)
      ensures W() == if keepHistory then old(W()).(unread := 0) else Win([], 0, buf.Length)
    {
      unread := 0;
      if !keepHistory {
        w, r, wrapped := 0, 0, false;
        hist, lap := [], 0;
      } else {
        r := w;
      }
      full := false;
    }

    // BeginFile: a solid member is refused after damage; any other starts afresh.
    method BeginFile(solid: bool) returns (ok: bool)
      requires Valid()
      modifies this
      ensures Valid() && buf == old(buf)
      ensures ok == !(solid && old(incomplete))
      ensures incomplete == (old(incomplete) && solid)
      ensures W() == if !ok then old(W()) else if solid then old(W()).(unread := 0) else Win([], 0, buf.Length)
    {
      if solid {
        if incomplete {
          return false;
        }
        Reset(true);
        return true;
      }
      incomplete := false;
      Reset(false);
      ok := true;
    }

    // grow: nothing for a size already met; otherwise a new zeroed buffer, unless it cannot be had.
    method Grow(size: nat, reserved: bool) returns (ok: bool)
      requires Valid()
      modifies this
      ensures Valid() && incomplete == old(incomplete) && ok == (size <= old(buf.Length) || reserved)
      ensures buf == old(buf) || fresh(buf)
      ensures W() == if size <= old(buf.Length) || !reserved then old(W()) else Win([], 0, size)
    {
      if size <= buf.Length {
        return true;
      }
      if !reserved {
        return false;
      }
      buf := new byte[size](_ => 0);
      r, w, full, wrapped := 0, 0, false, false;
      hist, unread, lap := [], 0, 0;
      ok := true;
    }
  }
}
