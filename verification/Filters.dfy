// filters.go, scalar paths: each filter in place, against a specification with an inverse.

module Filters {
  import opened Basics

  // ---- Delta: the channels stored one after another, each as negated differences.

  function Sub(a: byte, b: byte): byte {
    if a >= b then a - b else a - b + 0x100
  }

  function Channel(n: nat, k: nat): nat
    requires n > 0
  {
    if k < n then k else Channel(n, k - n)
  }

  function Depth(n: nat, k: nat): nat
    requires n > 0
  {
    if k < n then 0 else 1 + Depth(n, k - n)
  }

  // How many of the positions k, k+n, k+2n, ... lie below len.
  function Count(n: nat, len: nat, k: nat): nat
    requires n > 0
    decreases if k < len then len - k else 0
  {
    if k >= len then 0 else 1 + Count(n, len, k + n)
  }

  // Where channel j's bytes start.
  function Start(n: nat, len: nat, j: nat): nat
    requires n > 0
  {
    if j == 0 then 0 else Start(n, len, j - 1) + Count(n, len, j - 1)
  }

  // Where the byte for output position k is stored.
  function Stored(n: nat, len: nat, k: nat): nat
    requires n > 0
  {
    Start(n, len, Channel(n, k)) + Depth(n, k)
  }

  function Before(n: nat, out: seq<byte>, k: nat): byte
    requires 0 < n
  {
    if k < n || k - n >= |out| then 0 else out[k - n]
  }

  // The first m output bytes.
  function DeltaTo(n: nat, buf: seq<byte>, m: nat): (out: seq<byte>)
    requires n > 0
    ensures |out| == m
  {
    if m == 0 then []
    else
      var out := DeltaTo(n, buf, m - 1);
      var i := Stored(n, |buf|, m - 1);
      out + [Sub(Before(n, out, m - 1), if i < |buf| then buf[i] else 0)]
  }

  function Delta(n: nat, buf: seq<byte>): (out: seq<byte>)
    ensures |out| == |buf|
  {
    if n == 0 || n > |buf| then buf else DeltaTo(n, buf, |buf|)
  }

  // The encoder's half: split the channels and take differences.
  function Split(n: nat, out: seq<byte>, j: nat, k: nat): seq<byte>
    requires n > 0
    decreases if j < n then n - j else 0, if k < |out| then |out| - k else 0
  {
    if j >= n then []
    else if k >= |out| then Split(n, out, j + 1, j + 1)
    else [Sub(Before(n, out, k), out[k])] + Split(n, out, j, k + n)
  }

  function Undelta(n: nat, out: seq<byte>): seq<byte> {
    if n == 0 || n > |out| then out else Split(n, out, 0, 0)
  }

  lemma {:induction false} CountMore(n: nat, len: nat, k: nat)
    requires n > 0
    ensures Count(n, len + 1, k) == Count(n, len, k) + if k <= len && Channel(n, k) == Channel(n, len) then 1 else 0
    decreases if k < len then len - k else 0
  {
    if k < len {
      CountMore(n, len, k + n);
      assert Channel(n, k + n) == Channel(n, k);
      if k + n > len {
        ChannelGap(n, k, len);
      }
    }
  }

  lemma {:induction false} ChannelGap(n: nat, k: nat, l: nat)
    requires n > 0 && k < l < k + n
    ensures Channel(n, k) != Channel(n, l)
  {
    if k >= n {
      ChannelGap(n, k - n, l - n);
    } else if l >= n {
      assert Channel(n, l) == l - n;
    }
  }

  lemma {:induction false} ChannelBelow(n: nat, k: nat)
    requires n > 0
    ensures Channel(n, k) < n
  {
    if k >= n {
      ChannelBelow(n, k - n);
    }
  }

  lemma {:induction false} StartMore(n: nat, len: nat, j: nat)
    requires 0 < n && j <= n
    ensures Start(n, len + 1, j) == Start(n, len, j) + if Channel(n, len) < j then 1 else 0
  {
    if j > 0 {
      StartMore(n, len, j - 1);
      CountMore(n, len, j - 1);
      if len < j - 1 {
        assert Channel(n, len) == len;
      }
    }
  }

  // The channels together are the whole buffer.
  lemma {:induction false} StartTotal(n: nat, len: nat)
    requires 0 < n
    ensures Start(n, len, n) == len
  {
    if len == 0 {
      StartNone(n, n);
    } else {
      StartTotal(n, len - 1);
      StartMore(n, len - 1, n);
      ChannelBelow(n, len - 1);
    }
  }

  lemma {:induction false} StartNone(n: nat, j: nat)
    requires 0 < n
    ensures Start(n, 0, j) == 0
  {
    if j > 0 {
      StartNone(n, j - 1);
    }
  }

  lemma {:induction false} StartMono(n: nat, len: nat, a: nat, b: nat)
    requires 0 < n && a <= b
    ensures Start(n, len, a) <= Start(n, len, b)
  {
    if a < b {
      StartMono(n, len, a, b - 1);
    }
  }

  lemma {:induction false} DeltaPrefix(n: nat, buf: seq<byte>, a: nat, b: nat)
    requires n > 0 && a <= b
    ensures DeltaTo(n, buf, b)[..a] == DeltaTo(n, buf, a)
  {
    if a < b {
      DeltaPrefix(n, buf, a, b - 1);
      assert DeltaTo(n, buf, b)[..a] == DeltaTo(n, buf, b - 1)[..a];
    }
  }

  // Each output byte in terms of the one before it in its channel.
  lemma {:induction false} DeltaAt(n: nat, buf: seq<byte>, k: nat)
    requires 0 < n <= |buf| && k < |buf|
    ensures var out := Delta(n, buf); var i := Stored(n, |buf|, k);
      i < |buf| && out[k] == Sub(Before(n, out, k), buf[i])
  {
    var out := Delta(n, buf);
    DeltaPrefix(n, buf, k + 1, |buf|);
    DeltaPrefix(n, buf, k, |buf|);
    assert out[k] == out[..k + 1][k];
    if k >= n {
      assert out[k - n] == out[..k][k - n];
    }
    StoredInside(n, |buf|, k);
  }

  lemma {:induction false} StoredInside(n: nat, len: nat, k: nat)
    requires 0 < n && k < len
    ensures Stored(n, len, k) < Start(n, len, Channel(n, k) + 1) <= len
  {
    ChannelBelow(n, k);
    StartTotal(n, len);
    StartMono(n, len, Channel(n, k) + 1, n);
    DepthBelow(n, len, k);
  }

  lemma {:induction false} DepthBelow(n: nat, len: nat, k: nat)
    requires 0 < n && k < len
    ensures Depth(n, k) + Count(n, len, k) == Count(n, len, Channel(n, k))
  {
    if k >= n {
      DepthBelow(n, len, k - n);
    }
  }

  ghost predicate IsDelta(n: nat, buf: seq<byte>, out: seq<byte>)
    requires n > 0
  {
    && |out| == |buf|
    && forall now :: Looked(now) ==> forall k :: 0 <= k < |buf| ==>
         Stored(n, |buf|, k) < |buf| && out[k] == Sub(Before(n, out, k), buf[Stored(n, |buf|, k)])
  }

  lemma {:induction false} DeltaIs(n: nat, buf: seq<byte>)
    requires 0 < n <= |buf|
    ensures IsDelta(n, buf, Delta(n, buf))
  {
    forall k | 0 <= k < |buf|
      ensures Stored(n, |buf|, k) < |buf| && Delta(n, buf)[k] == Sub(Before(n, Delta(n, buf), k), buf[Stored(n, |buf|, k)])
    {
      DeltaAt(n, buf, k);
    }
  }

  lemma {:induction false} DifferenceAt(n: nat, buf: seq<byte>, out: seq<byte>, k: nat)
    requires 0 < n && IsDelta(n, buf, out) && k < |buf|
    ensures var i := Stored(n, |buf|, k); i < |buf| && Sub(Before(n, out, k), out[k]) == buf[i]
  {
    assert Looked(Now);
  }

  lemma {:induction false} HeadOf(buf: seq<byte>, i: nat)
    requires i < |buf|
    ensures [buf[i]] + buf[i + 1..] == buf[i..]
  {
  }

  // Splitting and differencing from position k of channel j gives back the bytes stored from i on.
  lemma {:induction false} SplitUndoes(n: nat, buf: seq<byte>, out: seq<byte>, j: nat, k: nat, i: nat)
    requires 0 < n && j <= n && i <= |buf| && IsDelta(n, buf, out)
    requires if j == n then i == |buf| else
      Channel(n, k) == j && i == Start(n, |buf|, j) + Depth(n, k) && i + Count(n, |buf|, k) == Start(n, |buf|, j + 1)
    ensures Split(n, out, j, k) == buf[i..]
    decreases n - j, if k < |buf| then |buf| - k else 0
  {
    var len := |buf|;
    if j < n {
      if k < len {
        DifferenceAt(n, buf, out, k);
        SplitUndoes(n, buf, out, j, k + n, i + 1);
        HeadOf(buf, i);
      } else {
        StartTotal(n, len);
        assert Split(n, out, j, k) == Split(n, out, j + 1, j + 1);
        SplitUndoes(n, buf, out, j + 1, j + 1, i);
      }
    }
  }

  // Delta with 1 <= n <= length is undone by its encoder, and for any other n changes nothing.
  lemma {:induction false} DeltaUndone(n: nat, buf: seq<byte>)
    ensures Undelta(n, Delta(n, buf)) == buf
  {
    if 0 < n <= |buf| {
      DeltaIs(n, buf);
      SplitUndoes(n, buf, Delta(n, buf), 0, 0, 0);
      assert buf[0..] == buf;
    }
  }

  // What the encoder stores for output position x, split from position k of channel j on.
  lemma {:induction false} SplitStores(n: nat, out: seq<byte>, j: nat, k: nat, i: nat, x: nat)
    requires 0 < n && j < n && i <= |out| && x < |out|
    requires Channel(n, k) == j && i == Start(n, |out|, j) + Depth(n, k) && i + Count(n, |out|, k) == Start(n, |out|, j + 1)
    requires Channel(n, x) > j || (Channel(n, x) == j && x >= k)
    ensures var s := Split(n, out, j, k);
      |s| == |out| - i && i <= Stored(n, |out|, x) < |out| && s[Stored(n, |out|, x) - i] == Sub(Before(n, out, x), out[x])
    decreases n - j, if k < |out| then |out| - k else 0
  {
    var len := |out|;
    StoredInside(n, len, x);
    if k >= len {
      ChannelBelow(n, x);
      SplitStores(n, out, j + 1, j + 1, i, x);
    } else if x == k {
      SplitLength(n, out, j, k, i);
    } else {
      if Channel(n, x) == j && x < k + n {
        ChannelGap(n, k, x);
      }
      SplitRest(n, out, j, k, i, x);
    }
  }

  lemma {:induction false} SplitRest(n: nat, out: seq<byte>, j: nat, k: nat, i: nat, x: nat)
    requires 0 < n && j < n && i <= |out| && x < |out| && k < |out|
    requires Channel(n, k) == j && i == Start(n, |out|, j) + Depth(n, k) && i + Count(n, |out|, k) == Start(n, |out|, j + 1)
    requires Channel(n, x) > j || (Channel(n, x) == j && x >= k + n)
    ensures var s := Split(n, out, j, k);
      |s| == |out| - i && i <= Stored(n, |out|, x) < |out| && s[Stored(n, |out|, x) - i] == Sub(Before(n, out, x), out[x])
    decreases n - j, if k < |out| then |out| - k else 0, 0
  {
    StoredInside(n, |out|, k);
    SplitStores(n, out, j, k + n, i + 1, x);
    PrependAt(Sub(Before(n, out, k), out[k]), Split(n, out, j, k + n), Stored(n, |out|, x) - i);
  }

  lemma {:induction false} PrependAt(v: byte, tail: seq<byte>, t: nat)
    requires 0 < t <= |tail|
    ensures ([v] + tail)[t] == tail[t - 1] && |[v] + tail| == |tail| + 1
  {
  }

  lemma {:induction false} SplitLength(n: nat, out: seq<byte>, j: nat, k: nat, i: nat)
    requires 0 < n && j <= n && i <= |out|
    requires if j == n then i == |out| else i + Count(n, |out|, k) == Start(n, |out|, j + 1)
    ensures |Split(n, out, j, k)| == |out| - i
    decreases n - j, if k < |out| then |out| - k else 0
  {
    if j < n {
      if k < |out| {
        StartTotal(n, |out|);
        StartMono(n, |out|, j + 1, n);
        SplitLength(n, out, j, k + n, i + 1);
      } else {
        StartTotal(n, |out|);
        SplitLength(n, out, j + 1, j + 1, i);
      }
    }
  }

  lemma {:induction false} DeltaOfSplit(n: nat, out: seq<byte>, m: nat)
    requires 0 < n <= |out| && m <= |out|
    ensures |Undelta(n, out)| == |out| && DeltaTo(n, Undelta(n, out), m) == out[..m]
  {
    SplitLength(n, out, 0, 0, 0);
    if m > 0 {
      DeltaOfSplit(n, out, m - 1);
      SplitStores(n, out, 0, 0, 0, m - 1);
      DeltaStep(n, Undelta(n, out), out, m);
    }
  }

  lemma {:induction false} DeltaStep(n: nat, buf: seq<byte>, out: seq<byte>, m: nat)
    requires 0 < n && 0 < m <= |out| == |buf| && DeltaTo(n, buf, m - 1) == out[..m - 1]
    requires var i := Stored(n, |buf|, m - 1); i < |buf| && buf[i] == Sub(Before(n, out, m - 1), out[m - 1])
    ensures DeltaTo(n, buf, m) == out[..m]
  {
    var b := Before(n, out, m - 1);
    assert Before(n, out[..m - 1], m - 1) == b;
    assert Sub(b, Sub(b, out[m - 1])) == out[m - 1];
    assert out[..m] == out[..m - 1] + [out[m - 1]];
  }

  // And the other way round: every buffer is the delta of its own differences.
  lemma {:induction false} DeltaOfUndelta(n: nat, out: seq<byte>)
    ensures Delta(n, Undelta(n, out)) == out
  {
    if 0 < n <= |out| {
      DeltaOfSplit(n, out, |out|);
    }
  }

  // filterDelta. A channel count of zero or beyond the length leaves the input as it is. The result is the
  // front of res, as long as the input: of the buffer offered, or of a new one if that is too short.
  method FilterDelta(n: int, buf: array<byte>, offered: array<byte>) returns (res: array<byte>)
    requires buf != offered
    modifies offered
    ensures res.Length >= buf.Length && res[..buf.Length] == if n < 0 then old(buf[..]) else Delta(n, old(buf[..]))
    ensures buf[..] == old(buf[..]) && (res == buf || res == offered || fresh(res))
    ensures forall k :: buf.Length <= k < offered.Length ==> offered[k] == old(offered[k])
  {
    if n <= 0 || n > buf.Length {
      assert buf[..buf.Length] == buf[..];
      return buf;
    }
    res := offered;
    if res.Length < buf.Length {
      res := new byte[buf.Length];
    }
    DeltaInto(n, buf, res);
  }

  method DeltaInto(n: nat, buf: array<byte>, out: array<byte>)
    requires buf != out && 0 < n <= buf.Length <= out.Length
    modifies out
    ensures out[..buf.Length] == Delta(n, buf[..])
    ensures forall k :: buf.Length <= k < out.Length ==> out[k] == old(out[k])
  {
    ghost var want, was := Delta(n, buf[..]), out[..];
    DeltaIs(n, buf[..]);
    var i := 0;
    for j := 0 to n
      invariant i == Start(n, buf.Length, j)
      invariant WrittenTo(n, j, want, was, out[..])
    {
      ghost var now := out[..];
      i := DeltaChannel(n, buf, out, j, i, want);
      ChannelWritten(n, j, want, was, now, out[..]);
    }
    AllWritten(n, want, was, out[..]);
    assert forall k :: buf.Length <= k < out.Length ==> out[k] == out[..][k];
  }

  // The channels before j are those of want in front; all other bytes are as they were.
  ghost predicate WrittenTo(n: nat, j: nat, want: seq<byte>, was: seq<byte>, now: seq<byte>)
    requires n > 0
  {
    && |want| <= |now| == |was|
    && forall x :: 0 <= x < |now| ==> now[x] == if x < |want| && Channel(n, x) < j then want[x] else was[x]
  }

  // Channel j's bytes before place k are those of want; all others are as they were.
  ghost predicate Written(n: nat, j: nat, k: nat, want: seq<byte>, was: seq<byte>, out: seq<byte>)
    requires n > 0
  {
    |want| <= |out| == |was| && forall now: Asked :: WrittenNow(n, j, k, want, was, out, now)
  }

  ghost predicate WrittenNow(n: nat, j: nat, k: nat, want: seq<byte>, was: seq<byte>, out: seq<byte>, now: Asked)
    requires n > 0 && |want| <= |out| == |was|
  {
    forall x :: 0 <= x < |out| ==> out[x] == if x < k && x < |want| && Channel(n, x) == j then want[x] else was[x]
  }

  lemma {:induction false} WrittenFirst(n: nat, j: nat, want: seq<byte>, was: seq<byte>)
    requires j < n && |want| <= |was|
    ensures Written(n, j, j, want, was, was)
  {
    forall x | 0 <= x < j ensures Channel(n, x) != j {
    }
  }

  lemma {:induction false} WrittenMore(n: nat, j: nat, k: nat, want: seq<byte>, was: seq<byte>, now: seq<byte>, now': seq<byte>)
    requires n > 0 && k < |want| && Channel(n, k) == j && Written(n, j, k, want, was, now) && now' == now[k := want[k]]
    ensures Written(n, j, k + n, want, was, now')
  {
    assert WrittenNow(n, j, k, want, was, now, Now);
    forall x | k < x < k + n ensures Channel(n, x) != j {
      ChannelGap(n, k, x);
    }
  }

  lemma {:induction false} ChannelWritten(n: nat, j: nat, want: seq<byte>, was: seq<byte>, now: seq<byte>, now': seq<byte>)
    requires n > 0 && WrittenTo(n, j, want, was, now) && Written(n, j, |want|, want, now, now')
    ensures WrittenTo(n, j + 1, want, was, now')
  {
    assert WrittenNow(n, j, |want|, want, now, now', Now);
  }

  lemma {:induction false} AllWritten(n: nat, want: seq<byte>, was: seq<byte>, now: seq<byte>)
    requires n > 0 && WrittenTo(n, n, want, was, now)
    ensures now[..|want|] == want && forall k :: |want| <= k < |now| ==> now[k] == was[k]
  {
    forall k | 0 <= k < |want| ensures now[k] == want[k] {
      ChannelBelow(n, k);
    }
  }

  // Channel j has got to place k of want, stored at i, with c the byte before it.
  ghost predicate Reached(n: nat, want: seq<byte>, j: nat, k: nat, i: nat, c: byte)
    requires n > 0
  {
    forall now: Asked :: ReachedNow(n, want, j, k, i, c, now)
  }

  ghost predicate ReachedNow(n: nat, want: seq<byte>, j: nat, k: nat, i: nat, c: byte, now: Asked)
    requires n > 0
  {
    && k >= j && Channel(n, k) == j && c == Before(n, want, k)
    && i == Start(n, |want|, j) + Depth(n, k) && i + Count(n, |want|, k) == Start(n, |want|, j + 1)
  }

  lemma {:induction false} ReachedFirst(n: nat, want: seq<byte>, j: nat, i: nat)
    requires j < n && i == Start(n, |want|, j)
    ensures Reached(n, want, j, j, i, 0)
  {
  }

  lemma {:induction false} ReachedLast(n: nat, want: seq<byte>, j: nat, k: nat, i: nat, c: byte)
    requires n > 0 && k >= |want| && Reached(n, want, j, k, i, c)
    ensures i == Start(n, |want|, j + 1)
  {
    assert ReachedNow(n, want, j, k, i, c, Now);
  }

  lemma {:induction false} ReachedMore(n: nat, buf: seq<byte>, want: seq<byte>, j: nat, k: nat, i: nat, c: byte)
    requires n > 0 && IsDelta(n, buf, want) && k < |want| && Reached(n, want, j, k, i, c)
    ensures i < |buf| && Sub(c, buf[i]) == want[k] && Channel(n, k) == j && Reached(n, want, j, k + n, i + 1, want[k])
  {
    assert Looked(Now) && ReachedNow(n, want, j, k, i, c, Now);
    assert Stored(n, |want|, k) == i;
  }

  // Channel j, from stored position i0 on.
  method DeltaChannel(n: nat, buf: array<byte>, out: array<byte>, j: nat, i0: nat, ghost want: seq<byte>) returns (i: nat)
    requires buf != out && out.Length >= buf.Length && 0 < n && j < n && i0 == Start(n, buf.Length, j)
    requires IsDelta(n, buf[..], want)
    modifies out
    ensures i == Start(n, buf.Length, j + 1)
    ensures Written(n, j, buf.Length, want, old(out[..]), out[..])
  {
    ghost var input, was := buf[..], out[..];
    var c: byte := 0;
    var k := j;
    i := i0;
    ReachedFirst(n, want, j, i);
    WrittenFirst(n, j, want, was);
    while k < buf.Length
      invariant buf[..] == input && Reached(n, want, j, k, i, c)
      invariant Written(n, j, k, want, was, out[..])
      decreases if k < buf.Length then buf.Length - k else 0
    {
      c := DeltaByte(n, buf, out, j, k, i, c, want, was);
      i := i + 1;
      k := k + n;
    }
    ReachedLast(n, want, j, k, i, c);
    WrittenThrough(n, j, k, want, was, out[..]);
  }

  lemma {:induction false} WrittenThrough(n: nat, j: nat, k: nat, want: seq<byte>, was: seq<byte>, now: seq<byte>)
    requires n > 0 && k >= |want| && Written(n, j, k, want, was, now)
    ensures Written(n, j, |want|, want, was, now)
  {
    assert WrittenNow(n, j, k, want, was, now, Now);
  }

  // One byte of it.
  method DeltaByte(n: nat, buf: array<byte>, out: array<byte>, j: nat, k: nat, i: nat, c0: byte,
                   ghost want: seq<byte>, ghost was: seq<byte>) returns (c: byte)
    requires buf != out && out.Length >= buf.Length > k && 0 < n && IsDelta(n, buf[..], want)
    requires Reached(n, want, j, k, i, c0) && Written(n, j, k, want, was, out[..])
    modifies out
    ensures Reached(n, want, j, k + n, i + 1, c) && Written(n, j, k + n, want, was, out[..])
  {
    ReachedMore(n, buf[..], want, j, k, i, c0);
    c := Sub(c0, buf[i]);
    ghost var now := out[..];
    out[k] := c;
    WrittenMore(n, j, k, want, was, now, out[..]);
  }
}
