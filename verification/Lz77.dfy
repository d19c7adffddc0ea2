// LZ77 copies over an unbounded history: what the ring buffer in Window.dfy has to look like.

module Lz77 {
  import opened Basics
  import opened DecodeTypes

  // How far back a match may reach: no further than this history, nor than the window
  // (window.historyLen).
  function Depth(w: Win): nat {
    Min(|w.hist|, w.size)
  }

  // One byte at a time, each from distance back; length may exceed distance.
  function LzCopy(hist: seq<byte>, distance: nat, length: nat): (r: seq<byte>)
    requires 0 < distance <= |hist|
    ensures |r| == |hist| + length && hist <= r
    decreases length
  {
    if length == 0 then hist else LzCopy(hist + [hist[|hist| - distance]], distance, length - 1)
  }

  // n more bytes written.
  function Written(w: Win, bytes: seq<byte>): Win {
    Win(w.hist + bytes, w.unread + |bytes|, w.size)
  }

  function CopyBytes(w: Win, length: nat, distance: int): Option<Win> {
    if distance <= 0 || distance > Depth(w) then None
    else Some(Win(LzCopy(w.hist, distance, length), w.unread + length, w.size))
  }

  // Every byte of h after h0 repeats the one distance before it.
  ghost predicate Repeats(h0: seq<byte>, distance: nat, h: seq<byte>)
    requires 0 < distance <= |h0|
  {
    h0 <= h && forall i :: |h0| <= i < |h| ==> h[i] == h[i - distance]
  }

  // What a copy is: that, and nothing else.
  lemma {:induction false} LzCopyRepeats(hist: seq<byte>, distance: nat, length: nat, r: seq<byte>)
    requires 0 < distance <= |hist| && |r| == |hist| + length
    ensures r == LzCopy(hist, distance, length) <==> Repeats(hist, distance, r)
    decreases length
  {
    if length > 0 {
      var next := hist[|hist| - distance];
      LzCopyRepeats(hist + [next], distance, length - 1, r);
      if Repeats(hist, distance, r) {
        assert r[..|hist| + 1] == hist + [next];
      }
      if hist + [next] <= r {
        assert r[|hist|] == (hist + [next])[|hist|] == next && r[|hist| - distance] == (hist + [next])[|hist| - distance];
        assert r[..|hist|] == (hist + [next])[..|hist|];
      }
    } else {
      assert hist <= r ==> r == hist;
    }
  }

  // Up to distance bytes can be copied at once: none of them is one being written.
  lemma {:induction false} RepeatsChunk(h0: seq<byte>, distance: nat, h: seq<byte>, n: nat)
    requires 0 < distance <= |h0| && Repeats(h0, distance, h) && n <= distance
    ensures Repeats(h0, distance, h + h[|h| - distance..|h| - distance + n])
  {
  }
}
