// BLAKE2sp as a tree of messages: what each leaf hashes, and what the root does (sections 3.2 and 3.3 of
// RFC 7693 for one node; blake2sp.go:56-116, 265-316 for the tree).

module BlakeTree {
  import opened Basics
  import opened Blake2s
  import opened Blake2sp

  // One node's message from a chaining value on: whole blocks with the count of the bytes so far, the last
  // one, never empty but for an empty message, padded with zeros and finished with the full count.
  function Chain(k: Core, h: Words, t: nat, msg: seq<byte>, lastNode: bool): Words
    decreases |msg|
  {
    if |msg| > 64 then Chain(k, k.Compress(h, msg[..64], t + 64), t + 64, msg[64..], lastNode)
    else k.Finish(h, msg + Zeros(64 - |msg|), t + |msg|, lastNode)
  }

  function NodeDigest(k: Core, offset: nat, depth: nat, lastNode: bool, msg: seq<byte>): seq<byte> {
    k.Digest(Chain(k, k.Seed(offset, depth), 0, msg, lastNode))
  }

  // What is dealt to leaf i, the next block going to leaf turn.
  function Share(p: seq<byte>, i: nat, turn: nat): seq<byte>
    decreases |p|
  {
    if p == [] then []
    else
      var n := Min(64, |p|);
      (if turn == i then p[..n] else []) + Share(p[n..], i, (turn + 1) % 8)
  }

  // The leaves' digests, the first n of them.
  function LeafDigests(k: Core, p: seq<byte>, n: nat): seq<byte> {
    if n == 0 then [] else LeafDigests(k, p, n - 1) + NodeDigest(k, n - 1, 0, n == 8, Share(p, n - 1, 0))
  }

  // The digest of p: eight leaves at depth 0, the eighth the last of its level, under the root at depth 1.
  function Digest(k: Core, p: seq<byte>): seq<byte> {
    NodeDigest(k, 0, 1, true, LeafDigests(k, p, 8))
  }

  // A hasher with nothing held back sums to that of its message.
  lemma {:induction false} SumIsChain(k: Core, s: Hasher, p: seq<byte>)
    requires s.buf == []
    ensures Sum(k, Absorb(k, s, p)) == k.Digest(Chain(k, s.h, s.t, p, s.lastNode))
    decreases |p|
  {
    if |p| > 64 {
      AbsorbThrough(k, s, p);
      SumIsChain(k, Compressed(k, s, p[..BLOCK]), p[BLOCK..]);
    } else {
      AbsorbFits(k, s, p);
      assert [] + p == p;
    }
  }

  // All that has been written, the block not yet full included.
  function Closed(k: Core, s: Tree): Tree
    requires s.cur < LEAVES
  {
    if s.buf != [] then Deal(k, s, s.buf) else s
  }

  lemma {:induction false} SharesDealt(k: Core, s: Tree, p: seq<byte>, i: nat)
    requires s.cur < LEAVES && s.buf == [] && i < LEAVES
    ensures Closed(k, Feed(k, s, p)).leaf[i] == Absorb(k, s.leaf[i], Share(p, i, s.cur))
    decreases |p|
  {
    if 0 < |p| < 64 {
      ShortShare(k, s, p, i);
    } else if p != [] {
      var block, rest := p[..64], p[64..];
      var s1 := Deal(k, s, block);
      assert p == block + rest;
      WholeBlock(k, s, block, rest);
      SharesDealt(k, s1, rest, i);
      AbsorbSplit(k, s.leaf[i], if s.cur == i then block else [], Share(rest, i, s1.cur));
      assert s1.leaf[i] == Absorb(k, s.leaf[i], if s.cur == i then block else []);
    }
  }

  lemma {:induction false} ShortShare(k: Core, s: Tree, p: seq<byte>, i: nat)
    requires s.cur < LEAVES && s.buf == [] && i < LEAVES && 0 < |p| < 64
    ensures Closed(k, Feed(k, s, p)).leaf[i] == Absorb(k, s.leaf[i], Share(p, i, s.cur))
  {
    FeedFits(k, s, p);
    assert [] + p == p && p[..|p|] == p && p[|p|..] == [];
    assert Share([], i, (s.cur + 1) % 8) == [];
    Nothing(if s.cur == i then p else []);
  }

  lemma {:induction false} WholeBlock(k: Core, s: Tree, block: seq<byte>, rest: seq<byte>)
    requires s.cur < LEAVES && s.buf == [] && |block| == BLOCK
    ensures Feed(k, s, block + rest) == Feed(k, Deal(k, s, block), rest)
  {
    FeedSplit(k, s, block, rest);
    FeedBlock(k, s, block);
    assert [] + block == block;
    assert s.(buf := []) == s;
  }

  lemma {:induction false} Nothing(p: seq<byte>)
    ensures p + [] == p
  {
  }

  lemma {:induction false} LeavesDigested(k: Core, p: seq<byte>, n: nat)
    requires n <= LEAVES
    ensures Digests(k, Closed(k, Feed(k, InitTree(k), p)).leaf[..n]) == LeafDigests(k, p, n)
  {
    var leaf := Closed(k, Feed(k, InitTree(k), p)).leaf;
    if n > 0 {
      LeavesDigested(k, p, n - 1);
      assert leaf[..n][..n - 1] == leaf[..n - 1];
      SharesDealt(k, InitTree(k), p, n - 1);
      SumIsChain(k, Init(k, n - 1, 0, n == LEAVES), Share(p, n - 1, 0));
    }
  }

  // The tree's sum is the digest of all that was written.
  lemma {:induction false} TreeIsDigest(k: Core, p: seq<byte>)
    ensures TreeSum(k, Feed(k, InitTree(k), p)) == Digest(k, p)
  {
    var s := Closed(k, Feed(k, InitTree(k), p));
    LeavesDigested(k, p, 8);
    assert s.leaf[..8] == s.leaf;
    SumIsChain(k, Init(k, 0, 1, true), LeafDigests(k, p, 8));
  }
}
