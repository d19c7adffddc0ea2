// blake2s: one hasher of the tree, holding back its last block (blake2sp.go:56-116; the compression
// and finalisation are sections 3.2 and 3.3 of RFC 7693).

module Blake2s {
  import opened Basics

  const BLOCK: nat := 64   // blake2sBlockSize

  // Eight state words.
  type Words = s: seq<nat> | |s| == 8 witness [0, 0, 0, 0, 0, 0, 0, 0]

  // The round function, uninterpreted: compress for a block that is not the last, finish for the one
  // that is, seed for a node's parameter block, digest for the words as bytes.
  datatype Core = Core(
    compress: (Words, seq<byte>, nat) -> Words,
    finish: (Words, seq<byte>, nat, bool) -> Words,
    seed: (nat, nat) -> Words,
    digest: Words -> seq<byte>
  ) {
    function Compress(h: Words, block: seq<byte>, t: nat): Words { compress(h, block, t) }
    function Finish(h: Words, block: seq<byte>, t: nat, lastNode: bool): Words { finish(h, block, t, lastNode) }
    function Seed(nodeOffset: nat, nodeDepth: nat): Words { seed(nodeOffset, nodeDepth) }
    function Digest(h: Words): seq<byte> { digest(h) }
  }

  // buf is the part of the block buffer in use, at most a whole block of it.
  datatype Hasher = Hasher(h: Words, t: nat, buf: seq<byte>, lastNode: bool)

  function Init(k: Core, nodeOffset: nat, nodeDepth: nat, lastNode: bool): Hasher {
    Hasher(k.Seed(nodeOffset, nodeDepth), 0, [], lastNode)
  }

  function Compressed(k: Core, s: Hasher, block: seq<byte>): Hasher {
    s.(h := k.Compress(s.h, block, s.t + BLOCK), t := s.t + BLOCK)
  }

  // The reference: one byte at a time, a full buffer compressed only when another byte comes.
  function Absorb(k: Core, s: Hasher, p: seq<byte>): (r: Hasher)
    ensures |s.buf| <= BLOCK ==> |r.buf| <= BLOCK
    ensures r.lastNode == s.lastNode
    decreases |p|
  {
    if p == [] then s
    else
      var s' := if |s.buf| == BLOCK then Compressed(k, s, s.buf).(buf := []) else s;
      Absorb(k, s'.(buf := s'.buf + [p[0]]), p[1..])
  }

  // The digest, with the last block padded with zeros.
  function Sum(k: Core, s: Hasher): seq<byte> {
    k.Digest(k.Finish(s.h, s.buf + Zeros(if |s.buf| < BLOCK then BLOCK - |s.buf| else 0), s.t + |s.buf|, s.lastNode))
  }

  lemma {:induction false} AbsorbSplit(k: Core, s: Hasher, a: seq<byte>, b: seq<byte>)
    ensures Absorb(k, s, a + b) == Absorb(k, Absorb(k, s, a), b)
    decreases |a|
  {
    if a == [] {
      assert a + b == b;
    } else {
      var s' := if |s.buf| == BLOCK then Compressed(k, s, s.buf).(buf := []) else s;
      assert (a + b)[1..] == a[1..] + b;
      AbsorbSplit(k, s'.(buf := s'.buf + [a[0]]), a[1..], b);
    }
  }

  // Bytes there is room for are just buffered.
  lemma {:induction false} AbsorbFits(k: Core, s: Hasher, p: seq<byte>)
    requires |s.buf| + |p| <= BLOCK
    ensures Absorb(k, s, p) == s.(buf := s.buf + p)
    decreases |p|
  {
    if p == [] {
      assert s.buf + p == s.buf;
    } else {
      AbsorbFits(k, s.(buf := s.buf + [p[0]]), p[1..]);
      assert s.buf + [p[0]] + p[1..] == s.buf + p;
    }
  }

  // A whole block with more behind it can be compressed without being buffered.
  lemma {:induction false} AbsorbThrough(k: Core, s: Hasher, p: seq<byte>)
    requires s.buf == [] && |p| > BLOCK
    ensures Absorb(k, s, p) == Absorb(k, Compressed(k, s, p[..BLOCK]), p[BLOCK..])
  {
    assert p == p[..BLOCK] + p[BLOCK..];
    AbsorbSplit(k, s, p[..BLOCK], p[BLOCK..]);
    AbsorbFits(k, s, p[..BLOCK]);
    assert [] + p[..BLOCK] == p[..BLOCK];
  }

  // A whole block after a whole block.
  lemma {:induction false} AbsorbBlock(k: Core, s: Hasher, block: seq<byte>)
    requires |block| == BLOCK && (s.buf == [] || |s.buf| == BLOCK)
    ensures Absorb(k, s, block) == if s.buf == [] then s.(buf := block) else Compressed(k, s, s.buf).(buf := block)
  {
    if s.buf == [] {
      AbsorbFits(k, s, block);
      assert [] + block == block;
    } else {
      var s' := Compressed(k, s, s.buf).(buf := []);
      AbsorbFits(k, s'.(buf := [block[0]]), block[1..]);
      assert [block[0]] + block[1..] == block;
      assert s'.buf + [block[0]] == [block[0]];
    }
  }

  // blake2s.write: a full buffer is compressed when more comes, whole blocks go straight from the
  // caller's slice as long as something is left behind them.
  method Write(k: Core, s0: Hasher, p0: seq<byte>) returns (s: Hasher)
    requires |s0.buf| <= BLOCK
    ensures s == Absorb(k, s0, p0)
  {
    s := s0;
    var p := p0;
    while p != []
      invariant |s.buf| <= BLOCK && Absorb(k, s0, p0) == Absorb(k, s, p)
      decreases |p|
    {
      if |s.buf| == BLOCK {
        s := Compressed(k, s, s.buf).(buf := []);
      }
      ghost var left := |p|;
      if s.buf == [] {
        while |p| > BLOCK
          invariant s.buf == [] && p != [] && Absorb(k, s0, p0) == Absorb(k, s, p)
          invariant |p| <= left
          decreases |p|
        {
          AbsorbThrough(k, s, p);
          s := Compressed(k, s, p[..BLOCK]);
          p := p[BLOCK..];
        }
      }
      var c := Min(BLOCK - |s.buf|, |p|);
      AbsorbFits(k, s, p[..c]);
      AbsorbSplit(k, s, p[..c], p[c..]);
      assert p == p[..c] + p[c..];
      s := s.(buf := s.buf + p[..c]);
      p := p[c..];
    }
  }
}
