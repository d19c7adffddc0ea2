// The strided path on values: feeding whole strides leaf by leaf is dealing them block by block.

module Strides {
  import opened Basics
  import opened Blake2s
  import opened Blake2sp

  // Leaf i's block of the stride p starts with.
  function Block(p: seq<byte>, i: nat): (b: seq<byte>)
    requires |p| >= STRIDE && i < LEAVES
    ensures |b| == BLOCK
  {
    p[BLOCK * i..BLOCK * i + BLOCK]
  }

  // The kernel on one lane: leaf i's block of every stride compressed, none of them the last.
  function LaneRun(k: Core, h: Words, p: seq<byte>, i: nat, t: nat): Words
    requires i < LEAVES
    decreases |p|
  {
    if |p| < STRIDE then h else LaneRun(k, k.Compress(h, Block(p, i), t + BLOCK), p[STRIDE..], i, t + BLOCK)
  }

  // How far q strides move a counter.
  function Ticks(p: seq<byte>): nat
    decreases |p|
  {
    if |p| < STRIDE then 0 else BLOCK + Ticks(p[STRIDE..])
  }

  predicate WholeStrides(p: seq<byte>)
    decreases |p|
  {
    if |p| < STRIDE then p == [] else WholeStrides(p[STRIDE..])
  }

  // Cutting the strides into several kernel calls is not observable.
  lemma {:induction false} LaneRunSplit(k: Core, h: Words, a: seq<byte>, b: seq<byte>, i: nat, t: nat)
    requires i < LEAVES && WholeStrides(a)
    ensures LaneRun(k, h, a + b, i, t) == LaneRun(k, LaneRun(k, h, a, i, t), b, i, t + Ticks(a))
    ensures Ticks(a + b) == Ticks(a) + Ticks(b) && WholeStrides(a + b) == WholeStrides(b)
    decreases |a|
  {
    if a == [] {
      assert a + b == b;
    } else {
      assert Block(a + b, i) == Block(a, i) && (a + b)[STRIDE..] == a[STRIDE..] + b;
      LaneRunSplit(k, k.Compress(h, Block(a, i), t + BLOCK), a[STRIDE..], b, i, t + BLOCK);
    }
  }

  // The reference on one leaf: its block of every stride absorbed in turn.
  function LeafRun(k: Core, s: Hasher, p: seq<byte>, i: nat): Hasher
    requires i < LEAVES
    decreases |p|
  {
    if |p| < STRIDE then s else LeafRun(k, Absorb(k, s, Block(p, i)), p[STRIDE..], i)
  }

  // The first j leaves have had their block of the stride.
  function DealtLeaves(k: Core, leaf: seq<Hasher>, p: seq<byte>, j: nat): (r: seq<Hasher>)
    requires |leaf| == LEAVES && |p| >= STRIDE && j <= LEAVES
    ensures |r| == LEAVES
    ensures forall i :: 0 <= i < LEAVES ==> r[i] == if i < j then Absorb(k, leaf[i], Block(p, i)) else leaf[i]
  {
    if j == 0 then leaf else DealtLeaves(k, leaf, p, j - 1)[j - 1 := Absorb(k, leaf[j - 1], Block(p, j - 1))]
  }

  lemma {:induction false} NextBlockOf(p: seq<byte>, j: nat)
    requires |p| >= STRIDE && 0 < j <= LEAVES
    ensures p[..BLOCK * j] == p[..BLOCK * (j - 1)] + Block(p, j - 1) && [] + Block(p, j - 1) == Block(p, j - 1)
  {
  }

  lemma {:induction false} StrideDealt(k: Core, s: Tree, p: seq<byte>, j: nat)
    requires s.cur == 0 && s.buf == [] && |p| >= STRIDE && j <= LEAVES
    ensures Feed(k, s, p[..BLOCK * j]) == Tree(DealtLeaves(k, s.leaf, p, j), [], if j == LEAVES then 0 else j)
  {
    if j > 0 {
      StrideDealt(k, s, p, j - 1);
      var m := Tree(DealtLeaves(k, s.leaf, p, j - 1), [], j - 1);
      NextBlockOf(p, j);
      FeedSplit(k, s, p[..BLOCK * (j - 1)], Block(p, j - 1));
      FeedBlock(k, m, Block(p, j - 1));
    } else {
      assert p[..0] == [];
    }
  }

  function RunLeaves(k: Core, leaf: seq<Hasher>, p: seq<byte>, n: nat): (r: seq<Hasher>)
    requires |leaf| == LEAVES && n <= LEAVES
    ensures |r| == n && forall i :: 0 <= i < n ==> r[i] == LeafRun(k, leaf[i], p, i)
  {
    if n == 0 then [] else RunLeaves(k, leaf, p, n - 1) + [LeafRun(k, leaf[n - 1], p, n - 1)]
  }

  // Dealing whole strides block by block is every leaf absorbing its own blocks.
  lemma {:induction false} StridesDealt(k: Core, s: Tree, p: seq<byte>)
    requires s.cur == 0 && s.buf == [] && WholeStrides(p)
    ensures Feed(k, s, p) == Tree(RunLeaves(k, s.leaf, p, LEAVES), [], 0)
    decreases |p|
  {
    if p == [] {
      assert RunLeaves(k, s.leaf, p, LEAVES) == s.leaf;
    } else {
      assert p == p[..STRIDE] + p[STRIDE..];
      FeedSplit(k, s, p[..STRIDE], p[STRIDE..]);
      StrideDealt(k, s, p, LEAVES);
      var m := Tree(DealtLeaves(k, s.leaf, p, LEAVES), [], 0);
      StridesDealt(k, m, p[STRIDE..]);
      assert RunLeaves(k, s.leaf, p, LEAVES) == RunLeaves(k, m.leaf, p[STRIDE..], LEAVES);
    }
  }

  // The leaf once its held-back block provably is not the last.
  function Caught(k: Core, s: Hasher): Hasher {
    if s.buf == [] then s else Compressed(k, s, s.buf).(buf := [])
  }

  lemma {:induction false} FrontOf(p: seq<byte>, i: nat)
    requires i < LEAVES && |p| >= STRIDE + STRIDE
    ensures var front, rest := p[..|p| - STRIDE], p[STRIDE..];
      && Block(front, i) == Block(p, i) && front[STRIDE..] == rest[..|rest| - STRIDE]
      && p[|p| - STRIDE..] == rest[|rest| - STRIDE..]
  {
  }

  // What a leaf ends up as, from its own kernel lane: all its blocks but the last compressed, the last
  // one held.
  function LaneResult(k: Core, c: Hasher, front: seq<byte>, last: seq<byte>, i: nat): Hasher
    requires i < LEAVES && |last| >= STRIDE
  {
    Hasher(LaneRun(k, c.h, front, i, c.t), c.t + Ticks(front), Block(last, i), c.lastNode)
  }

  lemma {:induction false} LeafRunIsLane(k: Core, s: Hasher, p: seq<byte>, i: nat)
    requires i < LEAVES && WholeStrides(p) && p != [] && (s.buf == [] || |s.buf| == BLOCK)
    ensures LeafRun(k, s, p, i) == LaneResult(k, Caught(k, s), p[..|p| - STRIDE], p[|p| - STRIDE..], i)
    decreases |p|
  {
    if |p| < STRIDE + STRIDE {
      LastStride(k, s, p, i);
    } else {
      var s1 := Absorb(k, s, Block(p, i));
      AbsorbCaught(k, s, Block(p, i));
      FrontOf(p, i);
      LeafRunIsLane(k, s1, p[STRIDE..], i);
      LaneStep(k, Caught(k, s), s1, p, i);
    }
  }

  lemma {:induction false} AbsorbCaught(k: Core, s: Hasher, b: seq<byte>)
    requires |b| == BLOCK && (s.buf == [] || |s.buf| == BLOCK)
    ensures Absorb(k, s, b) == Caught(k, s).(buf := b)
  {
    AbsorbBlock(k, s, b);
  }

  lemma {:induction false} OneStride(p: seq<byte>)
    requires WholeStrides(p) && p != [] && |p| < STRIDE + STRIDE
    ensures |p| == STRIDE && p[STRIDE..] == [] && p[..|p| - STRIDE] == [] && p[|p| - STRIDE..] == p
  {
  }

  // The final stride is held back whole.
  lemma {:induction false} LastStride(k: Core, s: Hasher, p: seq<byte>, i: nat)
    requires i < LEAVES && WholeStrides(p) && p != [] && |p| < STRIDE + STRIDE && (s.buf == [] || |s.buf| == BLOCK)
    ensures LeafRun(k, s, p, i) == LaneResult(k, Caught(k, s), p[..|p| - STRIDE], p[|p| - STRIDE..], i)
  {
    var c, b := Caught(k, s), Block(p, i);
    OneStride(p);
    AbsorbCaught(k, s, b);
    assert LeafRun(k, s, p, i) == LeafRun(k, c.(buf := b), [], i) == c.(buf := b);
    assert LaneRun(k, c.h, [], i, c.t) == c.h && Ticks([]) == 0;
  }

  lemma {:induction false} LaneStep(k: Core, c: Hasher, s1: Hasher, p: seq<byte>, i: nat)
    requires i < LEAVES && |p| >= STRIDE + STRIDE && s1 == c.(buf := Block(p, i))
    ensures var rest := p[STRIDE..];
      LaneResult(k, Caught(k, s1), rest[..|rest| - STRIDE], rest[|rest| - STRIDE..], i)
      == LaneResult(k, c, p[..|p| - STRIDE], p[|p| - STRIDE..], i)
  {
    FrontOf(p, i);
  }
}
