// The blake2sp hasher itself: buffered writes, the strided path over transposed lanes, and the digest.

module Blake2spHasher {
  import opened Basics
  import opened Blake2s
  import opened Blake2sp
  import BlakeTree
  import opened Strides

  lemma {:induction false} StrideCount(p: seq<byte>, q: nat)
    requires |p| == STRIDE * q
    ensures WholeStrides(p) && Ticks(p) == BLOCK * q
    decreases q
  {
    if q > 0 {
      StrideCount(p[STRIDE..], q - 1);
    }
  }

  lemma {:induction false} WholeFront(p: seq<byte>, q: nat)
    requires |p| >= STRIDE && q == |p| / STRIDE
    ensures var m := q * STRIDE;
      && STRIDE <= m <= |p| < m + STRIDE && p == p[..m] + p[m..]
      && WholeStrides(p[..m]) && WholeStrides(p[..m - STRIDE])
      && p[..m][..m - STRIDE] == p[..m - STRIDE] && p[..m][m - STRIDE..] == p[m - STRIDE..m]
  {
    var m := q * STRIDE;
    StrideCount(p[..m], q);
    StrideCount(p[..m - STRIDE], q - 1);
  }

  // The leaf states transposed: word j of leaf i is lanes[j, i].
  function Lane(lanes: array2<nat>, i: nat): (h: Words)
    requires lanes.Length0 == lanes.Length1 == LEAVES && i < LEAVES
    reads lanes
  {
    var h: seq<nat> := seq(8, j requires 0 <= j < 8 reads lanes => lanes[j, i]);
    h
  }

  method Scatter(lanes: array2<nat>, i: nat, h: Words)
    requires lanes.Length0 == lanes.Length1 == LEAVES && i < LEAVES
    modifies lanes
    ensures Lane(lanes, i) == h
    ensures forall x :: 0 <= x < LEAVES && x != i ==> Lane(lanes, x) == old(Lane(lanes, x))
  {
    forall j | 0 <= j < LEAVES {
      lanes[j, i] := h[j];
    }
    assert Lane(lanes, i) == h;
    forall x | 0 <= x < LEAVES && x != i ensures Lane(lanes, x) == old(Lane(lanes, x)) {
    }
  }

  // blake2sp8Generic: every stride's blocks, lane by lane.
  method Kernel(k: Core, lanes: array2<nat>, p0: seq<byte>, t0: nat)
    requires lanes.Length0 == lanes.Length1 == LEAVES
    modifies lanes
    ensures forall i :: 0 <= i < LEAVES ==> Lane(lanes, i) == LaneRun(k, old(Lane(lanes, i)), p0, i, t0)
  {
    var p, t := p0, t0;
    while |p| >= STRIDE
      invariant t >= 0
      invariant forall i :: 0 <= i < LEAVES ==> LaneRun(k, old(Lane(lanes, i)), p0, i, t0) == LaneRun(k, Lane(lanes, i), p, i, t)
      decreases |p|
    {
      OneStride(k, lanes, p, t);
      p, t := p[STRIDE..], t + BLOCK;
    }
  }

  method OneStride(k: Core, lanes: array2<nat>, p: seq<byte>, t: nat)
    requires lanes.Length0 == lanes.Length1 == LEAVES && |p| >= STRIDE
    modifies lanes
    ensures forall i :: 0 <= i < LEAVES ==> Lane(lanes, i) == k.Compress(old(Lane(lanes, i)), Block(p, i), t + BLOCK)
  {
    for lane := 0 to LEAVES
      invariant forall i :: 0 <= i < LEAVES ==>
        Lane(lanes, i) == if i < lane then k.Compress(old(Lane(lanes, i)), Block(p, i), t + BLOCK) else old(Lane(lanes, i))
    {
      Scatter(lanes, lane, k.Compress(Lane(lanes, lane), Block(p, lane), t + BLOCK));
    }
  }

  // blake2sp8Chunked: the same, in calls of at most MAX_STRIDES strides.
  method Chunked(k: Core, lanes: array2<nat>, p0: seq<byte>, t0: nat) returns (t: nat)
    requires lanes.Length0 == lanes.Length1 == LEAVES && WholeStrides(p0)
    modifies lanes
    ensures forall i :: 0 <= i < LEAVES ==> Lane(lanes, i) == LaneRun(k, old(Lane(lanes, i)), p0, i, t0)
    ensures t == t0 + Ticks(p0)
  {
    var p := p0;
    t := t0;
    while p != []
      invariant WholeStrides(p) && t + Ticks(p) == t0 + Ticks(p0)
      invariant forall i :: 0 <= i < LEAVES ==> LaneRun(k, old(Lane(lanes, i)), p0, i, t0) == LaneRun(k, Lane(lanes, i), p, i, t)
      decreases |p|
    {
      var n := Min(|p|, MAX_STRIDES * STRIDE);
      CutStrides(p, n);
      forall i | 0 <= i < LEAVES
        ensures LaneRun(k, Lane(lanes, i), p, i, t) == LaneRun(k, LaneRun(k, Lane(lanes, i), p[..n], i, t), p[n..], i, t + Ticks(p[..n]))
      {
        LaneRunSplit(k, Lane(lanes, i), p[..n], p[n..], i, t);
      }
      Kernel(k, lanes, p[..n], t);
      t := t + n / STRIDE * BLOCK;
      p := p[n..];
    }
  }

  lemma {:induction false} LengthOfStrides(p: seq<byte>) returns (q: nat)
    requires WholeStrides(p)
    ensures |p| == STRIDE * q
    decreases |p|
  {
    q := 0;
    if p != [] {
      q := LengthOfStrides(p[STRIDE..]);
      q := q + 1;
    }
  }

  lemma {:induction false} CutStrides(p: seq<byte>, n: nat)
    requires WholeStrides(p) && p != [] && n == Min(|p|, MAX_STRIDES * STRIDE)
    ensures n > 0 && p == p[..n] + p[n..] && WholeStrides(p[..n]) && WholeStrides(p[n..])
    ensures Ticks(p[..n]) == n / STRIDE * BLOCK && Ticks(p) == Ticks(p[..n]) + Ticks(p[n..])
  {
    var q := LengthOfStrides(p);
    CutAt(p, if |p| <= MAX_STRIDES * STRIDE then q else MAX_STRIDES, q);
  }

  lemma {:induction false} CutAt(p: seq<byte>, m: nat, q: nat)
    requires |p| == STRIDE * q && m <= q
    ensures var n := STRIDE * m;
      && p == p[..n] + p[n..] && WholeStrides(p[..n]) && WholeStrides(p[n..])
      && Ticks(p[..n]) == n / STRIDE * BLOCK && Ticks(p) == Ticks(p[..n]) + Ticks(p[n..])
  {
    var n := STRIDE * m;
    assert n / STRIDE == m;
    StrideCount(p[..n], m);
    StrideCount(p[n..], q - m);
    StrideCount(p, q);
    assert p == p[..n] + p[n..];
  }

  class Hasher8 {
    const k: Core
    const leaf: array<Hasher>
    const buf: array<byte>
    var n: nat
    var cur: nat
    ghost var rounds: nat

    ghost predicate Valid()
      reads this, leaf, buf
    {
      leaf.Length == LEAVES && buf.Length == BLOCK && n < BLOCK && cur < LEAVES && InStep(T(), rounds)
    }

    ghost function T(): Tree
      requires leaf.Length == LEAVES && n <= buf.Length
      reads this, leaf, buf
    {
      Tree(leaf[..], buf[..n], cur)
    }

    constructor (k: Core)
      ensures Valid() && fresh(leaf) && fresh(buf) && this.k == k && T() == InitTree(k)
    {
      this.k := k;
      leaf := new Hasher[LEAVES](i => if i >= 0 then Init(k, i, 0, i == LEAVES - 1) else Init(k, 0, 0, false));
      buf := new byte[BLOCK](_ => 0);
      n, cur, rounds := 0, 0, 0;
      new;
      assert leaf[..] == InitLeaves(k, LEAVES);
    }

    // deal: the block goes to leaf cur.
    method DealBlock(block: seq<byte>)
      requires Valid() && |block| == BLOCK
      modifies leaf, `cur, `rounds
      ensures Valid() && T() == Deal(k, old(T()), block)
    {
      ghost var s := T();
      DealInStep(k, s, block, rounds);
      rounds := Rounds(cur, rounds);
      var h := Blake2s.Write(k, leaf[cur], block);
      leaf[cur] := h;
      cur := (cur + 1) % LEAVES;
      assert T() == Deal(k, s, block);
    }

    // Write: however the input is cut into calls, it is fed as if byte by byte.
    method Write(p0: seq<byte>)
      requires Valid()
      modifies this, leaf, buf
      ensures Valid() && T() == Feed(k, old(T()), p0)
    {
      var p := p0;
      ghost var s0 := T();
      if n > 0 {
        var c := Min(BLOCK - n, |p|);
        assert p == p[..c] + p[c..];
        FeedSplit(k, T(), p[..c], p[c..]);
        var full := TopUp(p[..c]);
        p := p[c..];
        if !full {
          assert p == [];
          return;
        }
      }
      WriteRest(p);
    }

    // More bytes for the block in the buffer; a block they complete is dealt.
    method TopUp(bytes: seq<byte>) returns (full: bool)
      requires Valid() && 0 < n && n + |bytes| <= BLOCK
      modifies this, leaf, buf
      ensures Valid() && T() == Feed(k, old(T()), bytes) && full == (old(n) + |bytes| == BLOCK) && (full ==> n == 0)
    {
      ghost var s := T();
      forall i | 0 <= i < |bytes| {
        buf[n + i] := bytes[i];
      }
      assert buf[..n + |bytes|] == s.buf + bytes;
      full := n + |bytes| == BLOCK;
      if !full {
        n := n + |bytes|;
        FeedFits(k, s, bytes);
        return;
      }
      FeedBlock(k, s, bytes);
      var block := buf[..];
      assert block == s.buf + bytes;
      n := 0;
      assert T() == s.(buf := []);
      DealBlock(block);
    }

    // Whole strides while cur is 0, whole blocks otherwise, and what is left into the buffer.
    method WriteRest(p0: seq<byte>)
      requires Valid() && n == 0
      modifies this, leaf, buf
      ensures Valid() && T() == Feed(k, old(T()), p0)
    {
      var p := p0;
      ghost var whole := Feed(k, T(), p0);
      while |p| >= BLOCK
        invariant Valid() && n == 0 && whole == Feed(k, T(), p)
        decreases |p|
      {
        if cur == 0 && |p| >= STRIDE {
          p := DealStrides(p);
        } else {
          assert p == p[..BLOCK] + p[BLOCK..];
          FeedSplit(k, T(), p[..BLOCK], p[BLOCK..]);
          FeedBlock(k, T(), p[..BLOCK]);
          assert T().buf + p[..BLOCK] == p[..BLOCK] && T() == T().(buf := []);
          DealBlock(p[..BLOCK]);
          p := p[BLOCK..];
        }
      }
      FeedFits(k, T(), p);
      forall i | 0 <= i < |p| {
        buf[i] := p[i];
      }
      n := |p|;
      assert buf[..n] == p;
    }

    // dealStrides: every whole stride of p at once.
    method DealStrides(p: seq<byte>) returns (rest: seq<byte>)
      requires Valid() && n == 0 && cur == 0 && |p| >= STRIDE
      modifies this, leaf
      ensures Valid() && n == 0 && |rest| < STRIDE && Feed(k, old(T()), p) == Feed(k, T(), rest)
    {
      var q := |p| / STRIDE;
      var m := q * STRIDE;
      WholeFront(p, q);
      FeedSplit(k, T(), p[..m], p[m..]);
      DealWhole(p[..m - STRIDE], p[m - STRIDE..m], p[..m]);
      rest := p[m..];
    }

    method DealWhole(front: seq<byte>, last: seq<byte>, ghost strides: seq<byte>)
      requires Valid() && n == 0 && cur == 0 && WholeStrides(front) && |last| == STRIDE
      requires WholeStrides(strides) && strides != []
      requires strides[..|strides| - STRIDE] == front && strides[|strides| - STRIDE..] == last
      modifies this`rounds, leaf
      ensures Valid() && n == 0 && T() == Feed(k, old(T()), strides)
    {
      ghost var s := T();
      StridesDealt(k, s, strides);
      ghost var rounds' := FeedInStep(k, s, strides, rounds);
      RunLanes(front, last, strides);
      rounds := rounds';
    }

    // Every leaf takes its lane's state and counter, and holds back its block of the final stride.
    method PutLanes(lanes: array2<nat>, t: nat, last: seq<byte>)
      requires leaf.Length == LEAVES && lanes.Length0 == lanes.Length1 == LEAVES && |last| == STRIDE
      modifies leaf
      ensures forall x :: 0 <= x < LEAVES ==>
        leaf[x] == Hasher(Lane(lanes, x), t, Block(last, x), old(leaf[x]).lastNode)
    {
      for i := 0 to LEAVES
        invariant forall x :: 0 <= x < LEAVES ==>
          leaf[x] == if x < i then Hasher(Lane(lanes, x), t, Block(last, x), old(leaf[x]).lastNode) else old(leaf[x])
      {
        leaf[i] := Hasher(Lane(lanes, i), t, last[BLOCK * i..BLOCK * i + BLOCK], leaf[i].lastNode);
      }
    }

    // All strides but the last through the kernel, the last one held back.
    method RunLanes(front: seq<byte>, last: seq<byte>, ghost p: seq<byte>)
      requires Valid() && n == 0 && cur == 0 && WholeStrides(front) && |last| == STRIDE
      requires WholeStrides(p) && p != [] && p[..|p| - STRIDE] == front && p[|p| - STRIDE..] == last
      modifies leaf
      ensures n == 0 && cur == 0 && leaf[..] == RunLeaves(k, old(leaf[..]), p, LEAVES)
    {
      ghost var was := leaf[..];
      var lanes := new nat[LEAVES, LEAVES];
      var t := Catch(lanes);
      t := Chunked(k, lanes, front, t);
      PutLanes(lanes, t, last);
      forall i | 0 <= i < LEAVES ensures leaf[i] == LeafRun(k, was[i], p, i) {
        LeafRunIsLane(k, was[i], p, i);
      }
      assert leaf[..] == RunLeaves(k, was, p, LEAVES);
    }

    // The leaf states transposed, and the blocks they hold, now provably not the last, compressed. The
    // leaves being in step, one counter serves all.
    method Catch(lanes: array2<nat>) returns (t: nat)
      requires Valid() && cur == 0 && lanes.Length0 == lanes.Length1 == LEAVES
      modifies lanes
      ensures forall i :: 0 <= i < LEAVES ==> Lane(lanes, i) == Caught(k, leaf[i]).h && t == Caught(k, leaf[i]).t
    {
      t := leaf[0].t;
      for i := 0 to LEAVES
        invariant forall x :: 0 <= x < i ==> Lane(lanes, x) == leaf[x].h
      {
        Scatter(lanes, i, leaf[i].h);
      }
      assert forall i :: 0 <= i < LEAVES ==> Dealt(T().leaf[i], rounds) && T().leaf[i] == leaf[i];
      if |leaf[0].buf| == BLOCK {
        var stage := Stage();
        StrideCount(stage[..], 1);
        forall i | 0 <= i < LEAVES
          ensures LaneRun(k, leaf[i].h, stage[..], i, t) == Caught(k, leaf[i]).h
        {
          assert stage[..][STRIDE..] == [] && Block(stage[..], i) == leaf[i].buf;
        }
        t := Chunked(k, lanes, stage[..], t);
      }
    }

    // The held-back blocks laid out as one stride.
    method Stage() returns (stage: array<byte>)
      requires leaf.Length == LEAVES && forall i :: 0 <= i < LEAVES ==> |leaf[i].buf| == BLOCK
      ensures stage.Length == STRIDE
      ensures forall i :: 0 <= i < LEAVES ==> stage[BLOCK * i..BLOCK * i + BLOCK] == leaf[i].buf
    {
      stage := new byte[STRIDE](_ => 0);
      for i := 0 to LEAVES
        invariant forall x :: 0 <= x < i ==> stage[BLOCK * x..BLOCK * x + BLOCK] == leaf[x].buf
      {
        CopyBlock(stage, i, leaf[i].buf);
      }
    }

    // One block put in its place among eight, the others left alone.
    static method CopyBlock(stage: array<byte>, i: nat, block: seq<byte>)
      requires stage.Length == STRIDE && i < LEAVES && |block| == BLOCK
      modifies stage
      ensures stage[BLOCK * i..BLOCK * i + BLOCK] == block
      ensures forall x :: 0 <= x < LEAVES && x != i ==> stage[BLOCK * x..BLOCK * x + BLOCK] == old(stage[BLOCK * x..BLOCK * x + BLOCK])
    {
      forall j | 0 <= j < BLOCK {
        stage[BLOCK * i + j] := block[j];
      }
    }

    // sum: the last block dealt, however short, and the leaves' digests through the root.
    method Finish() returns (digest: seq<byte>)
      requires Valid()
      modifies this, leaf
      ensures digest == TreeSum(k, old(T()))
    {
      if n > 0 {
        DealLast();
      }
      digest := RootSum();
    }

    method DealLast()
      requires Valid() && n > 0
      modifies `cur, `n, leaf
      ensures n == 0 && leaf[..] == Deal(k, old(T()), buf[..old(n)]).leaf
    {
      var h := Blake2s.Write(k, leaf[cur], buf[..n]);
      leaf[cur] := h;
      cur := (cur + 1) % LEAVES;
      n := 0;
    }

    method RootSum() returns (digest: seq<byte>)
      requires leaf.Length == LEAVES
      ensures digest == Sum(k, Absorb(k, Init(k, 0, 1, true), Digests(k, leaf[..])))
    {
      var root := Init(k, 0, 1, true);
      ghost var root0, leaves := root, leaf[..];
      for i := 0 to LEAVES
        invariant |root.buf| <= BLOCK && root == Absorb(k, root0, Digests(k, leaves[..i]))
      {
        assert leaves[..i + 1][..i] == leaves[..i];
        AbsorbSplit(k, root0, Digests(k, leaves[..i]), Sum(k, leaves[i]));
        root := Blake2s.Write(k, root, Sum(k, leaf[i]));
      }
      assert leaves[..LEAVES] == leaves;
      digest := Sum(k, root);
    }
  }

  // Any sequence of writes, in any sizes, digests as their concatenation dealt one block at a time.
  method HashAll(k: Core, writes: seq<seq<byte>>) returns (digest: seq<byte>)
    ensures digest == BlakeTree.Digest(k, Flatten(writes))
    ensures digest == TreeSum(k, Feed(k, InitTree(k), Flatten(writes)))
  {
    BlakeTree.TreeIsDigest(k, Flatten(writes));
    var h := new Hasher8(k);
    ghost var s0 := h.T();
    for i := 0 to |writes|
      invariant h.Valid() && h.k == k && fresh(h) && fresh(h.leaf) && fresh(h.buf)
      invariant h.T() == Feed(k, s0, Flatten(writes[..i]))
    {
      assert writes[..i + 1][..i] == writes[..i];
      FeedSplit(k, s0, Flatten(writes[..i]), writes[i]);
      h.Write(writes[i]);
    }
    assert writes[..|writes|] == writes;
    digest := h.Finish();
  }

  function Flatten(writes: seq<seq<byte>>): seq<byte> {
    if writes == [] then [] else Flatten(writes[..|writes| - 1]) + writes[|writes| - 1]
  }
}
