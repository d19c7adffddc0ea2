// blake2sp: eight leaf hashers dealt 64-byte blocks in turn, and the strided path that feeds all eight
// at once (blake2sp.go:152-316).

module Blake2sp {
  import opened Basics
  import opened Blake2s

  const LEAVES: nat := 8
  const STRIDE: nat := 512        // blake2spStride
  const MAX_STRIDES: nat := 128   // blake2spMaxCallStrides

  type Leaves = s: seq<Hasher> | |s| == LEAVES witness seq(LEAVES, _ => Hasher([0, 0, 0, 0, 0, 0, 0, 0], 0, [], false))

  // buf is the block not yet handed to leaf cur.
  datatype Tree = Tree(leaf: Leaves, buf: seq<byte>, cur: nat)

  function InitLeaves(k: Core, n: nat): (s: seq<Hasher>)
    ensures |s| == n && forall i :: 0 <= i < n ==> s[i] == Init(k, i, 0, i == LEAVES - 1)
  {
    if n == 0 then [] else InitLeaves(k, n - 1) + [Init(k, n - 1, 0, n == LEAVES)]
  }

  function InitTree(k: Core): Tree {
    Tree(InitLeaves(k, LEAVES), [], 0)
  }

  function Turn(cur: nat): nat {
    if cur + 1 >= LEAVES then 0 else cur + 1
  }

  function Deal(k: Core, s: Tree, block: seq<byte>): (r: Tree)
    requires s.cur < LEAVES
    ensures r.cur < LEAVES && r.buf == s.buf
  {
    s.(leaf := s.leaf[s.cur := Absorb(k, s.leaf[s.cur], block)], cur := Turn(s.cur))
  }

  // The reference: a byte at a time, each completed block dealt to the next leaf.
  function Feed(k: Core, s: Tree, p: seq<byte>): (r: Tree)
    requires s.cur < LEAVES
    ensures r.cur < LEAVES && (|s.buf| < BLOCK ==> |r.buf| < BLOCK)
    decreases |p|
  {
    if p == [] then s
    else
      var buf := s.buf + [p[0]];
      Feed(k, if |buf| == BLOCK then Deal(k, s.(buf := []), buf) else s.(buf := buf), p[1..])
  }

  // The root's input: the leaves' digests in order.
  function Digests(k: Core, leaf: seq<Hasher>): seq<byte> {
    if leaf == [] then [] else Digests(k, leaf[..|leaf| - 1]) + Sum(k, leaf[|leaf| - 1])
  }

  function TreeSum(k: Core, s: Tree): seq<byte>
    requires s.cur < LEAVES
  {
    var s' := if s.buf != [] then Deal(k, s, s.buf) else s;
    Sum(k, Absorb(k, Init(k, 0, 1, true), Digests(k, s'.leaf)))
  }

  lemma {:induction false} FeedSplit(k: Core, s: Tree, a: seq<byte>, b: seq<byte>)
    requires s.cur < LEAVES
    ensures Feed(k, s, a + b) == Feed(k, Feed(k, s, a), b)
    decreases |a|
  {
    if a == [] {
      assert a + b == b;
    } else {
      var buf := s.buf + [a[0]];
      assert (a + b)[1..] == a[1..] + b;
      FeedSplit(k, if |buf| == BLOCK then Deal(k, s.(buf := []), buf) else s.(buf := buf), a[1..], b);
    }
  }

  // Bytes short of a block are buffered.
  lemma {:induction false} FeedFits(k: Core, s: Tree, p: seq<byte>)
    requires s.cur < LEAVES && |s.buf| + |p| < BLOCK
    ensures Feed(k, s, p) == s.(buf := s.buf + p)
    decreases |p|
  {
    if p == [] {
      assert s.buf + p == s.buf;
    } else {
      FeedFits(k, s.(buf := s.buf + [p[0]]), p[1..]);
      assert s.buf + [p[0]] + p[1..] == s.buf + p;
    }
  }

  // Bytes that complete a block deal it.
  lemma {:induction false} FeedBlock(k: Core, s: Tree, p: seq<byte>)
    requires s.cur < LEAVES && |s.buf| + |p| == BLOCK && p != []
    ensures Feed(k, s, p) == Deal(k, s.(buf := []), s.buf + p)
  {
    var front, last := p[..|p| - 1], p[|p| - 1];
    assert p == front + [last];
    FeedSplit(k, s, front, [last]);
    FeedFits(k, s, front);
    assert s.buf + front + [last] == s.buf + p;
    assert [last][1..] == [];
  }

  // ---- All leaves are in step whenever cur is 0.

  // A leaf that has been dealt c whole blocks: it has compressed all but the last and holds that.
  ghost predicate Dealt(leaf: Hasher, c: nat) {
    if c == 0 then leaf.t == 0 && leaf.buf == [] else leaf.t == BLOCK * (c - 1) && |leaf.buf| == BLOCK
  }

  ghost predicate InStep(s: Tree, rounds: nat) {
    s.cur < LEAVES && |s.buf| < BLOCK && forall i :: 0 <= i < LEAVES ==> Dealt(s.leaf[i], if i < s.cur then rounds + 1 else rounds)
  }

  // Rounds completed after one more block.
  function Rounds(cur: nat, rounds: nat): nat {
    if cur + 1 >= LEAVES then rounds + 1 else rounds
  }

  lemma {:induction false} DealInStep(k: Core, s: Tree, block: seq<byte>, rounds: nat)
    requires InStep(s, rounds) && |block| == BLOCK
    ensures InStep(Deal(k, s, block), Rounds(s.cur, rounds))
  {
    AbsorbBlock(k, s.leaf[s.cur], block);
  }

  lemma {:induction false} FeedInStep(k: Core, s: Tree, p: seq<byte>, rounds: nat) returns (rounds': nat)
    requires InStep(s, rounds)
    ensures InStep(Feed(k, s, p), rounds')
    decreases |p|
  {
    if p == [] {
      rounds' := rounds;
    } else {
      var buf := s.buf + [p[0]];
      if |buf| == BLOCK {
        DealInStep(k, s.(buf := []), buf, rounds);
        rounds' := FeedInStep(k, Deal(k, s.(buf := []), buf), p[1..], Rounds(s.cur, rounds));
      } else {
        rounds' := FeedInStep(k, s.(buf := buf), p[1..], rounds);
      }
    }
  }

  // Whatever has been written since init, the leaves are in step when cur is 0: equal counters, and
  // either all hold a whole block or none holds anything.
  lemma {:induction false} AlwaysInStep(k: Core, p: seq<byte>)
    ensures var s := Feed(k, InitTree(k), p);
      s.cur == 0 ==> forall i :: 0 <= i < LEAVES ==> s.leaf[i].t == s.leaf[0].t && |s.leaf[i].buf| == |s.leaf[0].buf| && |s.leaf[i].buf| in {0, BLOCK}
  {
    var rounds := FeedInStep(k, InitTree(k), p, 0);
    var s := Feed(k, InitTree(k), p);
    assert InStep(s, rounds);
  }
}
