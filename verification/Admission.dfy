// Which file blocks are read out, and why any other is not: one condition for each answer
// (reader.go:655-827, 1124-1150).

module Admission {
  import opened Basics
  import opened SolidRun
  import E = Entry

  // The first block of a member whose header could be read in full.
  predicate Begins(b: FileBlock) {
    b.parse == Parsed && b.firstBlock
  }

  predicate Supported(b: FileBlock, solid: bool) {
    b.unpackVersion == 0 && (b.solid ==> solid)
  }

  // Not more than a megabyte, or not more than 65536 times what it is packed in.
  predicate Modest(b: FileBlock) {
    b.header.unpackedSize <= 1048576 || (b.packed > 0 && b.header.unpackedSize <= 65536 * b.packed)
  }

  // The window need not grow.
  predicate Roomy(b: FileBlock, size: nat, cap: int) {
    b.dictSize <= 0 || b.stored || b.dictSize <= size || cap <= size
  }

  // The guard against overflow changes nothing: a size has at most 63 bits.
  lemma {:induction false} ExpandsExactly(b: FileBlock)
    requires b.header.unpackedSize <= MAX_INT64
    ensures b.header.unpackedSize > BOMB_FLOOR && Expands(b) <==> !Modest(b)
  {
    if b.packed > MAX_INT64 / BOMB_RATIO {
      assert BOMB_RATIO * b.packed > MAX_INT64;
    }
  }

  // A member is read out if and only if its header is whole, its version known, its size modest, its window
  // there or to be had, its chain to be built, and, if it is solid, the archive is and its history is sound.
  lemma {:induction false} AdmittedWhen(b: FileBlock, solid: bool, incomplete: bool, size: nat, cap: int, reserved: bool, chainOk: bool)
    requires b.header.unpackedSize <= MAX_INT64
    ensures Decided(b, solid, incomplete, size, cap, reserved, chainOk) == Admitted <==>
      && Begins(b) && Supported(b, solid) && !b.header.link && Modest(b) && !(b.solid && incomplete)
      && (Roomy(b, size, cap) || (!b.solid && reserved)) && chainOk
  {
    ExpandsExactly(b);
  }

  // And every other answer has its own one condition.
  lemma {:induction false} RefusedWhen(b: FileBlock, solid: bool, incomplete: bool, size: nat, cap: int, reserved: bool, chainOk: bool)
    requires b.header.unpackedSize <= MAX_INT64
    ensures var r := Decided(b, solid, incomplete, size, cap, reserved, chainOk);
      var asked := Begins(b) && Supported(b, solid) && !b.header.link && Modest(b);
      && (r == Skipped <==> b.parse == Nameless || (b.parse == Parsed && !b.firstBlock))
      && (r == Refused(BadHeader) <==> b.parse == Named)
      && (r == Refused(Unsupported) <==> Begins(b) && b.unpackVersion != 0)
      && (r == Refused(SolidMismatch) <==> Begins(b) && b.unpackVersion == 0 && b.solid && !solid)
      && (r == Linked <==> Begins(b) && Supported(b, solid) && b.header.link)
      && (r == Refused(Bomb) <==> Begins(b) && Supported(b, solid) && !b.header.link && !Modest(b))
      && (r == Refused(Broken) <==> asked && b.solid && incomplete)
      && (r == Refused(DictMismatch) <==> asked && b.solid && !incomplete && !Roomy(b, size, cap))
      && (r == Refused(TooLarge) <==> asked && !b.solid && !Roomy(b, size, cap) && !reserved)
      && (r == Refused(NoChain) <==> asked && !(b.solid && incomplete) && (Roomy(b, size, cap) || (!b.solid && reserved)) && !chainOk)
  {
    ExpandsExactly(b);
  }

  // A member leaves the history sound if and only if every byte it declared was delivered and its verdict is
  // success, which vouches for them, or that nothing could be compared.
  lemma {:induction false} SoundWhen(e: E.Entry)
    requires e.Valid()
    ensures Sound(e) <==> |e.delivered| >= e.size && (e.done == Some(E.End) || e.done == Some(E.ChecksumUnsupported))
    ensures Sound(e) && e.done == Some(E.End) ==> E.Vouched(e.g, e.cur, e.size, e.delivered)
  {
  }
}
