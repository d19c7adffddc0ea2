// readBlockHead: flags, checksum, payload size (decoder50_parallel.go:22-55).

module BlockHeader {
  import opened Basics
  import opened Bits
  import opened DecodeTypes
  import Serial

  // a ^ b on the low n bits.
  function Xor(a: nat, b: nat, n: nat): (x: nat)
    decreases a + b, n
  {
    if n == 0 then 0 else 2 * Xor(a / 2, b / 2, n - 1) + (if a % 2 == b % 2 then 0 else 1)
  }

  function XorByte(a: byte, b: byte): (x: byte) {
    XorBound(a, b, 8);
    Xor(a, b, 8)
  }

  lemma {:induction false} XorBound(a: nat, b: nat, n: nat)
    ensures n == 8 ==> Xor(a, b, n) < 0x100
    ensures n <= 8 ==> Xor(a, b, n) < [1, 2, 4, 8, 16, 32, 64, 128, 256][n]
  {
    if n > 0 {
      XorBound(a / 2, b / 2, n - 1);
    }
  }

  // The size's bytes, little-endian, and their exclusive or on top of sum.
  function Size(s: seq<byte>): nat {
    if s == [] then 0 else Size(s[..|s| - 1]) + Shl(s[|s| - 1], 8 * (|s| - 1))
  }

  function Checksum(sum: byte, s: seq<byte>): byte
    decreases |s|
  {
    if s == [] then sum else XorByte(Checksum(sum, s[..|s| - 1]), s[|s| - 1])
  }

  // What the flags byte says: the size's own length, the bits used of the last byte, the two flags.
  datatype Kind = Kind(count: nat, bits: nat, newTables: bool, lastBlock: bool)

  function KindOf(flags: byte): Kind {
    Kind(flags / 8 % 4 + 1, flags % 8 + 1, flags >= 0x80, flags / 0x40 % 2 == 1)
  }

  function ReadHead(src: seq<byte>): HeadRead {
    if |src| < 2 then HeadErr(Serial.ShortRead(src), [])
    else ReadSized(KindOf(src[0]), XorByte(0x5a, src[0]), src[1], src[2..])
  }

  function ReadSized(k: Kind, sum: byte, want: byte, rest: seq<byte>): HeadRead {
    if k.count == 4 then HeadErr(CorruptDecodeHeader, rest)
    else if |rest| < k.count then HeadErr(Serial.ShortRead(rest), [])
    else if Checksum(sum, rest[..k.count]) != want then HeadErr(CorruptDecodeHeader, rest[k.count..])
    else Head(HeadOf(k, Size(rest[..k.count])), rest[k.count..])
  }

  function HeadOf(k: Kind, size: nat): BlockHead {
    BlockHead(size, k.bits + (size - 1) * 8, k.newTables, k.lastBlock)
  }

  // What an encoder writes.
  function Flags(k: Kind): (flags: byte)
    requires 1 <= k.count <= 4 && 1 <= k.bits <= 8
    ensures KindOf(flags) == k
  {
    var l, n := if k.lastBlock then 1 else 0, if k.newTables then 1 else 0;
    var f := k.bits - 1 + 8 * (k.count - 1) + 0x40 * l + 0x80 * n;
    assert f / 8 == k.count - 1 + 8 * l + 16 * n && f / 0x40 == l + 2 * n;
    f
  }

  function WriteHead(k: Kind, size: seq<byte>): seq<byte>
    requires |size| == k.count < 4 && 1 <= k.count && 1 <= k.bits <= 8
  {
    [Flags(k), Checksum(XorByte(0x5a, Flags(k)), size)] + size
  }

  lemma {:induction false} Layout(flags: byte, sum: byte, size: seq<byte>, rest: seq<byte>)
    ensures var s := [flags, sum] + size + rest;
      |s| >= 2 && s[0] == flags && s[1] == sum && s[2..][..|size|] == size && s[2..][|size|..] == rest
  {
    var s := [flags, sum] + size + rest;
    assert s[2..] == size + rest;
  }

  // A header reads back as it was written, and takes exactly its own bytes.
  lemma {:induction false} HeadRoundTrip(k: Kind, size: seq<byte>, rest: seq<byte>)
    requires |size| == k.count < 4 && 1 <= k.count && 1 <= k.bits <= 8
    ensures ReadHead(WriteHead(k, size) + rest) ==
      Head(BlockHead(LittleEndian(size), 8 * LittleEndian(size) - 8 + k.bits, k.newTables, k.lastBlock), rest)
  {
    var flags := Flags(k);
    Layout(flags, Checksum(XorByte(0x5a, flags), size), size, rest);
    SizeIs(size);
  }

  // ---- The header bit by bit, for every source there is.

  function Bit(x: nat, i: nat): nat {
    Shr(x, i) % 2
  }

  lemma {:induction false} XorBit(a: nat, b: nat, n: nat, i: nat)
    requires i < n
    ensures Bit(Xor(a, b, n), i) == if Bit(a, i) == Bit(b, i) then 0 else 1
  {
    var x := Xor(a, b, n);
    if i > 0 {
      assert x / 2 == Xor(a / 2, b / 2, n - 1);
      XorBit(a / 2, b / 2, n - 1, i - 1);
    }
  }

  // An exclusive or is one where its operands differ.
  lemma {:induction false} XorByteBits(a: byte, b: byte, i: nat)
    requires i < 8
    ensures Bit(XorByte(a, b), i) == if Bit(a, i) == Bit(b, i) then 0 else 1
  {
    XorBit(a, b, 8, i);
  }

  ghost predicate SameBits(a: nat, b: nat, n: nat) {
    forall i :: 0 <= i < n ==> Bit(a, i) == Bit(b, i)
  }

  lemma {:induction false} BitsSame(a: nat, b: nat, n: nat)
    requires a < Shl(1, n) && b < Shl(1, n)
    ensures a == b <==> SameBits(a, b, n)
  {
    if n > 0 && SameBits(a, b, n) {
      assert Bit(a, 0) == Bit(b, 0);
      forall i | 0 <= i < n - 1 ensures Bit(a / 2, i) == Bit(b / 2, i) {
        assert Bit(a, i + 1) == Bit(b, i + 1);
      }
      BitsSame(a / 2, b / 2, n - 1);
    }
  }

  // How many of the bytes have bit i.
  function Ones(s: seq<byte>, i: nat): nat {
    if s == [] then 0 else Ones(s[..|s| - 1], i) + Bit(s[|s| - 1], i)
  }

  lemma {:induction false} ChecksumBit(sum: byte, s: seq<byte>, i: nat)
    requires i < 8
    ensures Bit(Checksum(sum, s), i) == (Bit(sum, i) + Ones(s, i)) % 2
    decreases |s|
  {
    if s != [] {
      ChecksumBit(sum, s[..|s| - 1], i);
      XorByteBits(Checksum(sum, s[..|s| - 1]), s[|s| - 1], i);
    }
  }

  // Flags, checksum and size bytes together have every bit of 0x5a an odd number of times and no other.
  ghost predicate Balanced(s: seq<byte>) {
    forall i :: 0 <= i < 8 ==> Ones(s, i) % 2 == Bit(0x5a, i)
  }

  lemma {:induction false} OnesFront(flags: byte, sum: byte, s: seq<byte>, i: nat)
    ensures Ones([flags, sum] + s, i) == Bit(flags, i) + Bit(sum, i) + Ones(s, i)
    decreases |s|
  {
    var t := [flags, sum] + s;
    if s == [] {
      assert t == [flags, sum] && t[..1] == [flags] && [flags][..0] == [];
      assert Ones([flags], i) == Bit(flags, i);
    } else {
      assert t[..|t| - 1] == [flags, sum] + s[..|s| - 1];
      OnesFront(flags, sum, s[..|s| - 1], i);
    }
  }

  lemma {:induction false} ChecksumBalances(flags: byte, sum: byte, s: seq<byte>)
    ensures Checksum(XorByte(0x5a, flags), s) == sum <==> Balanced([flags, sum] + s)
  {
    var x := Checksum(XorByte(0x5a, flags), s);
    ShlBy8(1, 0);
    BitsSame(x, sum, 8);
    forall i | 0 <= i < 8
      ensures Bit(x, i) == Bit(sum, i) <==> Ones([flags, sum] + s, i) % 2 == Bit(0x5a, i)
    {
      BalancedAt(flags, sum, s, i);
    }
  }

  lemma {:induction false} BalancedAt(flags: byte, sum: byte, s: seq<byte>, i: nat)
    requires i < 8
    ensures Bit(Checksum(XorByte(0x5a, flags), s), i) == Bit(sum, i) <==> Ones([flags, sum] + s, i) % 2 == Bit(0x5a, i)
  {
    ChecksumBit(XorByte(0x5a, flags), s, i);
    XorByteBits(0x5a, flags, i);
    OnesFront(flags, sum, s, i);
    Parity(Bit(0x5a, i), Bit(flags, i), Bit(sum, i), Ones(s, i));
  }

  lemma {:induction false} Parity(k: nat, f: nat, m: nat, n: nat)
    requires k < 2 && f < 2 && m < 2
    ensures ((if k == f then 0 else 1) + n) % 2 == m <==> (f + m + n) % 2 == k
  {
  }

  // The three low bits of the flags count the bits used of the last byte, less one; the next two the size
  // bytes, less one; then the last-block flag and the new-tables flag.
  function SizeBytes(flags: byte): nat {
    1 + Bit(flags, 3) + 2 * Bit(flags, 4)
  }

  function LittleEndian(s: seq<byte>): nat {
    if s == [] then 0 else s[0] + 0x100 * LittleEndian(s[1..])
  }

  // What every source's header comes to.
  lemma {:induction false} HeadOfSource(src: seq<byte>)
    ensures var r := ReadHead(src);
      if |src| < 2 then r == HeadErr(if src == [] then EOF else UnexpectedEOF, [])
      else
        var n := SizeBytes(src[0]);
        if n == 4 then r == HeadErr(CorruptDecodeHeader, src[2..])
        else if |src| < 2 + n then r == HeadErr(if |src| == 2 then EOF else UnexpectedEOF, [])
        else if !Balanced(src[..2 + n]) then r == HeadErr(CorruptDecodeHeader, src[2 + n..])
        else r.Head? && r.rest == src[2 + n..] && HeadSays(r.h, src[0], src[2..2 + n])
  {
    if |src| >= 2 {
      var n := SizeBytes(src[0]);
      FlagBits(src[0]);
      if n < 4 && |src| >= 2 + n {
        assert src[2..][..n] == src[2..2 + n] && src[2..][n..] == src[2 + n..];
        assert src[..2 + n] == [src[0], src[1]] + src[2..2 + n];
        ChecksumBalances(src[0], src[1], src[2..2 + n]);
        SizeIs(src[2..2 + n]);
      }
    }
  }

  // The payload is as long as the size bytes say, least significant first; of its last byte so many bits
  // are used as the flags say.
  ghost predicate HeadSays(h: BlockHead, flags: byte, size: seq<byte>) {
    && h.blockBytes == LittleEndian(size)
    && h.blockBits == 8 * h.blockBytes - 8 + (1 + Bit(flags, 0) + 2 * Bit(flags, 1) + 4 * Bit(flags, 2))
    && (h.lastBlock <==> Bit(flags, 6) == 1) && (h.newTables <==> Bit(flags, 7) == 1)
  }

  lemma {:induction false} FlagBits(flags: byte)
    ensures flags / 8 % 4 + 1 == SizeBytes(flags) && flags % 8 == Bit(flags, 0) + 2 * Bit(flags, 1) + 4 * Bit(flags, 2)
    ensures (flags >= 0x80 <==> Bit(flags, 7) == 1) && flags / 0x40 % 2 == Bit(flags, 6)
  {
    assert Shr(flags, 0) == flags;
    forall i | 0 <= i < 7 ensures Shr(flags, i + 1) == Shr(flags, i) / 2 {
      ShrStep(flags, i);
    }
    assert Shr(flags, 0 + 1) == flags / 2;
    assert Shr(flags, 1 + 1) == flags / 4;
    assert Shr(flags, 2 + 1) == flags / 8;
    assert Shr(flags, 3 + 1) == flags / 16;
    assert Shr(flags, 4 + 1) == flags / 32;
    assert Shr(flags, 5 + 1) == flags / 64;
    assert Shr(flags, 6 + 1) == flags / 128;
  }

  lemma {:induction false} LastOf(a: seq<byte>, b: byte)
    ensures LittleEndian(a + [b]) == LittleEndian(a) + Shl(b, 8 * |a|)
    decreases |a|
  {
    if a == [] {
      assert a + [b] == [b] && [b][1..] == [];
    } else {
      assert (a + [b])[1..] == a[1..] + [b];
      LastOf(a[1..], b);
      ShlBy8(b, 8 * (|a| - 1));
    }
  }

  lemma {:induction false} SizeIs(s: seq<byte>)
    ensures Size(s) == LittleEndian(s)
  {
    if s != [] {
      var front := s[..|s| - 1];
      SizeIs(front);
      LastOf(front, s[|s| - 1]);
      assert s == front + [s[|s| - 1]];
    }
  }

  // readBlockHead over a finite source.
  method ReadBlockHead(src: seq<byte>) returns (h: BlockHead, rest: seq<byte>, err: Option<Error>)
    ensures ReadHead(src) == if err.None? then Head(h, rest) else HeadErr(err.value, rest)
  {
    h, err := BlockHead(0, 0, false, false), None;
    if |src| < 2 {
      return h, [], Some(Serial.ShortRead(src));
    }
    var flags, hsum := src[0], src[1];
    rest := src[2..];
    var k := KindOf(flags);
    if k.count == 4 {
      err := Some(CorruptDecodeHeader);
      return;
    }
    if |rest| < k.count {
      return h, [], Some(Serial.ShortRead(rest));
    }
    var size, sum := SumUp(XorByte(0x5a, flags), rest[..k.count]);
    rest := rest[k.count..];
    if sum != hsum {
      err := Some(CorruptDecodeHeader);
      return;
    }
    h := HeadOf(k, size);
  }

  method SumUp(sum0: byte, s: seq<byte>) returns (size: nat, sum: byte)
    ensures size == Size(s) && sum == Checksum(sum0, s)
  {
    size, sum := 0, sum0;
    for i := 0 to |s|
      invariant size == Size(s[..i]) && sum == Checksum(sum0, s[..i])
    {
      assert s[..i + 1][..i] == s[..i];
      sum := XorByte(sum, s[i]);
      size := size + Shl(s[i], 8 * i);
    }
    assert s[..|s|] == s;
  }
}
