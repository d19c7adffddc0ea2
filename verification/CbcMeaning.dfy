// CBC the other way round: what an encryptor makes of a plaintext is what the reader undoes (section 6.2 of
// NIST SP 800-38A; crypto.go:37-110).

module CbcMeaning {
  import opened Basics
  import opened Bits
  import opened Cbc
  import BH = BlockHeader

  // A forward cipher that the inverse one undoes.
  ghost predicate Undoes(k: Cipher, forward: seq<byte> -> seq<byte>) {
    forall b :: |b| == BLOCK ==> |forward(b)| == BLOCK && k.inverse(forward(b)) == b
  }

  function Mixed(a: seq<byte>, b: seq<byte>): (r: seq<byte>)
    requires |a| == |b|
    ensures |r| == |a| && forall i :: 0 <= i < |a| ==> r[i] == BH.XorByte(a[i], b[i])
  {
    if a == [] then [] else [BH.XorByte(a[0], b[0])] + Mixed(a[1..], b[1..])
  }

  // Each block is mixed with the ciphertext before it and encrypted.
  function Encrypted(forward: seq<byte> -> seq<byte>, iv: seq<byte>, p: seq<byte>): seq<byte>
    decreases |p|
  {
    if |p| < BLOCK || |iv| != BLOCK then []
    else
      var c := forward(Mixed(p[..BLOCK], iv));
      c + Encrypted(forward, c, p[BLOCK..])
  }

  lemma {:induction false} XorTwice(a: byte, b: byte)
    ensures BH.XorByte(BH.XorByte(a, b), b) == a
  {
    var x := BH.XorByte(BH.XorByte(a, b), b);
    ShlBy8(1, 0);
    BH.BitsSame(x, a, 8);
    forall i | 0 <= i < 8 ensures BH.Bit(x, i) == BH.Bit(a, i) {
      BH.XorByteBits(a, b, i);
      BH.XorByteBits(BH.XorByte(a, b), b, i);
    }
  }

  lemma {:induction false} BlockBack(k: Cipher, forward: seq<byte> -> seq<byte>, iv: seq<byte>, p: seq<byte>)
    requires Undoes(k, forward) && |iv| == |p| == BLOCK
    ensures k.Plain(iv, forward(Mixed(p, iv))) == p
  {
    var m := Mixed(p, iv);
    assert k.inverse(forward(m)) == m;
    forall i | 0 <= i < BLOCK ensures k.Plain(iv, forward(m))[i] == p[i] {
      XorTwice(p[i], iv[i]);
    }
  }

  // Decryption gives back every plaintext of whole blocks.
  lemma {:induction false} RoundTrip(k: Cipher, forward: seq<byte> -> seq<byte>, iv: seq<byte>, p: seq<byte>)
    requires Undoes(k, forward) && |iv| == BLOCK && Whole(p)
    ensures Decrypted(k, iv, Encrypted(forward, iv, p)) == p && |Encrypted(forward, iv, p)| == |p|
    decreases |p|
  {
    if |p| >= BLOCK {
      var c := forward(Mixed(p[..BLOCK], iv));
      var rest := Encrypted(forward, c, p[BLOCK..]);
      assert |c| == BLOCK;
      RoundTrip(k, forward, c, p[BLOCK..]);
      BlockBack(k, forward, iv, p[..BLOCK]);
      assert (c + rest)[..BLOCK] == c && (c + rest)[BLOCK..] == rest;
      assert p == p[..BLOCK] + p[BLOCK..];
    }
  }

  // Bit by bit: a plaintext byte is the inverse cipher's where the ciphertext block before it has a zero, and
  // the other way round where it has a one.
  lemma {:induction false} PlainBits(k: Cipher, prev: seq<byte>, block: seq<byte>, i: nat, b: nat)
    requires |prev| == BLOCK && i < BLOCK && b < 8 && |k.inverse(block)| == BLOCK
    ensures BH.Bit(k.Plain(prev, block)[i], b) == if BH.Bit(k.inverse(block)[i], b) == BH.Bit(prev[i], b) then 0 else 1
  {
    BH.XorByteBits(k.inverse(block)[i], prev[i], b);
  }
}
