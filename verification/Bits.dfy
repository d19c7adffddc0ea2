// Shifts and masks on unsigned integers, and a byte sequence as the MSB-first bit sequence it is.

module Bits {
  import opened Basics

  // x << n, x >> n and x & (1<<n - 1), unbounded.
  function Shl(x: nat, n: nat): nat {
    if n == 0 then x else 2 * Shl(x, n - 1)
  }

  function Shr(x: nat, n: nat): nat {
    if n == 0 then x else Shr(x / 2, n - 1)
  }

  function Low(x: nat, n: nat): nat {
    if n == 0 then 0 else 2 * Low(x / 2, n - 1) + x % 2
  }

  // Bit i, most significant of each byte first; zeros beyond the end.
  function BitAt(buf: seq<byte>, i: nat): (b: nat)
    ensures b < 2
  {
    if i / 8 < |buf| then Shr(buf[i / 8], 7 - i % 8) % 2 else 0
  }

  // The k bits from position p as a number.
  function Value(buf: seq<byte>, p: nat, k: nat): nat
    decreases |buf|, k
  {
    if k == 0 then 0 else 2 * Value(buf, p, k - 1) + BitAt(buf, p + k - 1)
  }

  lemma {:induction false} ValueBound(buf: seq<byte>, p: nat, k: nat)
    ensures Value(buf, p, k) < Shl(1, k)
  {
    if k > 0 {
      ValueBound(buf, p, k - 1);
    }
  }

  lemma {:induction false} ValueSplit(buf: seq<byte>, p: nat, a: nat, b: nat)
    ensures Value(buf, p, a + b) == Shl(Value(buf, p, a), b) + Value(buf, p + a, b)
  {
    if b > 0 {
      ValueSplit(buf, p, a, b - 1);
      assert a + b - 1 == a + (b - 1) && p + (a + b) - 1 == p + a + b - 1;
    }
  }

  lemma {:induction false} ValueBeyond(buf: seq<byte>, p: nat, k: nat)
    requires p >= 8 * |buf|
    ensures Value(buf, p, k) == 0
  {
    if k > 0 {
      ValueBeyond(buf, p, k - 1);
    }
  }

  lemma {:induction false} ShrStep(x: nat, n: nat)
    ensures Shr(x, n + 1) == Shr(x, n) / 2
  {
    if n > 0 {
      ShrStep(x / 2, n - 1);
    }
  }

  lemma {:induction false} ShrAll(x: nat, n: nat)
    requires x < Shl(1, n)
    ensures Shr(x, n) == 0
  {
    if n > 0 {
      ShrAll(x / 2, n - 1);
    }
  }

  lemma {:induction false} ValueInByte(buf: seq<byte>, off: nat, j: nat)
    requires off < |buf| && j <= 8
    ensures Value(buf, 8 * off, j) == Shr(buf[off], 8 - j)
  {
    if j == 0 {
      ShrAll(buf[off], 8);
    } else {
      ValueInByte(buf, off, j - 1);
      ShrStep(buf[off], 8 - j);
      assert (8 * off + j - 1) / 8 == off && (8 * off + j - 1) % 8 == j - 1;
    }
  }

  lemma {:induction false} LowBound(x: nat, n: nat)
    ensures Low(x, n) < Shl(1, n)
  {
    if n > 0 {
      LowBound(x / 2, n - 1);
    }
  }

  lemma {:induction false} LowLow(x: nat, small: nat, big: nat)
    requires small <= big
    ensures Low(Low(x, big), small) == Low(x, small)
  {
    if small > 0 {
      LowLow(x / 2, small - 1, big - 1);
    }
  }

  lemma {:induction false} ShlMono(a: nat, b: nat, n: nat)
    requires a <= b
    ensures Shl(a, n) <= Shl(b, n)
    ensures a < b ==> Shl(a, n) + Shl(1, n) <= Shl(b, n)
  {
    if n > 0 {
      ShlMono(a, b, n - 1);
    }
  }

  lemma {:induction false} ShlAdd(a: nat, b: nat, n: nat)
    ensures Shl(a + b, n) == Shl(a, n) + Shl(b, n)
  {
    if n > 0 {
      ShlAdd(a, b, n - 1);
    }
  }

  lemma {:induction false} ShlShl(x: nat, a: nat, b: nat)
    ensures Shl(Shl(x, a), b) == Shl(x, a + b)
  {
    if b > 0 {
      ShlShl(x, a, b - 1);
    }
  }

  lemma {:induction false} ShlPositive(n: nat)
    ensures Shl(1, n) > 0
  {
    if n > 0 {
      ShlPositive(n - 1);
    }
  }

  lemma {:induction false} ShlBy8(x: nat, n: nat)
    ensures Shl(x, n + 8) == 0x100 * Shl(x, n)
  {
    assert Shl(x, n + 2) == 4 * Shl(x, n);
    assert Shl(x, n + 4) == 4 * Shl(x, n + 2);
    assert Shl(x, n + 6) == 4 * Shl(x, n + 4);
    assert Shl(x, n + 8) == 4 * Shl(x, n + 6);
  }

  // Shifting left and filling in below loses nothing.
  lemma {:induction false} ShrOfShl(x: nat, w: nat, n: nat)
    requires w < Shl(1, n)
    ensures Shr(Shl(x, n) + w, n) == x
  {
    if n > 0 {
      ShrOfShl(x, w / 2, n - 1);
      assert (Shl(x, n) + w) / 2 == Shl(x, n - 1) + w / 2;
    }
  }

  // Every number is its upper part shifted back plus its lower part.
  lemma {:induction false} ShrLow(x: nat, n: nat)
    ensures x == Shl(Shr(x, n), n) + Low(x, n)
    ensures Low(x, n) < Shl(1, n)
  {
    if n > 0 {
      ShrLow(x / 2, n - 1);
    }
  }

  lemma {:induction false} ShrBelow(x: nat, n: nat, u: nat)
    requires x < Shl(u, n)
    ensures Shr(x, n) < u
  {
    ShrLow(x, n);
    if Shr(x, n) >= u {
      ShlMono(u, Shr(x, n), n);
    }
  }
}
