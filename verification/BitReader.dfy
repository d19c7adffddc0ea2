// bit_reader.go: a 64-bit cache over a byte slice, refining a cursor over the bit sequence.

module BitReader {
  import opened Basics
  import opened DecodeTypes
  import opened Bits

  // What ReadBits gives on the plain bit sequence.
  datatype BitsRead = BitsRead(value: nat, cur: Cursor) | BitsEOF

  function ReadBits(c: Cursor, k: nat): BitsRead {
    if c.pos + k > c.limit then BitsEOF
    else BitsRead(Value(c.buf, c.pos, k), c.(pos := c.pos + k))
  }

  // binary.BigEndian over a slice.
  function BigEndian(s: seq<byte>): nat {
    if s == [] then 0 else Shl(BigEndian(s[..|s| - 1]), 8) + s[|s| - 1]
  }

  lemma {:induction false} BigEndianIsValue(buf: seq<byte>, off: nat, k: nat)
    requires off + k <= |buf|
    ensures BigEndian(buf[off..off + k]) == Value(buf, 8 * off, 8 * k)
  {
    if k > 0 {
      var s, front := buf[off..off + k], buf[off..off + (k - 1)];
      assert s[..|s| - 1] == front && s[|s| - 1] == buf[off + (k - 1)];
      BigEndianIsValue(buf, off, k - 1);
      ByteMore(buf, off, k - 1);
      assert BigEndian(s) == Shl(BigEndian(front), 8) + buf[off + (k - 1)];
    }
  }

  lemma {:induction false} ByteMore(buf: seq<byte>, off: nat, k: nat)
    requires off + k < |buf|
    ensures Value(buf, 8 * off, 8 * (k + 1)) == Shl(Value(buf, 8 * off, 8 * k), 8) + buf[off + k]
  {
    ValueSplit(buf, 8 * off, 8 * k, 8);
    ValueInByte(buf, off + k, 8);
  }

  // The first k of the n cached bits, and what is left of them.
  lemma {:induction false} CacheFront(buf: seq<byte>, p: nat, v: nat, n: nat, k: nat)
    requires k <= n && Low(v, n) == Value(buf, p, n)
    ensures Low(Shr(v, n - k), k) == Value(buf, p, k)
    ensures Low(v, n - k) == Value(buf, p + k, n - k)
  {
    if k < n {
      CacheFront(buf, p, v / 2, n - 1, k);
      assert p + n - 1 == p + k + (n - k) - 1;
    }
  }

  // b more bits go in below; what the shift pushes past the cache's width was not known anyway.
  lemma {:induction false} CacheBack(buf: seq<byte>, p: nat, v: nat, n: nat, b: nat, width: nat)
    requires n + b <= width && Low(v, n) == Value(buf, p, n)
    ensures var v' := Low(Shl(v, b), width) + Value(buf, p + n, b);
      v' < Shl(1, width) && Low(v', n + b) == Value(buf, p, n + b)
    decreases b
  {
    if b == 0 {
      LowLow(v, n, width);
      LowBound(v, width);
    } else {
      CacheBack(buf, p, v, n, b - 1, width - 1);
      OneMoreBit(buf, p, v, n, b, width);
    }
  }

  lemma {:induction false} OneMoreBit(buf: seq<byte>, p: nat, v: nat, n: nat, b: nat, width: nat)
    requires 0 < b && n + b <= width
    requires var half := Low(Shl(v, b - 1), width - 1) + Value(buf, p + n, b - 1);
      half < Shl(1, width - 1) && Low(half, n + (b - 1)) == Value(buf, p, n + (b - 1))
    ensures var v' := Low(Shl(v, b), width) + Value(buf, p + n, b);
      v' < Shl(1, width) && Low(v', n + b) == Value(buf, p, n + b)
  {
    var half := Low(Shl(v, b - 1), width - 1) + Value(buf, p + n, b - 1);
    var bit := BitAt(buf, p + n + b - 1);
    LowEven(Shl(v, b - 1), width - 1);
    LowPair(half, bit, n + b - 1);
    assert p + n + b - 1 == p + (n + b) - 1;
  }

  lemma {:induction false} LowEven(x: nat, n: nat)
    ensures Low(2 * x, n + 1) == 2 * Low(x, n)
  {
  }

  lemma {:induction false} LowPair(x: nat, b: nat, n: nat)
    requires b < 2
    ensures Low(2 * x + b, n + 1) == 2 * Low(x, n) + b
  {
  }

  // The cache v of the given width starts with the n bits from p on.
  ghost predicate Caches(buf: seq<byte>, p: nat, v: nat, n: nat, width: nat) {
    v < Shl(1, width) && Low(v, n) == Value(buf, p, n)
  }

  // The b bits after them go in behind.
  lemma {:induction false} CacheTakes(buf: seq<byte>, p: nat, v: nat, n: nat, b: nat, word: nat, width: nat)
    requires Caches(buf, p, v, n, width) && n + b <= width && word == Value(buf, p + n, b)
    ensures Caches(buf, p, Low(Shl(v, b), width) + word, n + b, width)
  {
    CacheBack(buf, p, v, n, b, width);
  }

  // Bits from the front leave it.
  lemma {:induction false} CacheGives(buf: seq<byte>, p: nat, v: nat, n: nat, k: nat, width: nat)
    requires Caches(buf, p, v, n, width) && k <= n
    ensures Low(Shr(v, n - k), k) == Value(buf, p, k) && Caches(buf, p + k, v, n - k, width)
  {
    CacheFront(buf, p, v, n, k);
  }

  // A load of more bytes than there is room for, cut down to its first b.
  lemma {:induction false} LoadKeeps(buf: seq<byte>, off: nat, b: nat, load: nat)
    requires off + load <= |buf| && b <= load
    ensures Shr(BigEndian(buf[off..off + load]), 8 * load - 8 * b) == BigEndian(buf[off..off + b])
  {
    BigEndianIsValue(buf, off, load);
    BigEndianIsValue(buf, off, b);
    ValueCut(buf, 8 * off, 8 * b, 8 * load - 8 * b);
  }

  lemma {:induction false} ValueCut(buf: seq<byte>, p: nat, a: nat, c: nat)
    ensures Shr(Value(buf, p, a + c), c) == Value(buf, p, a)
  {
    ValueSplit(buf, p, a, c);
    ValueBound(buf, p + a, c);
    ShrOfShl(Value(buf, p, a), Value(buf, p + a, c), c);
  }

  class BitReader {
    var buf: seq<byte>
    var off: nat
    var v: nat        // uint64
    var n: nat        // uint8
    var limit: int
    var bitsRead: nat

    const WIDTH: nat   // of the cache, 64

    // The cache holds exactly the n bits before byte off.
    ghost predicate Valid()
      reads this
    {
      && WIDTH == 64
      && off <= |buf| && n <= WIDTH
      && limit <= 8 * |buf|
      && 8 * off == bitsRead + n
      && Caches(buf, bitsRead, v, n, WIDTH)
    }

    ghost function C(): Cursor
      reads this
    {
      Cursor(buf, bitsRead, limit)
    }

    // Reset. readBlockHead never declares more bits than bytes.
    constructor (buf: seq<byte>, limit: int)
      requires limit <= 8 * |buf|
      ensures Valid() && C() == Cursor(buf, 0, limit)
    {
      this.buf, this.off, this.v, this.n, this.limit, this.bitsRead := buf, 0, 0, 0, limit, 0;
      WIDTH := 64;
      new;
      LowBound(0, WIDTH);
    }

    // Takes b bytes, worth word, into the cache. The source shifts and ORs; the shifted-in bits are
    // zero, so the OR is a sum.
    method Take(b: nat, word: nat)
      requires Valid() && off + b <= |buf| && n + 8 * b <= WIDTH && word == BigEndian(buf[off..off + b])
      modifies `v, `n, `off
      ensures Valid() && n == old(n) + 8 * b && off == old(off) + b
    {
      BigEndianIsValue(buf, off, b);
      CacheTakes(buf, bitsRead, v, n, 8 * b, word, WIDTH);
      var k, taken := n + 8 * b, Low(Shl(v, 8 * b), WIDTH) + word;
      assert Caches(buf, bitsRead, taken, k, WIDTH);
      v, n := taken, k;
      off := off + b;
    }

    // fill: at least 57 bits afterwards, unless the buffer is used up.
    method Fill()
      requires Valid()
      modifies `v, `n, `off
      ensures Valid() && n >= old(n) && (n > 56 || off == |buf|)
    {
      if n > 56 {
        return;
      }
      if off + 8 > |buf| {
        FillTail();
        return;
      }
      // One eight-byte load; only its first (64-n)/8 bytes are kept.
      var bytesToAdd := (64 - n) / 8;
      var load := WIDTH / 8;
      LoadKeeps(buf, off, bytesToAdd, load);
      Take(bytesToAdd, Shr(BigEndian(buf[off..off + load]), 8 * load - 8 * bytesToAdd));
    }

    method FillTail()
      requires Valid()
      modifies `v, `n, `off
      ensures Valid() && n >= old(n) && (n > 56 || off == |buf|)
    {
      while n <= 56 && off < |buf|
        invariant Valid() && n >= old(n)
        decreases |buf| - off
      {
        Take(1, BigEndian(buf[off..off + 1]));
      }
    }

    // ReadBits never reports out-of-data: within the limit the cache can always be filled far enough.
    method Read(k: nat) returns (val: nat, err: Option<Error>)
      requires Valid() && k <= 32
      modifies this
      ensures Valid()
      ensures match ReadBits(old(C()), k)
              case BitsEOF => err == Some(EOF) && val == 0 && C() == old(C())
              case BitsRead(x, c) => err == None && val == x && C() == c
    {
      if bitsRead + k > limit {
        return 0, Some(EOF);
      }
      if n < k {
        Fill();
        if n < k {
          assert false; // return 0, ErrDecoderOutOfData
        }
      }
      CacheGives(buf, bitsRead, v, n, k, WIDTH);
      n := n - k;
      val := Low(Shr(v, n), k);
      bitsRead := bitsRead + k;
      err := None;
    }

    // PeekBits: the next k bits, zeros past the end, and no advance.
    method Peek(k: nat) returns (val: nat)
      requires Valid() && k <= 24
      modifies `v, `n, `off
      ensures Valid() && C() == old(C())
      ensures val == Value(buf, bitsRead, k)
      ensures n >= k || bitsRead + n == 8 * |buf|
    {
      if n < k {
        Fill();
      }
      if n < k {
        ValueSplit(buf, bitsRead, n, k - n);
        ValueBeyond(buf, bitsRead + n, k - n);
        val := Shl(Low(v, n), k - n);
        return;
      }
      CacheFront(buf, bitsRead, v, n, k);
      val := Low(Shr(v, n - k), k);
    }

    // Advance does not check; what it needs of its caller is that n does not underflow.
    method Advance(k: nat)
      requires Valid() && k <= n
      modifies `n, `bitsRead
      ensures Valid() && C() == old(C()).(pos := old(bitsRead) + k)
    {
      CacheFront(buf, bitsRead, v, n, k);
      n := n - k;
      bitsRead := bitsRead + k;
    }
  }
}
