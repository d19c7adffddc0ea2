// The canonical prefix code a table of code lengths stands for (section 3.2.2 of RFC 1951, with
// lengths up to 15), and decoding by it.

module Canonical {
  import opened Basics
  import opened DecodeTypes
  import opened Bits

  const MAX_LEN: nat := 15   // maxCodeLength

  // How many symbols have code length n.
  function Count(lens: seq<byte>, n: nat): (c: nat)
    ensures c <= |lens|
  {
    if lens == [] then 0 else Count(lens[..|lens| - 1], n) + if lens[|lens| - 1] == n then 1 else 0
  }

  function Used(lens: seq<byte>, n: nat): nat {
    if n == 0 then 0 else Count(lens, n)
  }

  // RFC 1951: the first code of each length.
  function NextCode(lens: seq<byte>, n: nat): nat
    decreases |lens|, n
  {
    if n == 0 then 0 else 2 * (NextCode(lens, n - 1) + Used(lens, n - 1))
  }

  // The code of symbol s, a number of lens[s] bits.
  function Code(lens: seq<byte>, s: nat): nat
    requires s < |lens|
  {
    NextCode(lens, lens[s]) + Count(lens[..s], lens[s])
  }

  // The table's form of the same thing: where, left-aligned in 15 bits, the codes of length n end.
  function Limit(lens: seq<byte>, n: nat): nat
    decreases |lens|, n
  {
    if n == 0 then 0 else Limit(lens, n - 1) + Shl(Used(lens, n), if n <= 15 then 15 - n else 0)
  }

  // How many used symbols have a shorter code.
  function Pos(lens: seq<byte>, n: nat): nat
    decreases |lens|, n
  {
    if n == 0 then 0 else Pos(lens, n - 1) + Used(lens, n - 1)
  }

  // Init accepts exactly these.
  predicate Accepted(lens: seq<byte>) {
    (forall i :: 0 <= i < |lens| ==> lens[i] <= 15) && Limit(lens, 15) <= 0x8000
  }

  function Slot(lens: seq<byte>, s: nat): nat
    requires s < |lens|
  {
    Pos(lens, lens[s]) + Count(lens[..s], lens[s])
  }

  // The symbol whose place in code order is idx, looked for among the first n; 0 if there is none.
  function SymbolAt(lens: seq<byte>, n: nat, idx: nat): nat
    requires n <= |lens|
  {
    if n == 0 then 0
    else if lens[n - 1] != 0 && Slot(lens, n - 1) == idx then n - 1
    else SymbolAt(lens, n - 1, idx)
  }

  // The length of the code v, 15 bits of stream, begins with: the shortest that v falls under.
  function LengthFrom(lens: seq<byte>, n: nat, v: nat): (r: nat)
    requires n <= 15
    ensures n <= r <= 15
    decreases |lens|, 15 - n
  {
    if n == 15 || v < Limit(lens, n) then n else LengthFrom(lens, n + 1, v)
  }

  function LengthOf(lens: seq<byte>, v: nat): (r: nat)
    ensures 1 <= r <= 15
  {
    LengthFrom(lens, 1, v)
  }

  function IndexOf(lens: seq<byte>, v: nat): nat {
    var n := LengthOf(lens, v);
    Pos(lens, n) + if v < Limit(lens, n - 1) then 0 else Shr(v - Limit(lens, n - 1), 15 - n)
  }

  predicate Empty(lens: seq<byte>) {
    Limit(lens, 15) == 0
  }

  lemma {:induction false} NoneUsed(n: nat, lens: seq<byte>)
    requires forall i :: 0 <= i < |lens| ==> lens[i] == 0
    ensures Limit(lens, n) == 0
  {
    if n > 0 {
      NoneUsed(n - 1, lens);
      NoneCounted(n, lens);
      NoShift(if n <= 15 then 15 - n else 0);
    }
  }

  lemma {:induction false} NoneCounted(n: nat, lens: seq<byte>)
    requires n > 0 && forall i :: 0 <= i < |lens| ==> lens[i] == 0
    ensures Count(lens, n) == 0
  {
    if lens != [] {
      NoneCounted(n, lens[..|lens| - 1]);
    }
  }

  lemma {:induction false} NoShift(n: nat)
    ensures Shl(0, n) == 0
  {
    if n > 0 {
      NoShift(n - 1);
    }
  }

  datatype SymRead = Sym(sym: nat, cur: Cursor) | SymErr(err: Error, cur: Cursor)

  // ReadSym, on the plain bit sequence. A codeword nothing is assigned to reads as 15 bits of
  // symbol 0, or of no symbol at all.
  function ReadSym(lens: seq<byte>, c: Cursor): SymRead {
    if Empty(lens) then SymErr(HuffDecodeFailed, c)
    else if c.pos >= c.limit then SymErr(EOF, c)
    else
      var v := Value(c.buf, c.pos, MAX_LEN);
      var n := LengthOf(lens, v);
      if c.pos + n > c.limit then SymErr(EOF, c)
      else
        var c' := c.(pos := c.pos + n);
        var i := IndexOf(lens, v);
        if i < |lens| then Sym(SymbolAt(lens, |lens|, i), c') else SymErr(HuffDecodeFailed, c')
  }

  // The table's limits are RFC 1951's codes, left-aligned.
  lemma {:induction false} LimitIsNextCode(lens: seq<byte>, n: nat)
    requires 1 <= n <= 15
    ensures Limit(lens, n - 1) == Shl(NextCode(lens, n), 15 - n)
  {
    if n > 1 {
      LimitIsNextCode(lens, n - 1);
      var x := NextCode(lens, n - 1) + Used(lens, n - 1);
      ShlAdd(NextCode(lens, n - 1), Used(lens, n - 1), 15 - (n - 1));
      ShlAdd(x, x, 15 - n);
    } else {
      ShlAdd(0, 0, 14);
    }
  }

  lemma {:induction false} LimitMono(lens: seq<byte>, m: nat, n: nat)
    requires m <= n
    ensures Limit(lens, m) <= Limit(lens, n)
  {
    if m < n {
      LimitMono(lens, m, n - 1);
    }
  }

  lemma {:induction false} CountPrefix(lens: seq<byte>, s: nat, n: nat)
    requires s <= |lens|
    ensures Count(lens[..s], n) <= Count(lens, n)
    ensures s < |lens| && lens[s] == n ==> Count(lens[..s], n) < Count(lens, n)
    decreases |lens|
  {
    if s < |lens| {
      var t := lens[..|lens| - 1];
      assert t[..s] == lens[..s];
      CountPrefix(t, s, n);
      if s == |lens| - 1 {
        assert t == lens[..s];
      }
    } else {
      assert lens[..s] == lens;
    }
  }

  lemma {:induction false} PosMono(lens: seq<byte>, m: nat, n: nat)
    requires m < n
    ensures Pos(lens, m) + Used(lens, m) <= Pos(lens, n)
  {
    if m < n - 1 {
      PosMono(lens, m, n - 1);
    }
  }

  // Places in code order are distinct.
  lemma {:induction false} SlotsDistinct(lens: seq<byte>, s: nat, t: nat)
    requires s < t < |lens| && lens[s] != 0 && lens[t] != 0
    ensures Slot(lens, s) != Slot(lens, t)
  {
    var m, n := lens[s], lens[t];
    CountPrefix(lens, s, m);
    CountPrefix(lens, t, n);
    if m == n {
      assert lens[..t][..s] == lens[..s];
      CountPrefix(lens[..t], s, m);
    } else if m < n {
      PosMono(lens, m, n);
    } else {
      PosMono(lens, n, m);
    }
  }

  lemma {:induction false} SymbolInSlot(lens: seq<byte>, n: nat, s: nat)
    requires s < n <= |lens| && lens[s] != 0
    ensures SymbolAt(lens, n, Slot(lens, s)) == s
    decreases n
  {
    if s < n - 1 {
      if lens[n - 1] != 0 {
        SlotsDistinct(lens, s, n - 1);
      }
      SymbolInSlot(lens, n - 1, s);
    }
  }

  // Fifteen bits that begin with symbol s's codeword fall in its interval of the table.
  lemma {:induction false} InInterval(lens: seq<byte>, s: nat, v: nat)
    requires Accepted(lens) && s < |lens| && lens[s] != 0
    requires Shr(v, 15 - lens[s]) == Code(lens, s)
    ensures var n := lens[s];
      && Limit(lens, n - 1) <= v < Limit(lens, n)
      && Shr(v - Limit(lens, n - 1), 15 - n) == Count(lens[..s], n)
  {
    var n := lens[s];
    LimitIsNextCode(lens, n);
    CountPrefix(lens, s, n);
    Interval(NextCode(lens, n), Count(lens[..s], n), Count(lens, n), 15 - n, v);
  }

  lemma {:induction false} Interval(c: nat, r: nat, count: nat, m: nat, v: nat)
    requires Shr(v, m) == c + r && r < count
    ensures Shl(c, m) <= v < Shl(c, m) + Shl(count, m) && Shr(v - Shl(c, m), m) == r
  {
    ShrLow(v, m);
    ShlAdd(c, r, m);
    ShrOfShl(r, Low(v, m), m);
    ShlMono(r, count, m);
  }

  lemma {:induction false} LengthFromIs(lens: seq<byte>, m: nat, n: nat, v: nat)
    requires 1 <= m <= n <= 15 && Limit(lens, n - 1) <= v < Limit(lens, n)
    ensures LengthFrom(lens, m, v) == n
    decreases n - m
  {
    if m < n {
      LimitMono(lens, m, n - 1);
      LengthFromIs(lens, m + 1, n, v);
    }
  }

  lemma {:induction false} StartsWith(buf: seq<byte>, p: nat, n: nat, rest: nat)
    ensures Shr(Value(buf, p, n + rest), rest) == Value(buf, p, n)
  {
    ValueSplit(buf, p, n, rest);
    ValueBound(buf, p + n, rest);
    ShrOfShl(Value(buf, p, n), Value(buf, p + n, rest), rest);
  }

  // Decoding an assigned codeword: every table Init accepts gives back the symbol and moves over its
  // codeword; one that reaches past the limit is an end of block, and nothing is consumed.
  lemma {:induction false} DecodesCodeword(lens: seq<byte>, s: nat, c: Cursor)
    requires Accepted(lens) && s < |lens| && lens[s] != 0
    requires Value(c.buf, c.pos, lens[s]) == Code(lens, s)
    ensures c.pos + lens[s] <= c.limit ==> ReadSym(lens, c) == Sym(s, c.(pos := c.pos + lens[s]))
    ensures c.pos + lens[s] > c.limit ==> ReadSym(lens, c) == SymErr(EOF, c)
  {
    var n := lens[s];
    var v := Value(c.buf, c.pos, MAX_LEN);
    StartsWith(c.buf, c.pos, n, MAX_LEN - n);
    InInterval(lens, s, v);
    LengthFromIs(lens, 1, n, v);
    LimitMono(lens, n, 15);
    SlotInTable(lens, s);
    SymbolInSlot(lens, |lens|, s);
  }

  lemma {:induction false} SlotInTable(lens: seq<byte>, s: nat)
    requires Accepted(lens) && s < |lens| && lens[s] != 0
    ensures Slot(lens, s) < |lens|
  {
    CountPrefix(lens, s, lens[s]);
    PosMono(lens, lens[s], 16);
    PosTotal(lens, 15);
  }

  // How many symbols have a codeword of at most n bits.
  function InUse(lens: seq<byte>, n: nat): (c: nat)
    ensures c <= |lens|
  {
    if lens == [] then 0 else InUse(lens[..|lens| - 1], n) + if 0 < lens[|lens| - 1] <= n then 1 else 0
  }

  // The positions count them.
  lemma {:induction false} PosTotal(lens: seq<byte>, n: nat)
    ensures Pos(lens, n + 1) == InUse(lens, n)
    decreases |lens|
  {
    if lens != [] {
      PosTotal(lens[..|lens| - 1], n);
      PosOneMore(lens, n + 1);
    } else {
      PosNone(n + 1);
    }
  }

  lemma {:induction false} PosNone(n: nat)
    ensures Pos([], n) == 0
  {
    if n > 0 {
      PosNone(n - 1);
    }
  }

  lemma {:induction false} PosOneMore(lens: seq<byte>, n: nat)
    requires lens != []
    ensures var last := lens[|lens| - 1];
      Pos(lens, n) == Pos(lens[..|lens| - 1], n) + if 0 < last < n then 1 else 0
  {
    if n > 0 {
      PosOneMore(lens, n - 1);
    }
  }

  // Two symbols never have codewords one of which begins the other.
  lemma {:induction false} PrefixFree(lens: seq<byte>, s: nat, t: nat, buf: seq<byte>, p: nat)
    requires Accepted(lens) && s < |lens| && t < |lens| && lens[s] != 0 && lens[t] != 0
    requires Value(buf, p, lens[s]) == Code(lens, s) && Value(buf, p, lens[t]) == Code(lens, t)
    ensures s == t
  {
    var c := Cursor(buf, p, p + 15);
    DecodesCodeword(lens, s, c);
    DecodesCodeword(lens, t, c);
  }
}
