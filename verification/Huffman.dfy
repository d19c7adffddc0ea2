// huffman.go: the table form of the canonical code, with its quick lookup.

module Huffman {
  import opened Basics
  import opened DecodeTypes
  import opened Bits
  import opened Canonical
  import BR = BitReader

  const MAX_QUICK_BITS: nat := 10

  // A looked-up symbol: 0 for a place past the table's end.
  function SymbolOr0(lens: seq<byte>, i: nat): nat {
    if i < |lens| then SymbolAt(lens, |lens|, i) else 0
  }

  // Limits up to length q leave the low 15-q bits clear.
  lemma {:induction false} LimitAligned(lens: seq<byte>, n: nat, q: nat) returns (k: nat)
    requires n <= q <= 15
    ensures Limit(lens, n) == Shl(k, 15 - q)
  {
    if n == 0 {
      k := 0;
      ShlAdd(0, 0, 15 - q);
    } else {
      var j := LimitAligned(lens, n - 1, q);
      var u := Shl(Used(lens, n), q - n);
      ShlShl(Used(lens, n), q - n, 15 - q);
      ShlAdd(j, u, 15 - q);
      k := j + u;
    }
  }

  // Below the quick limit, the first q bits decide both the length and the symbol.
  lemma {:induction false} QuickAgrees(lens: seq<byte>, q: nat, v: nat)
    requires Accepted(lens) && q <= 15 && v < Limit(lens, q)
    ensures var w := Shl(Shr(v, 15 - q), 15 - q);
      LengthOf(lens, w) == LengthOf(lens, v) <= q && IndexOf(lens, w) == IndexOf(lens, v)
  {
    var m := 15 - q;
    var n, j := QuickInterval(lens, q, v);
    LengthFromIs(lens, 1, n, Shl(Shr(v, m), m));
    LengthFromIs(lens, 1, n, v);
    SamePlace(j, v, m, q - n);
    assert m + (q - n) == 15 - n;
  }

  // Cutting v down to its first q bits leaves it in the same length's interval.
  lemma {:induction false} QuickInterval(lens: seq<byte>, q: nat, v: nat) returns (n: nat, j: nat)
    requires Accepted(lens) && q <= 15 && v < Limit(lens, q)
    ensures var m := 15 - q; var w := Shl(Shr(v, m), m);
      && 1 <= n <= q && Limit(lens, n - 1) == Shl(j, m) && j <= Shr(v, m)
      && Limit(lens, n - 1) <= w < Limit(lens, n) && Limit(lens, n - 1) <= v < Limit(lens, n)
  {
    var m := 15 - q;
    var i := Shr(v, m);
    ShrLow(v, m);
    n := FoundAt(lens, 1, q, v);
    var k := LimitAligned(lens, n, q);
    j := LimitAligned(lens, n - 1, q);
    ShrBelow(v, m, k);
    ShlMono(i, k, m);
    if i < j {
      ShlMono(i, j, m);
    }
    ShlMono(j, i, m);
  }

  // Bits below the m lowest do not matter m or more places up, counted from a multiple of 2^m.
  lemma {:induction false} SamePlace(j: nat, v: nat, m: nat, extra: nat)
    requires j <= Shr(v, m)
    ensures Shl(j, m) <= Shl(Shr(v, m), m) <= v
    ensures Shr(Shl(Shr(v, m), m) - Shl(j, m), m + extra) == Shr(v - Shl(j, m), m + extra)
  {
    var i := Shr(v, m);
    ShrLow(v, m);
    ShlMono(j, i, m);
    ShlAdd(j, i - j, m);
    SameShr(i - j, Low(v, m), m, extra);
  }

  lemma {:induction false} SameShr(x: nat, w: nat, m: nat, extra: nat)
    requires w < Shl(1, m)
    ensures Shr(Shl(x, m), m + extra) == Shr(Shl(x, m) + w, m + extra)
  {
    ShlMono(0, 1, m);
    ShlAdd(0, 0, m);
    ShrOfShl(x, w, m);
    ShrOfShl(x, 0, m);
    ShrShr(Shl(x, m), m, extra);
    ShrShr(Shl(x, m) + w, m, extra);
  }

  lemma {:induction false} ShrShr(x: nat, a: nat, b: nat)
    ensures Shr(x, a + b) == Shr(Shr(x, a), b)
  {
    if a > 0 {
      ShrShr(x / 2, a - 1, b);
    }
  }

  lemma {:induction false} FoundAt(lens: seq<byte>, m: nat, q: nat, v: nat) returns (n: nat)
    requires 1 <= m && q <= 15 && Limit(lens, m - 1) <= v < Limit(lens, q)
    ensures m <= n <= q && Limit(lens, n - 1) <= v < Limit(lens, n)
    decreases 15 - m
  {
    if q < m {
      LimitMono(lens, q, m - 1);
    }
    if v < Limit(lens, m) {
      n := m;
    } else {
      n := FoundAt(lens, m + 1, q, v);
    }
  }

  class HuffmanDecoder {
    const limit: array<nat>      // uint16; at most 0x8000
    const pos: array<nat>        // uint16
    var symbol: seq<nat>         // uint16
    var min: nat
    var quickbits: nat
    const quicklen: array<nat>
    const quicksym: array<nat>

    ghost var lens: seq<byte>    // the table of code lengths the decoder stands for
    ghost const repr: set<object>

    // A decoder for no codewords has nothing in its arrays that is ever looked at.
    ghost predicate Valid()
      reads repr
    {
      Shape() && forall now :: Looked(now) ==> if min == 0 then Empty(lens) else Filled()
    }

    ghost predicate Filled()
      requires Shape()
      reads repr
    {
      && |symbol| == |lens| && Accepted(lens)
      && (forall i :: 0 <= i < 16 ==> limit[i] == Limit(lens, i) && pos[i] == Pos(lens, i))
      && (forall i :: 0 <= i < |lens| ==> symbol[i] == SymbolAt(lens, |lens|, i))
      && 0 < min <= 15 && Limit(lens, min) > 0 && Limit(lens, min - 1) == 0
      && QuickOk()
    }

    ghost predicate QuickOk()
      requires Shape()
      reads repr
    {
      && quickbits <= MAX_QUICK_BITS && Shl(1, quickbits) <= quicklen.Length
      && QuickUpTo(lens, quickbits, Shl(1, quickbits), quicklen[..], quicksym[..])
    }

    // The fixed-size arrays, never shared.
    ghost predicate Shape() {
      && limit.Length == pos.Length == 16 && quicklen.Length == quicksym.Length == 1024
      && limit != pos && quicklen != quicksym
      && this in repr && limit in repr && pos in repr && quicklen in repr && quicksym in repr
    }

    // No codewords yet: every symbol is unused.
    constructor (ghost none: seq<byte>)
      requires forall i :: 0 <= i < |none| ==> none[i] == 0
      ensures Shape() && Valid() && lens == none
      ensures fresh(repr)
    {
      limit, pos, symbol := new nat[16], new nat[16], [];
      quicklen, quicksym := new nat[1024], new nat[1024];
      min, quickbits, lens := 0, 0, none;
      repr := {this, limit, pos, quicklen, quicksym};
      NoneUsed(15, none);
    }

    // Init: the decoder for these code lengths, or an error and nothing changed. The source counts
    // in uint16, which its longest table, of 306, is far from filling.
    method Init(codeLengths: seq<byte>) returns (err: Option<Error>)
      requires Shape() && |codeLengths| < 0x1_0000
      modifies repr
      ensures err == if Accepted(codeLengths) then None else Some(InvalidLengthTable)
      ensures err.None? ==> Valid() && lens == codeLengths
      ensures err.Some? ==> unchanged(repr)
    {
      var count, inRange := CountLengths(codeLengths);
      if !inRange {
        return Some(InvalidLengthTable);
      }
      var sum := Kraft(codeLengths, count);
      if sum > 0x8000 {
        return Some(InvalidLengthTable);
      }
      Build(codeLengths, count);
      err := None;
    }

    // The tables of an accepted code.
    method Build(codeLengths: seq<byte>, count: array<nat>)
      requires Shape() && |codeLengths| < 0x1_0000 && Accepted(codeLengths)
      requires count.Length == 16 && count !in repr && forall j :: 0 <= j < 16 ==> count[j] == Used(codeLengths, j)
      modifies repr
      ensures Valid() && lens == codeLengths
    {
      assert Looked(Now);
      min := FillLimits(codeLengths, count, limit, pos);
      symbol := PlaceSymbols(codeLengths, pos);
      quickbits := if |codeLengths| >= 298 then MAX_QUICK_BITS else MAX_QUICK_BITS - 3;
      lens := codeLengths;
      QuickFits(quickbits);
      FillQuick(codeLengths, quickbits, limit, pos, symbol, quicklen, quicksym);
    }

    // ReadSym: by the quick table when the next bits fall under its limit, by the limits otherwise.
    // Both are the canonical code, and neither sees the zeros past the end of the buffer.
    method Read(r: BR.BitReader) returns (sym: nat, err: Option<Error>)
      requires Valid() && r.Valid() && r !in repr
      modifies r
      ensures r.Valid()
      ensures match ReadSym(lens, old(r.C()))
              case Sym(s, c) => err == None && sym == s && r.C() == c
              case SymErr(e, c) => err == Some(e) && r.C() == c
    {
      assert Looked(Now);
      if min == 0 {
        return 0, Some(HuffDecodeFailed);
      }
      LimitMono(lens, min, 15);
      if r.bitsRead >= r.limit {
        return 0, Some(EOF);
      }
      var v := r.Peek(MAX_LEN);
      ValueBound(r.buf, r.bitsRead, MAX_LEN);
      if v < limit[quickbits] {
        sym, err := TakeQuick(r, v);
      } else {
        sym, err := TakeSlow(r, v);
      }
    }

    // The 15 bits ahead are v, and those of them that are there are cached.
    ghost predicate Ahead(r: BR.BitReader, v: nat)
      reads r
    {
      r.Valid() && v == Value(r.buf, r.bitsRead, MAX_LEN) && v < Shl(1, 15) && r.bitsRead < r.limit
      && (r.n >= MAX_LEN || r.bitsRead + r.n == 8 * |r.buf|)
    }

    method TakeQuick(r: BR.BitReader, v: nat) returns (sym: nat, err: Option<Error>)
      requires Valid() && min > 0 && r !in repr && Ahead(r, v) && v < Limit(lens, quickbits)
      modifies r
      ensures r.Valid()
      ensures match ReadSym(lens, old(r.C()))
              case Sym(s, c) => err == None && sym == s && r.C() == c
              case SymErr(e, c) => err == Some(e) && r.C() == c
    {
      assert Looked(Now);
      LimitMono(lens, min, 15);
      var bits;
      bits, sym := Quick(v);
      if r.bitsRead + bits > r.limit {
        return 0, Some(EOF);
      }
      r.Advance(bits);
      err := None;
    }

    method TakeSlow(r: BR.BitReader, v: nat) returns (sym: nat, err: Option<Error>)
      requires Valid() && min > 0 && r !in repr && Ahead(r, v)
      modifies r
      ensures r.Valid()
      ensures match ReadSym(lens, old(r.C()))
              case Sym(s, c) => err == None && sym == s && r.C() == c
              case SymErr(e, c) => err == Some(e) && r.C() == c
    {
      assert Looked(Now);
      LimitMono(lens, min, 15);
      var bits, p := Slow(v);
      if r.bitsRead + bits > r.limit {
        return 0, Some(EOF);
      }
      r.Advance(bits);
      if p >= |symbol| {
        return 0, Some(HuffDecodeFailed);
      }
      return symbol[p], None;
    }

    method Quick(v: nat) returns (bits: nat, sym: nat)
      requires Shape() && Filled() && v < Shl(1, 15) && v < Limit(lens, quickbits)
      ensures bits == LengthOf(lens, v) && IndexOf(lens, v) < |lens| && sym == SymbolAt(lens, |lens|, IndexOf(lens, v))
    {
      var i := Shr(v, 15 - quickbits);
      QuickAgrees(lens, quickbits, v);
      QuickInTable(v, quickbits);
      LimitMono(lens, quickbits, 15);
      IndexBelow(lens, v);
      assert QuickEntry(lens, quickbits, i, quicklen[i], quicksym[i]);
      return quicklen[i], quicksym[i];
    }

    method Slow(v: nat) returns (bits: nat, p: nat)
      requires Shape() && min > 0 && Filled()
      ensures bits == LengthOf(lens, v) && p == IndexOf(lens, v)
    {
      bits := min;
      LengthReaches(lens, 1, min, v);
      while bits < MAX_LEN && v >= limit[bits]
        invariant min <= bits <= 15 && LengthOf(lens, v) == LengthFrom(lens, bits, v)
        invariant Limit(lens, bits - 1) <= v
      {
        bits := bits + 1;
      }
      p := pos[bits] + Shr(v - limit[bits - 1], 15 - bits);
    }
  }

  ghost predicate QuickEntry(lens: seq<byte>, q: nat, i: nat, len: nat, sym: nat)
    requires q <= 10
  {
    var v := Shl(i, 15 - q);
    len == LengthOf(lens, v) && sym == SymbolOr0(lens, IndexOf(lens, v))
  }

  // The first n entries.
  ghost predicate QuickUpTo(lens: seq<byte>, q: nat, n: nat, ls: seq<nat>, ss: seq<nat>)
    requires q <= 10 && n <= |ls| && n <= |ss|
  {
    forall i :: 0 <= i < n ==> QuickEntry(lens, q, i, ls[i], ss[i])
  }

  lemma {:induction false} QuickOneMore(lens: seq<byte>, q: nat, n: nat, ls: seq<nat>, ss: seq<nat>, ls': seq<nat>, ss': seq<nat>)
    requires q <= 10 && n < |ls| && n < |ss| && QuickUpTo(lens, q, n, ls, ss)
    requires n < |ls'| && n < |ss'| && ls' == ls[n := ls'[n]] && ss' == ss[n := ss'[n]] && QuickEntry(lens, q, n, ls'[n], ss'[n])
    ensures QuickUpTo(lens, q, n + 1, ls', ss')
  {
    forall i | 0 <= i < n + 1 ensures QuickEntry(lens, q, i, ls'[i], ss'[i]) {
      assert i < n ==> ls'[i] == ls[i] && ss'[i] == ss[i];
    }
  }

  lemma {:induction false} QuickInTable(v: nat, q: nat)
    requires v < Shl(1, 15) && q <= 10
    ensures Shr(v, 15 - q) < Shl(1, q)
  {
    ShlShl(1, q, 15 - q);
    ShrBelow(v, 15 - q, Shl(1, q));
  }

  // A codeword under some limit is assigned.
  lemma {:induction false} IndexBelow(lens: seq<byte>, v: nat)
    requires Accepted(lens) && v < Limit(lens, 15)
    ensures IndexOf(lens, v) < |lens|
  {
    var n := FoundAt(lens, 1, 15, v);
    LengthFromIs(lens, 1, n, v);
    ShrBelow(v - Limit(lens, n - 1), 15 - n, Used(lens, n));
    PosMono(lens, n, 16);
    PosTotal(lens, 15);
  }

  // The quick table has room for every value of its bits.
  lemma {:induction false} QuickFits(q: nat)
    requires q <= MAX_QUICK_BITS
    ensures Shl(1, q) <= 1024
    decreases MAX_QUICK_BITS - q
  {
    if q == MAX_QUICK_BITS {
      assert Shl(1, 2) == 4 && Shl(1, 4) == 16;
      assert Shl(1, 6) == 64 && Shl(1, 8) == 256;
      assert Shl(1, q) == 4 * Shl(1, 8);
    } else {
      QuickFits(q + 1);
    }
  }

  method CountLengths(cl: seq<byte>) returns (count: array<nat>, inRange: bool)
    ensures fresh(count) && count.Length == 16
    ensures inRange <==> forall i :: 0 <= i < |cl| ==> cl[i] <= 15
    ensures inRange ==> forall j :: 0 <= j < 16 ==> count[j] == Used(cl, j)
  {
    count := new nat[16](_ => 0);
    for i := 0 to |cl|
      invariant forall j :: 0 <= j < i ==> cl[j] <= 15
      invariant forall j :: 0 <= j < 16 ==> count[j] == Used(cl[..i], j)
    {
      assert cl[..i + 1][..i] == cl[..i];
      var n := cl[i];
      if n > 15 {
        return count, false;
      }
      if n != 0 {
        count[n] := count[n] + 1;
      }
    }
    assert cl[..|cl|] == cl;
    inRange := true;
  }

  // The Kraft sum, scaled to 15 bits.
  method Kraft(cl: seq<byte>, count: array<nat>) returns (sum: nat)
    requires count.Length == 16 && forall j :: 0 <= j < 16 ==> count[j] == Used(cl, j)
    ensures sum == Limit(cl, 15)
  {
    sum := 0;
    var i := 1;
    while i <= MAX_LEN
      invariant 1 <= i <= 16 && sum == Limit(cl, i - 1)
    {
      sum := sum + Shl(count[i], MAX_LEN - i);
      i := i + 1;
    }
  }

  method FillLimits(cl: seq<byte>, count: array<nat>, limit: array<nat>, pos: array<nat>) returns (min: nat)
    requires count.Length == limit.Length == pos.Length == 16 && limit != pos && count != limit && count != pos
    requires forall j :: 0 <= j < 16 ==> count[j] == Used(cl, j)
    modifies limit, pos
    ensures forall j :: 0 <= j < 16 ==> limit[j] == Limit(cl, j) && pos[j] == Pos(cl, j)
    ensures if min == 0 then Empty(cl) else min <= 15 && Limit(cl, min) > 0 && Limit(cl, min - 1) == 0
  {
    pos[0], limit[0], min := 0, 0, 0;
    var i := 1;
    while i <= MAX_LEN
      invariant 1 <= i <= 16
      invariant forall j :: 0 <= j < i ==> limit[j] == Limit(cl, j) && pos[j] == Pos(cl, j)
      invariant if min == 0 then Limit(cl, i - 1) == 0 else min < i && Limit(cl, min) > 0 && Limit(cl, min - 1) == 0
    {
      LimitStep(cl, i);
      limit[i] := limit[i - 1] + Shl(count[i], MAX_LEN - i);
      pos[i] := pos[i - 1] + count[i - 1];
      if min == 0 && limit[i] > 0 {
        min := i;
      }
      i := i + 1;
    }
  }

  lemma {:induction false} LimitStep(cl: seq<byte>, i: nat)
    requires 1 <= i <= 15
    ensures Limit(cl, i) == Limit(cl, i - 1) + Shl(Used(cl, i), MAX_LEN - i) && Pos(cl, i) == Pos(cl, i - 1) + Used(cl, i - 1)
  {
  }

  // symbol and next after the first i symbols, as values.
  ghost predicate Placed(cl: seq<byte>, i: nat, symbol: seq<nat>, next: seq<nat>)
    requires i <= |cl|
  {
    && |symbol| == |cl| && |next| == 16
    && (forall x :: 0 <= x < |symbol| ==> symbol[x] == SymbolAt(cl, i, x))
    && (forall j :: 0 <= j < |next| ==> next[j] == Pos(cl, j) + Used(cl[..i], j))
  }

  lemma {:induction false} PlacedMore(cl: seq<byte>, i: nat, symbol: seq<nat>, next: seq<nat>, symbol': seq<nat>, next': seq<nat>)
    requires i < |cl| && cl[i] <= 15 && Placed(cl, i, symbol, next)
    requires if cl[i] == 0 then symbol' == symbol && next' == next
      else Slot(cl, i) < |cl| && symbol' == symbol[Slot(cl, i) := i] && next' == next[cl[i] := next[cl[i]] + 1]
    ensures Placed(cl, i + 1, symbol', next')
  {
    assert cl[..i + 1][..i] == cl[..i];
  }

  // A stable counting sort of the used symbols by length.
  method PlaceSymbols(cl: seq<byte>, pos: array<nat>) returns (symbol: seq<nat>)
    requires Accepted(cl) && pos.Length == 16 && forall j :: 0 <= j < 16 ==> pos[j] == Pos(cl, j)
    ensures |symbol| == |cl|
    ensures forall x :: 0 <= x < |cl| ==> symbol[x] == SymbolAt(cl, |cl|, x)
  {
    symbol := Repeat(0, |cl|);
    var next := new nat[16](j requires 0 <= j < 16 reads pos => if j < pos.Length then pos[j] else 0);
    for i := 0 to |cl|
      invariant Placed(cl, i, symbol, next[..])
    {
      var n := cl[i];
      ghost var symbol0, next0 := symbol, next[..];
      if n != 0 {
        SlotInTable(cl, i);
        assert next[n] == Slot(cl, i);
        symbol := symbol[next[n] := i];
        next[n] := next[n] + 1;
      }
      PlacedMore(cl, i, symbol0, next0, symbol, next[..]);
    }
  }

  // Walks the quick table's entries in increasing order, so the length only ever grows.
  method FillQuick(cl: seq<byte>, q: nat, limit: array<nat>, pos: array<nat>, symbol: seq<nat>,
                   quicklen: array<nat>, quicksym: array<nat>)
    requires q <= 10 && limit.Length == pos.Length == 16 && quicklen.Length == quicksym.Length >= Shl(1, q)
    requires quicklen != quicksym && |symbol| == |cl|
    requires limit !in {quicklen, quicksym} && pos !in {quicklen, quicksym}
    requires forall j :: 0 <= j < 16 ==> limit[j] == Limit(cl, j) && pos[j] == Pos(cl, j)
    requires forall x :: 0 <= x < |cl| ==> symbol[x] == SymbolAt(cl, |cl|, x)
    modifies quicklen, quicksym
    ensures QuickUpTo(cl, q, Shl(1, q), quicklen[..], quicksym[..])
  {
    var bits := 1;
    for i := 0 to Shl(1, q)
      invariant 1 <= bits <= 15 && Limit(cl, bits - 1) <= Shl(i, 15 - q)
      invariant QuickUpTo(cl, q, i, quicklen[..], quicksym[..])
    {
      var sym;
      bits, sym := QuickAt(cl, q, i, bits, limit, pos, symbol);
      ghost var ls, ss := quicklen[..], quicksym[..];
      quicklen[i], quicksym[i] := bits, sym;
      QuickOneMore(cl, q, i, ls, ss, quicklen[..], quicksym[..]);
      ShlMono(i, i + 1, 15 - q);
    }
  }

  // One entry, from the length of the one before.
  method QuickAt(cl: seq<byte>, q: nat, i: nat, from: nat, limit: array<nat>, pos: array<nat>, symbol: seq<nat>)
    returns (bits: nat, sym: nat)
    requires q <= 10 && limit.Length == pos.Length == 16 && |symbol| == |cl|
    requires forall j :: 0 <= j < 16 ==> limit[j] == Limit(cl, j) && pos[j] == Pos(cl, j)
    requires forall x :: 0 <= x < |cl| ==> symbol[x] == SymbolAt(cl, |cl|, x)
    requires 1 <= from <= 15 && Limit(cl, from - 1) <= Shl(i, 15 - q)
    ensures QuickEntry(cl, q, i, bits, sym) && 1 <= bits <= 15 && Limit(cl, bits - 1) <= Shl(i, 15 - q)
  {
    var v := Shl(i, 15 - q);
    bits := FindLength(cl, v, from, limit);
    sym := FindSymbol(cl, v, bits, limit, pos, symbol);
  }

  // The symbol at v's place.
  method FindSymbol(cl: seq<byte>, v: nat, bits: nat, limit: array<nat>, pos: array<nat>, symbol: seq<nat>) returns (sym: nat)
    requires limit.Length == pos.Length == 16 && |symbol| == |cl|
    requires forall j :: 0 <= j < 16 ==> limit[j] == Limit(cl, j) && pos[j] == Pos(cl, j)
    requires forall x :: 0 <= x < |cl| ==> symbol[x] == SymbolAt(cl, |cl|, x)
    requires bits == LengthOf(cl, v) && Limit(cl, bits - 1) <= v
    ensures sym == SymbolOr0(cl, IndexOf(cl, v))
  {
    var p := pos[bits] + Shr(v - limit[bits - 1], MAX_LEN - bits);
    sym := if p < |symbol| then symbol[p] else 0;
  }

  // The search through the limits, from a length known not to be too long.
  method FindLength(cl: seq<byte>, v: nat, from: nat, limit: array<nat>) returns (bits: nat)
    requires limit.Length == 16 && forall j :: 0 <= j < 16 ==> limit[j] == Limit(cl, j)
    requires 1 <= from <= 15 && Limit(cl, from - 1) <= v
    ensures 1 <= bits <= 15 && bits == LengthOf(cl, v) && Limit(cl, bits - 1) <= v
  {
    bits := from;
    LengthReaches(cl, 1, bits, v);
    while v >= limit[bits] && bits < MAX_LEN
      invariant 1 <= bits <= 15 && Limit(cl, bits - 1) <= v && LengthOf(cl, v) == LengthFrom(cl, bits, v)
    {
      bits := bits + 1;
    }
  }

  lemma {:induction false} LengthReaches(lens: seq<byte>, m: nat, n: nat, v: nat)
    requires 1 <= m <= n <= 15 && Limit(lens, n - 1) <= v
    ensures LengthFrom(lens, m, v) == LengthFrom(lens, n, v)
    decreases n - m
  {
    if m < n {
      LimitMono(lens, m, n - 1);
      LengthReaches(lens, m + 1, n, v);
    }
  }
}
