// readCodeLengthTable and tableSet.load: the tables a block may start with (huffman.go:150-215,
// decoder50_items.go:21-37).

module CodeTables {
  import opened Basics
  import opened DecodeTypes
  import opened Bits
  import opened Canonical
  import BR = BitReader
  import H = Huffman

  const BIT_LENGTHS: nat := 20

  // s with n copies of x, cut off at size.
  function Extend(s: seq<byte>, x: byte, n: nat, size: nat): (r: seq<byte>)
    requires |s| <= size
    ensures |r| == Min(|s| + n, size) && s <= r && forall i :: |s| <= i < |r| ==> r[i] == x
  {
    s + Repeat(x, Min(n, size - |s|))
  }

  // One symbol of a table: a value, and how many entries get it.
  datatype RunRead = RunRead(value: byte, run: nat, cur: Cursor) | RunErr(err: Error, cur: Cursor)

  // A 4-bit length: 15 is an escape for a run of zeros.
  function BitLengthAt(c: Cursor): (r: RunRead)
    ensures if r.RunRead? then r.run > 0 && r.value <= 15 else r.err == EOF
  {
    match BR.ReadBits(c, 4)
    case BitsEOF => RunErr(EOF, c)
    case BitsRead(n, c1) =>
      if n != 15 then RunRead(n % 16, 1, c1) else EscapeAt(c1)
  }

  // After the escape: how many zeros, two fewer than there are, or none for a length of 15.
  function EscapeAt(c: Cursor): (r: RunRead)
    ensures if r.RunRead? then r.run > 0 && r.value <= 15 else r.err == EOF
  {
    match BR.ReadBits(c, 4)
    case BitsEOF => RunErr(EOF, c)
    case BitsRead(0, c1) => RunRead(15, 1, c1)
    case BitsRead(cnt, c1) => RunRead(0, cnt + 2, c1)
  }

  // The twenty lengths the table itself is coded with.
  function BitLengths(c: Cursor, acc: seq<byte>): (r: TableRead)
    requires |acc| <= BIT_LENGTHS
    ensures r.TablesOk? ==> |r.codeLength| == BIT_LENGTHS
    ensures r.TablesErr? ==> r.err == EOF
    decreases BIT_LENGTHS - |acc|
  {
    if |acc| == BIT_LENGTHS then TablesOk(acc, c)
    else
      match BitLengthAt(c)
      case RunErr(err, c1) => TablesErr(err, c1)
      case RunRead(value, run, c1) => BitLengths(c1, Extend(acc, value, run, BIT_LENGTHS))
  }

  // The run symbols 16..19: how many bits count the run, from what base.
  function RunBits(l: nat): nat { if l == 16 || l == 18 then 3 else 7 }
  function RunBase(l: nat): nat { if l == 16 || l == 18 then 3 else 11 }

  // What comes after the lengths acc. A repeat copies an entry this very read has written: what the array
  // held before plays no part.
  function RunAt(bl: seq<byte>, c: Cursor, acc: seq<byte>): (r: RunRead)
    ensures if r.RunRead? then r.run > 0 else r.err == EOF || r.err == HuffDecodeFailed || r.err == InvalidLengthTable
  {
    match ReadSym(bl, c)
    case SymErr(err, c1) => RunErr(err, c1)
    case Sym(l, c1) =>
      if l < 16 then RunRead(l, 1, c1) else RunOf(l, c1, acc)
  }

  function RunOf(l: nat, c: Cursor, acc: seq<byte>): (r: RunRead)
    requires l >= 16
    ensures if r.RunRead? then r.run > 0 else r.err == EOF || r.err == InvalidLengthTable
  {
    match BR.ReadBits(c, RunBits(l))
    case BitsEOF => RunErr(EOF, c)
    case BitsRead(x, c1) =>
      if l < 18 && acc == [] then RunErr(InvalidLengthTable, c1)
      else RunRead(if l < 18 then acc[|acc| - 1] else 0, x + RunBase(l), c1)
  }

  // The code lengths themselves.
  function CodeLengths(bl: seq<byte>, c: Cursor, acc: seq<byte>, size: nat): (r: TableRead)
    requires |acc| <= size
    ensures if r.TablesOk? then |r.codeLength| == size else r.err == EOF || r.err == HuffDecodeFailed || r.err == InvalidLengthTable
    decreases size - |acc|
  {
    if |acc| == size then TablesOk(acc, c)
    else
      match RunAt(bl, c, acc)
      case RunErr(err, c1) => TablesErr(err, c1)
      case RunRead(value, run, c1) => CodeLengths(bl, c1, Extend(acc, value, run, size), size)
  }

  function ReadTable(c: Cursor, size: nat): (r: TableRead)
    ensures if r.TablesOk? then |r.codeLength| == size else r.err == EOF || r.err == HuffDecodeFailed || r.err == InvalidLengthTable
  {
    match BitLengths(c, [])
    case TablesErr(err, c1) => TablesErr(err, c1)
    case TablesOk(bl, c1) =>
      if Accepted(bl) then CodeLengths(bl, c1, [], size) else TablesErr(InvalidLengthTable, c1)
  }

  predicate AtMost15(cl: seq<byte>) {
    forall i :: 0 <= i < |cl| ==> cl[i] <= 15
  }

  // No length that can be read is above 15: a table is refused only for what its lengths add up to.
  lemma {:induction false} CodeLengthsInRange(bl: seq<byte>, c: Cursor, acc: seq<byte>, size: nat)
    requires |acc| <= size && AtMost15(acc)
    ensures var r := CodeLengths(bl, c, acc, size); r.TablesOk? ==> AtMost15(r.codeLength)
    decreases size - |acc|
  {
    if |acc| < size {
      var r := RunAt(bl, c, acc);
      if r.RunRead? {
        RunInRange(bl, c, acc);
        CodeLengthsInRange(bl, r.cur, Extend(acc, r.value, r.run, size), size);
      }
    }
  }

  lemma {:induction false} RunInRange(bl: seq<byte>, c: Cursor, acc: seq<byte>)
    requires AtMost15(acc)
    ensures var r := RunAt(bl, c, acc); r.RunRead? ==> r.value <= 15
  {
  }

  lemma {:induction false} RefusedByKraft(c: Cursor)
    ensures var r := ReadTable(c, TABLE_SIZE);
      r.TablesOk? ==> (Load(r.codeLength).None? <==>
        var ts := Cut(r.codeLength);
        Limit(ts.main, 15) > 0x8000 || Limit(ts.offset, 15) > 0x8000 || Limit(ts.lowoffset, 15) > 0x8000 || Limit(ts.length, 15) > 0x8000)
  {
    var bl := BitLengths(c, []);
    if bl.TablesOk? {
      CodeLengthsInRange(bl.codeLength, bl.cur, [], TABLE_SIZE);
    }
  }

  // tableSet.load cuts the table in four.
  function Cut(cl: seq<byte>): Tables
    requires |cl| == TABLE_SIZE
  {
    TableSet(cl[..MAIN_SIZE], cl[MAIN_SIZE..MAIN_SIZE + OFFSET_SIZE],
             cl[MAIN_SIZE + OFFSET_SIZE..MAIN_SIZE + OFFSET_SIZE + LOW_OFFSET_SIZE],
             cl[MAIN_SIZE + OFFSET_SIZE + LOW_OFFSET_SIZE..])
  }

  predicate AllAccepted(ts: Tables) {
    Accepted(ts.main) && Accepted(ts.offset) && Accepted(ts.lowoffset) && Accepted(ts.length)
  }

  function Load(cl: seq<byte>): Option<Tables> {
    if |cl| == TABLE_SIZE && AllAccepted(Cut(cl)) then Some(Cut(cl)) else None
  }

  method ReadNibble(br: BR.BitReader) returns (x: nat, err: Option<Error>)
    requires br.Valid()
    modifies br
    ensures br.Valid() && x < 16
    ensures match BR.ReadBits(old(br.C()), 4)
            case BitsEOF => err == Some(EOF) && br.C() == old(br.C())
            case BitsRead(y, c) => err == None && x == y && br.C() == c
  {
    ValueBound(br.buf, br.bitsRead, 4);
    x, err := br.Read(4);
  }

  // One entry: value n, run times.
  method NextBitLength(br: BR.BitReader) returns (n: byte, run: nat, err: Option<Error>)
    requires br.Valid()
    modifies br
    ensures br.Valid()
    ensures BitLengthAt(old(br.C())) == if err.None? then RunRead(n, run, br.C()) else RunErr(err.value, br.C())
  {
    n, run := 0, 1;
    var x;
    x, err := ReadNibble(br);
    if err.Some? {
      return;
    }
    if x != 0xf {
      return x, 1, None;
    }
    n, run, err := ReadEscape(br);
  }

  method ReadEscape(br: BR.BitReader) returns (n: byte, run: nat, err: Option<Error>)
    requires br.Valid()
    modifies br
    ensures br.Valid()
    ensures EscapeAt(old(br.C())) == if err.None? then RunRead(n, run, br.C()) else RunErr(err.value, br.C())
  {
    n, run := 0, 1;
    var x;
    x, err := ReadNibble(br);
    if err.Some? {
      return;
    }
    if x == 0 {
      return 0xf, 1, None;
    }
    return 0, x + 2, None;
  }

  method ReadBitLengths(br: BR.BitReader) returns (bitlength: array<byte>, err: Option<Error>)
    requires br.Valid()
    modifies br
    ensures br.Valid() && fresh(bitlength)
    ensures match BitLengths(old(br.C()), [])
            case TablesErr(e, c) => err == Some(e) && br.C() == c
            case TablesOk(bl, c) => err == None && br.C() == c && bitlength[..] == bl
  {
    bitlength := new byte[BIT_LENGTHS](_ => 0);
    ghost var whole := BitLengths(br.C(), []);
    err := None;
    var i := 0;
    while i < BIT_LENGTHS
      invariant br.Valid() && fresh(bitlength) && bitlength.Length == BIT_LENGTHS && i >= 0 && err.None?
      invariant forall j :: i <= j < BIT_LENGTHS ==> bitlength[j] == 0
      invariant whole == BitLengths(br.C(), bitlength[..Min(i, BIT_LENGTHS)])
    {
      i, err := ReadBitRun(br, bitlength, i, whole);
      if err.Some? {
        return;
      }
    }
    assert bitlength[..BIT_LENGTHS] == bitlength[..];
  }

  // One bit length, or a run of zeros, which the array holds from the start.
  method ReadBitRun(br: BR.BitReader, bitlength: array<byte>, i0: nat, ghost whole: TableRead) returns (i: nat, err: Option<Error>)
    requires br.Valid() && i0 < BIT_LENGTHS == bitlength.Length && whole == BitLengths(br.C(), bitlength[..i0])
    requires forall j :: i0 <= j < BIT_LENGTHS ==> bitlength[j] == 0
    modifies br, bitlength
    ensures br.Valid() && (err.Some? ==> whole == TablesErr(err.value, br.C()))
    ensures err.None? ==> i0 < i && whole == BitLengths(br.C(), bitlength[..Min(i, BIT_LENGTHS)])
    ensures forall j :: i <= j < BIT_LENGTHS ==> bitlength[j] == 0
  {
    ghost var acc := bitlength[..i0];
    var n, run;
    n, run, err := NextBitLength(br);
    i := i0 + run;
    if err.Some? {
      return;
    }
    bitlength[i0] := n;
    assert bitlength[..Min(i, BIT_LENGTHS)] == Extend(acc, n, run, BIT_LENGTHS);
  }

  // codeLength[i..] gets as many copies of value as fit.
  method WriteRun(codeLength: array<byte>, i0: nat, value: byte, count0: nat) returns (i: nat)
    requires i0 < codeLength.Length
    modifies codeLength
    ensures i == Min(i0 + count0, codeLength.Length)
    ensures codeLength[..i] == Extend(old(codeLength[..i0]), value, count0, codeLength.Length)
  {
    var count := count0;
    i := i0;
    while count > 0 && i < codeLength.Length
      invariant i0 <= i <= codeLength.Length && i - i0 == count0 - count && count >= 0
      invariant codeLength[..i0] == old(codeLength[..i0]) && forall j :: i0 <= j < i ==> codeLength[j] == value
    {
      codeLength[i] := value;
      count := count - 1;
      i := i + 1;
    }
  }

  // One symbol of the table: value, run times.
  method NextRun(br: BR.BitReader, codeLength: array<byte>, i: nat, scratch: H.HuffmanDecoder)
    returns (value: byte, run: nat, err: Option<Error>)
    requires br.Valid() && scratch.Valid() && br !in scratch.repr && i < codeLength.Length
    modifies br
    ensures br.Valid()
    ensures RunAt(scratch.lens, old(br.C()), codeLength[..i]) == if err.None? then RunRead(value, run, br.C()) else RunErr(err.value, br.C())
  {
    value, run := 0, 1;
    var l;
    l, err := scratch.Read(br);
    if err.Some? {
      return;
    }
    if l < 16 {
      value := l;
      return;
    }
    value, run, err := ReadRun(br, codeLength, i, l);
  }

  // A run symbol's count and the value it repeats.
  method ReadRun(br: BR.BitReader, codeLength: array<byte>, i: nat, l: nat) returns (value: byte, run: nat, err: Option<Error>)
    requires br.Valid() && i < codeLength.Length && l >= 16
    modifies br
    ensures br.Valid()
    ensures RunOf(l, old(br.C()), codeLength[..i]) == if err.None? then RunRead(value, run, br.C()) else RunErr(err.value, br.C())
  {
    value, run := 0, 1;
    var x;
    x, err := br.Read(RunBits(l));
    if err.Some? {
      return;
    }
    run := x + RunBase(l);
    if l < 18 {
      if i == 0 {
        err := Some(InvalidLengthTable);
        return;
      }
      value := codeLength[i - 1];
    }
  }

  method ReadCodeLengths(br: BR.BitReader, codeLength: array<byte>, scratch: H.HuffmanDecoder) returns (err: Option<Error>)
    requires br.Valid() && scratch.Valid() && br !in scratch.repr && codeLength !in scratch.repr
    modifies br, codeLength
    ensures br.Valid()
    ensures match CodeLengths(scratch.lens, old(br.C()), [], codeLength.Length)
            case TablesErr(e, c) => err == Some(e) && br.C() == c
            case TablesOk(cl, c) => err == None && br.C() == c && codeLength[..] == cl
  {
    var i := 0;
    ghost var bl, size := scratch.lens, codeLength.Length;
    ghost var whole := CodeLengths(bl, br.C(), [], size);
    while i < codeLength.Length
      invariant br.Valid() && scratch.Valid() && scratch.lens == bl && 0 <= i <= size
      invariant whole == CodeLengths(bl, br.C(), codeLength[..i], size)
    {
      var value, run;
      value, run, err := NextRun(br, codeLength, i, scratch);
      if err.Some? {
        return;
      }
      i := WriteRun(codeLength, i, value, run);
    }
    assert codeLength[..size] == codeLength[..];
    err := None;
  }

  method ReadCodeLengthTable(br: BR.BitReader, codeLength: array<byte>, scratch: H.HuffmanDecoder) returns (err: Option<Error>)
    requires br.Valid() && scratch.Shape() && br !in scratch.repr && codeLength !in scratch.repr
    modifies br, codeLength, scratch.repr
    ensures br.Valid()
    ensures match ReadTable(old(br.C()), codeLength.Length)
            case TablesErr(e, c) => err == Some(e) && br.C() == c
            case TablesOk(cl, c) => err == None && br.C() == c && codeLength[..] == cl
  {
    var bitlength;
    bitlength, err := ReadBitLengths(br);
    if err.Some? {
      return;
    }
    err := scratch.Init(bitlength[..]);
    if err.Some? {
      return;
    }
    err := ReadCodeLengths(br, codeLength, scratch);
  }
}
