// The code-length tables of a block as an encoder writes them (huffman.go:150-215,
// decoder50_items.go:21-37).

module TableFormat {
  import opened Basics
  import opened DecodeTypes
  import opened Bits
  import opened Canonical
  import opened CodeTables
  import opened Fields
  import BR = BitReader

  // ---- What is written.

  // The twenty lengths of the code the table itself is written in: one length, or a run of zeros.
  datatype Piece = Length(l: byte) | ZeroRun(n: nat)

  predicate PieceOk(p: Piece) {
    match p
    case Length(l) => l <= 15
    case ZeroRun(n) => 3 <= n <= 17
  }

  function Spread(p: Piece): seq<byte> {
    match p
    case Length(l) => [l]
    case ZeroRun(n) => Zeros(n)
  }

  function PieceFields(p: Piece): seq<Field>
    requires PieceOk(p)
  {
    match p
    case Length(l) => if l < 15 then [Field(l, 4)] else [Field(15, 4), Field(0, 4)]
    case ZeroRun(n) => [Field(15, 4), Field(n - 2, 4)]
  }

  // A table's entries: one, some more of the last, or some zeros.
  datatype Run = Put(l: byte) | Again(n: nat) | Nothing(n: nat)

  predicate RunOk(r: Run, acc: seq<byte>) {
    match r
    case Put(l) => l <= 15
    case Again(n) => 3 <= n <= 138 && acc != []
    case Nothing(n) => 3 <= n <= 138
  }

  // Short runs take three bits, longer ones seven.
  function RunSymbol(r: Run): nat {
    match r
    case Put(l) => l
    case Again(n) => if n <= 10 then 16 else 17
    case Nothing(n) => if n <= 10 then 18 else 19
  }

  function RunCount(r: Run): seq<Field>
    requires !r.Put? ==> 3 <= r.n
  {
    if r.Put? then [] else if r.n <= 10 then [Field(r.n - 3, 3)] else [Field(r.n - 11, 7)]
  }

  function RunFields(bl: seq<byte>, r: Run): seq<Field>
    requires Coded(bl, RunSymbol(r)) && (!r.Put? ==> 3 <= r.n)
  {
    [Codeword(bl, RunSymbol(r))] + RunCount(r)
  }

  function SpreadRun(acc: seq<byte>, r: Run): seq<byte>
    requires RunOk(r, acc)
  {
    match r
    case Put(l) => acc + [l]
    case Again(n) => acc + Repeat(acc[|acc| - 1], n)
    case Nothing(n) => acc + Zeros(n)
  }

  // ---- What is read.

  predicate GaveRun(r: RunRead, value: byte, n: nat, c: Cursor, fs: seq<Field>) {
    r == if Fits(c, fs) then RunRead(value, n, Past(c, fs)) else RunErr(EOF, Reached(c, fs))
  }

  lemma {:induction false} PieceRead(c: Cursor, p: Piece)
    requires PieceOk(p) && Says(c, PieceFields(p)) && c.pos <= c.limit
    ensures var s := Spread(p); GaveRun(BitLengthAt(c), s[0], |s|, c, PieceFields(p))
  {
    if p.Length? && p.l < 15 {
      NumberRead(c, Field(p.l, 4));
    } else {
      EscapeRead(c, if p.Length? then 0 else p.n - 2);
    }
  }

  lemma {:induction false} EscapeRead(c: Cursor, x: nat)
    requires x <= 15 && Says(c, [Field(15, 4), Field(x, 4)]) && c.pos <= c.limit
    ensures GaveRun(BitLengthAt(c), if x == 0 then 15 else 0, if x == 0 then 1 else x + 2, c, [Field(15, 4), Field(x, 4)])
  {
    var a, b := [Field(15, 4)], [Field(x, 4)];
    assert a + b == [Field(15, 4), Field(x, 4)];
    SaysSplit(c, a, b);
    WidthSplit(a, b);
    NumberRead(c, a[0]);
    if Fits(c, a) {
      NumberRead(Past(c, a), b[0]);
    }
  }

  lemma {:induction false} RunIsRead(bl: seq<byte>, c: Cursor, r: Run, acc: seq<byte>)
    requires Accepted(bl) && RunOk(r, acc) && Coded(bl, RunSymbol(r)) && Says(c, RunFields(bl, r)) && c.pos <= c.limit
    ensures var n := |SpreadRun(acc, r)| - |acc|;
      GaveRun(RunAt(bl, c, acc), SpreadRun(acc, r)[|acc|], n, c, RunFields(bl, r))
  {
    var a, b := [Codeword(bl, RunSymbol(r))], RunCount(r);
    SaysSplit(c, a, b);
    WidthSplit(a, b);
    SymbolRead(bl, RunSymbol(r), c);
    if b != [] && Fits(c, a) {
      NumberRead(Past(c, a), b[0]);
    }
  }

  // ---- A whole table.

  // Entries past the table's end are dropped.
  function Clip(s: seq<byte>, size: nat): seq<byte> {
    s[..Min(size, |s|)]
  }

  // The pieces fill the twenty places, none to spare.
  predicate PiecesOk(acc: seq<byte>, ps: seq<Piece>)
    decreases |ps|
  {
    if ps == [] then |acc| == BIT_LENGTHS
    else |acc| < BIT_LENGTHS && PieceOk(ps[0]) && PiecesOk(Clip(acc + Spread(ps[0]), BIT_LENGTHS), ps[1..])
  }

  function PiecesFields(ps: seq<Piece>): seq<Field>
    requires forall i :: 0 <= i < |ps| ==> PieceOk(ps[i])
  {
    if ps == [] then [] else PieceFields(ps[0]) + PiecesFields(ps[1..])
  }

  function SpreadPieces(acc: seq<byte>, ps: seq<Piece>): seq<byte>
    decreases |ps|
  {
    if ps == [] then acc else SpreadPieces(Clip(acc + Spread(ps[0]), BIT_LENGTHS), ps[1..])
  }

  lemma {:induction false} AllPiecesOk(acc: seq<byte>, ps: seq<Piece>)
    requires PiecesOk(acc, ps)
    ensures forall i :: 0 <= i < |ps| ==> PieceOk(ps[i])
    ensures |SpreadPieces(acc, ps)| == BIT_LENGTHS
    decreases |ps|
  {
    if ps != [] {
      AllPiecesOk(Clip(acc + Spread(ps[0]), BIT_LENGTHS), ps[1..]);
      forall i | 0 <= i < |ps| ensures PieceOk(ps[i]) {
        assert i > 0 ==> ps[i] == ps[1..][i - 1];
      }
    }
  }

  lemma {:induction false} ClipExtend(acc: seq<byte>, s: seq<byte>, size: nat)
    requires |acc| <= size && s != [] && forall i :: 0 <= i < |s| ==> s[i] == s[0]
    ensures Extend(acc, s[0], |s|, size) == Clip(acc + s, size)
  {
  }

  predicate GaveTable(r: TableRead, cl: seq<byte>, c: Cursor, fs: seq<Field>) {
    r == if Fits(c, fs) then TablesOk(cl, Past(c, fs)) else TablesErr(EOF, Reached(c, fs))
  }

  lemma {:induction false} PiecesRead(c: Cursor, acc: seq<byte>, ps: seq<Piece>)
    requires PiecesOk(acc, ps) && |acc| <= BIT_LENGTHS && c.pos <= c.limit
    requires (forall i :: 0 <= i < |ps| ==> PieceOk(ps[i])) && Says(c, PiecesFields(ps))
    ensures GaveTable(BitLengths(c, acc), SpreadPieces(acc, ps), c, PiecesFields(ps))
    decreases |ps|
  {
    if ps != [] {
      var a, b := PieceFields(ps[0]), PiecesFields(ps[1..]);
      SaysSplit(c, a, b);
      WidthSplit(a, b);
      PieceRead(c, ps[0]);
      if Fits(c, a) {
        ClipExtend(acc, Spread(ps[0]), BIT_LENGTHS);
        PiecesRead(Past(c, a), Clip(acc + Spread(ps[0]), BIT_LENGTHS), ps[1..]);
      }
    }
  }

  // The runs fill the table, each with a codeword for its symbol.
  predicate RunsOk(bl: seq<byte>, acc: seq<byte>, rs: seq<Run>, size: nat)
    decreases |rs|
  {
    if rs == [] then |acc| == size
    else
      && |acc| < size && RunOk(rs[0], acc) && Coded(bl, RunSymbol(rs[0]))
      && RunsOk(bl, Clip(SpreadRun(acc, rs[0]), size), rs[1..], size)
  }

  function RunsFields(bl: seq<byte>, acc: seq<byte>, rs: seq<Run>, size: nat): seq<Field>
    requires RunsOk(bl, acc, rs, size)
    decreases |rs|
  {
    if rs == [] then [] else RunFields(bl, rs[0]) + RunsFields(bl, Clip(SpreadRun(acc, rs[0]), size), rs[1..], size)
  }

  function SpreadRuns(bl: seq<byte>, acc: seq<byte>, rs: seq<Run>, size: nat): (cl: seq<byte>)
    requires RunsOk(bl, acc, rs, size)
    ensures |cl| == size
    decreases |rs|
  {
    if rs == [] then acc else SpreadRuns(bl, Clip(SpreadRun(acc, rs[0]), size), rs[1..], size)
  }

  // One step of it.
  lemma {:induction false} RunTaken(bl: seq<byte>, c: Cursor, acc: seq<byte>, r: Run, size: nat)
    requires Accepted(bl) && RunOk(r, acc) && Coded(bl, RunSymbol(r)) && Says(c, RunFields(bl, r)) && c.pos <= c.limit && |acc| < size
    ensures var fs := RunFields(bl, r);
      if Fits(c, fs) then CodeLengths(bl, c, acc, size) == CodeLengths(bl, Past(c, fs), Clip(SpreadRun(acc, r), size), size)
      else CodeLengths(bl, c, acc, size) == TablesErr(EOF, Reached(c, fs))
  {
    RunIsRead(bl, c, r, acc);
    var s := SpreadRun(acc, r);
    ClipExtend(acc, s[|acc|..], size);
    assert acc + s[|acc|..] == s;
  }

  lemma {:induction false} RunsRead(bl: seq<byte>, c: Cursor, acc: seq<byte>, rs: seq<Run>, size: nat)
    requires Accepted(bl) && RunsOk(bl, acc, rs, size) && |acc| <= size && c.pos <= c.limit && Says(c, RunsFields(bl, acc, rs, size))
    ensures GaveTable(CodeLengths(bl, c, acc, size), SpreadRuns(bl, acc, rs, size), c, RunsFields(bl, acc, rs, size))
    decreases |rs|
  {
    if rs != [] {
      var next := Clip(SpreadRun(acc, rs[0]), size);
      var a, b := RunFields(bl, rs[0]), RunsFields(bl, next, rs[1..], size);
      SaysSplit(c, a, b);
      WidthSplit(a, b);
      RunTaken(bl, c, acc, rs[0], size);
      if Fits(c, a) {
        RunsRead(bl, Past(c, a), next, rs[1..], size);
      }
    }
  }

  // A table as it is written: the pieces of its own code, and the runs in that code.
  datatype Text = Text(pieces: seq<Piece>, runs: seq<Run>)

  predicate TextOk(t: Text, size: nat) {
    && PiecesOk([], t.pieces) && Accepted(SpreadPieces([], t.pieces))
    && RunsOk(SpreadPieces([], t.pieces), [], t.runs, size)
  }

  function TextFields(t: Text, size: nat): seq<Field>
    requires TextOk(t, size)
  {
    AllPiecesOk([], t.pieces);
    PiecesFields(t.pieces) + RunsFields(SpreadPieces([], t.pieces), [], t.runs, size)
  }

  function TextTable(t: Text, size: nat): (cl: seq<byte>)
    requires TextOk(t, size)
    ensures |cl| == size
  {
    SpreadRuns(SpreadPieces([], t.pieces), [], t.runs, size)
  }

  // However a table is written, with whatever runs, it reads back; cut off by the limit it is the end of
  // the data.
  lemma {:induction false} TextRead(t: Text, size: nat, c: Cursor)
    requires TextOk(t, size) && c.pos <= c.limit && Says(c, TextFields(t, size))
    ensures GaveTable(ReadTable(c, size), TextTable(t, size), c, TextFields(t, size))
  {
    AllPiecesOk([], t.pieces);
    var bl := SpreadPieces([], t.pieces);
    var a, b := PiecesFields(t.pieces), RunsFields(bl, [], t.runs, size);
    SaysSplit(c, a, b);
    WidthSplit(a, b);
    PiecesRead(c, [], t.pieces);
    if Fits(c, a) {
      RunsRead(bl, Past(c, a), [], t.runs, size);
    }
  }

  // A code that is over-full is refused before anything is read in it.
  lemma {:induction false} OverfullRefused(ps: seq<Piece>, size: nat, c: Cursor)
    requires PiecesOk([], ps) && !Accepted(SpreadPieces([], ps)) && c.pos <= c.limit
    requires (forall i :: 0 <= i < |ps| ==> PieceOk(ps[i])) && Says(c, PiecesFields(ps)) && Fits(c, PiecesFields(ps))
    ensures ReadTable(c, size) == TablesErr(InvalidLengthTable, Past(c, PiecesFields(ps)))
  {
    PiecesRead(c, [], ps);
  }

  // So is a table that starts by repeating an entry it does not have.
  lemma {:induction false} RepeatRefused(ps: seq<Piece>, n: nat, size: nat, c: Cursor)
    requires PiecesOk([], ps) && Accepted(SpreadPieces([], ps)) && c.pos <= c.limit && size > 0 && 3 <= n <= 138
    requires Coded(SpreadPieces([], ps), RunSymbol(Again(n))) && forall i :: 0 <= i < |ps| ==> PieceOk(ps[i])
    requires var fs := PiecesFields(ps) + RunFields(SpreadPieces([], ps), Again(n)); Says(c, fs) && Fits(c, fs)
    ensures ReadTable(c, size).TablesErr? && ReadTable(c, size).err == InvalidLengthTable
  {
    var bl, fs, gs := SpreadPieces([], ps), PiecesFields(ps), RunFields(SpreadPieces([], ps), Again(n));
    var s, count := [Codeword(bl, RunSymbol(Again(n)))], RunCount(Again(n));
    SaysSplit(c, fs, gs);
    WidthSplit(fs, gs);
    SaysSplit(Past(c, fs), s, count);
    WidthSplit(s, count);
    PiecesRead(c, [], ps);
    SymbolRead(bl, RunSymbol(Again(n)), Past(c, fs));
    NumberRead(Past(Past(c, fs), s), count[0]);
  }

  // The four tables are written one after another: symbols, distances, low offsets, lengths.
  lemma {:induction false} TablesLoaded(ts: Tables)
    requires AllAccepted(ts)
    ensures |ts.main + ts.offset + ts.lowoffset + ts.length| == TABLE_SIZE
    ensures Load(ts.main + ts.offset + ts.lowoffset + ts.length) == Some(ts)
  {
    var cl := ts.main + ts.offset + ts.lowoffset + ts.length;
    assert cl[..MAIN_SIZE] == ts.main;
    assert cl[MAIN_SIZE..MAIN_SIZE + OFFSET_SIZE] == ts.offset;
    assert cl[MAIN_SIZE + OFFSET_SIZE..MAIN_SIZE + OFFSET_SIZE + LOW_OFFSET_SIZE] == ts.lowoffset;
    assert cl[MAIN_SIZE + OFFSET_SIZE + LOW_OFFSET_SIZE..] == ts.length;
  }

  // ---- Every table can be written: an entry at a time, in a code of sixteen four-bit words.

  function FLAT(): seq<byte> {
    Repeat(4, 16) + Zeros(4)
  }

  lemma {:induction false} CountRepeat(x: byte, n: nat, k: nat)
    ensures Count(Repeat(x, n), k) == if k == x then n else 0
  {
    if n > 0 {
      var s := Repeat(x, n);
      assert s[..|s| - 1] == Repeat(x, n - 1);
      CountRepeat(x, n - 1, k);
    }
  }

  lemma {:induction false} CountZeros(s: seq<byte>, n: nat, k: nat)
    requires k > 0
    ensures Count(s + Zeros(n), k) == Count(s, k)
  {
    var t := s + Zeros(n);
    if n == 0 {
      assert t == s;
    } else {
      assert t[..|t| - 1] == s + Zeros(n - 1);
      CountZeros(s, n - 1, k);
    }
  }

  lemma {:induction false} FlatLimit(n: nat)
    requires n <= 15
    ensures Limit(FLAT(), n) == if n < 4 then 0 else Shl(16, 11)
  {
    if n > 0 {
      FlatLimit(n - 1);
      CountZeros(Repeat(4, 16), 4, n);
      CountRepeat(4, 16, n);
      NoShift(15 - n);
    }
  }

  lemma {:induction false} FlatAccepted()
    ensures |FLAT()| == BIT_LENGTHS && Accepted(FLAT()) && forall l :: 0 <= l < 16 ==> Coded(FLAT(), l)
  {
    FlatLimit(15);
    assert Shl(16, 5) == 512 && Shl(16, 8) == 8 * Shl(16, 5) && Shl(16, 11) == 8 * Shl(16, 8);
  }

  function Puts(cl: seq<byte>): (rs: seq<Run>)
    ensures |rs| == |cl|
  {
    if cl == [] then [] else [Put(cl[0])] + Puts(cl[1..])
  }

  function Lengths(bl: seq<byte>): (ps: seq<Piece>)
    ensures |ps| == |bl|
  {
    if bl == [] then [] else [Length(bl[0])] + Lengths(bl[1..])
  }

  lemma {:induction false} LengthsOk(acc: seq<byte>, bl: seq<byte>)
    requires |acc| + |bl| == BIT_LENGTHS && AtMost15(bl)
    ensures PiecesOk(acc, Lengths(bl)) && SpreadPieces(acc, Lengths(bl)) == acc + bl
    decreases |bl|
  {
    if bl == [] {
      assert acc + bl == acc;
    } else {
      assert Clip(acc + [bl[0]], BIT_LENGTHS) == acc + [bl[0]];
      LengthsOk(acc + [bl[0]], bl[1..]);
      assert acc + bl == (acc + [bl[0]]) + bl[1..];
    }
  }

  lemma {:induction false} PutsOk(bl: seq<byte>, acc: seq<byte>, cl: seq<byte>, size: nat)
    requires |acc| + |cl| == size && AtMost15(cl) && forall l :: 0 <= l < 16 ==> Coded(bl, l)
    ensures RunsOk(bl, acc, Puts(cl), size) && SpreadRuns(bl, acc, Puts(cl), size) == acc + cl
    decreases |cl|
  {
    if cl == [] {
      assert acc + cl == acc;
    } else {
      assert Clip(acc + [cl[0]], size) == acc + [cl[0]];
      PutsOk(bl, acc + [cl[0]], cl[1..], size);
      assert acc + cl == (acc + [cl[0]]) + cl[1..];
    }
  }

  // Any four tables a decoder accepts can be written, and are what reading and loading them gives.
  lemma {:induction false} TablesRoundTrip(ts: Tables) returns (t: Text)
    requires AllAccepted(ts)
    ensures TextOk(t, TABLE_SIZE) && Load(TextTable(t, TABLE_SIZE)) == Some(ts)
  {
    var cl := ts.main + ts.offset + ts.lowoffset + ts.length;
    TablesLoaded(ts);
    AllAtMost15(ts);
    t := Spelled(cl, TABLE_SIZE);
  }

  lemma {:induction false} Joined15(a: seq<byte>, b: seq<byte>)
    requires AtMost15(a) && AtMost15(b)
    ensures AtMost15(a + b)
  {
  }

  lemma {:induction false} AllAtMost15(ts: Tables)
    requires AllAccepted(ts)
    ensures AtMost15(ts.main + ts.offset + ts.lowoffset + ts.length)
  {
    Joined15(ts.main, ts.offset);
    Joined15(ts.main + ts.offset, ts.lowoffset);
    Joined15(ts.main + ts.offset + ts.lowoffset, ts.length);
  }

  // Any lengths up to 15 can be written.
  lemma {:induction false} Spelled(cl: seq<byte>, size: nat) returns (t: Text)
    requires |cl| == size && AtMost15(cl)
    ensures TextOk(t, size) && TextTable(t, size) == cl
  {
    FlatAccepted();
    LengthsOk([], FLAT());
    Nothing(FLAT());
    PutsOk(FLAT(), [], cl, size);
    Nothing(cl);
    t := Text(Lengths(FLAT()), Puts(cl));
  }

  lemma {:induction false} Nothing(s: seq<byte>)
    ensures [] + s == s
  {
  }
}
