// A bit stream as what an encoder puts into it: numbers of given widths, one after another.

module Fields {
  import opened Basics
  import opened DecodeTypes
  import opened Bits
  import opened Canonical
  import BR = BitReader

  datatype Field = Field(value: nat, width: nat)

  function Width(fs: seq<Field>): nat {
    if fs == [] then 0 else fs[0].width + Width(fs[1..])
  }

  function Past(c: Cursor, fs: seq<Field>): (r: Cursor)
    ensures r.buf == c.buf && r.limit == c.limit
  {
    c.(pos := c.pos + Width(fs))
  }

  // The bits from c on say fs, whether or not the limit lets them all be read.
  predicate Says(c: Cursor, fs: seq<Field>)
    decreases |fs|
  {
    fs == [] || (Value(c.buf, c.pos, fs[0].width) == fs[0].value && Says(c.(pos := c.pos + fs[0].width), fs[1..]))
  }

  // They can all be read.
  predicate Fits(c: Cursor, fs: seq<Field>) {
    c.pos + Width(fs) <= c.limit
  }

  // Where a reader is left that takes them one after another as far as they are all there.
  function Reached(c: Cursor, fs: seq<Field>): Cursor
    decreases |fs|
  {
    if fs == [] || c.pos + fs[0].width > c.limit then c else Reached(c.(pos := c.pos + fs[0].width), fs[1..])
  }

  lemma {:induction false} ReachedAll(c: Cursor, fs: seq<Field>)
    requires Fits(c, fs)
    ensures Reached(c, fs) == Past(c, fs)
    decreases |fs|
  {
    if fs != [] {
      ReachedAll(c.(pos := c.pos + fs[0].width), fs[1..]);
    }
  }

  lemma {:induction false} ReachedSplit(c: Cursor, a: seq<Field>, b: seq<Field>)
    requires c.pos <= c.limit
    ensures Reached(c, a + b) == if Fits(c, a) then Reached(Past(c, a), b) else Reached(c, a)
    decreases |a|
  {
    if a == [] {
      assert a + b == b;
    } else {
      assert (a + b)[0] == a[0] && (a + b)[1..] == a[1..] + b;
      if c.pos + a[0].width <= c.limit {
        ReachedSplit(c.(pos := c.pos + a[0].width), a[1..], b);
      }
    }
  }

  lemma {:induction false} ReachedOne(c: Cursor, f: Field)
    ensures Reached(c, [f]) == if c.pos + f.width <= c.limit then Past(c, [f]) else c
  {
    SaysOne(c, f);
    if c.pos + f.width <= c.limit {
      ReachedAll(c, [f]);
    }
  }

  lemma {:induction false} WidthSplit(a: seq<Field>, b: seq<Field>)
    ensures Width(a + b) == Width(a) + Width(b)
  {
    if a == [] {
      assert a + b == b;
    } else {
      assert (a + b)[1..] == a[1..] + b;
      WidthSplit(a[1..], b);
    }
  }

  lemma {:induction false} SaysSplit(c: Cursor, a: seq<Field>, b: seq<Field>)
    ensures Says(c, a + b) <==> Says(c, a) && Says(Past(c, a), b)
    ensures Past(c, a + b) == Past(Past(c, a), b)
    ensures c.pos <= c.limit ==> Reached(c, a + b) == if Fits(c, a) then Reached(Past(c, a), b) else Reached(c, a)
    decreases |a|
  {
    WidthSplit(a, b);
    if c.pos <= c.limit {
      ReachedSplit(c, a, b);
    }
    if a == [] {
      assert a + b == b;
    } else {
      assert (a + b)[1..] == a[1..] + b;
      SaysSplit(c.(pos := c.pos + a[0].width), a[1..], b);
    }
  }

  lemma {:induction false} SaysOne(c: Cursor, f: Field)
    ensures Says(c, [f]) <==> Value(c.buf, c.pos, f.width) == f.value
    ensures Width([f]) == f.width
  {
    assert [f][1..] == [];
  }

  // A number is read if it is all there.
  lemma {:induction false} NumberRead(c: Cursor, f: Field)
    requires Says(c, [f])
    ensures BR.ReadBits(c, f.width) == if Fits(c, [f]) then BR.BitsRead(f.value, Past(c, [f])) else BR.BitsEOF
    ensures !Fits(c, [f]) ==> Reached(c, [f]) == c
  {
    ReachedOne(c, f);
    SaysOne(c, f);
  }

  // A symbol has a codeword.
  predicate Coded(lens: seq<byte>, s: nat) {
    s < |lens| && lens[s] != 0
  }

  function Codeword(lens: seq<byte>, s: nat): Field
    requires Coded(lens, s)
  {
    Field(Code(lens, s), lens[s])
  }

  // So is a codeword.
  lemma {:induction false} SymbolRead(lens: seq<byte>, s: nat, c: Cursor)
    requires Accepted(lens) && Coded(lens, s) && Says(c, [Codeword(lens, s)])
    ensures var f := Codeword(lens, s);
      ReadSym(lens, c) == (if Fits(c, [f]) then Sym(s, Past(c, [f])) else SymErr(EOF, c)) && (!Fits(c, [f]) ==> Reached(c, [f]) == c)
  {
    ReachedOne(c, Codeword(lens, s));
    SaysOne(c, Codeword(lens, s));
    DecodesCodeword(lens, s, c);
  }
}
