// Streams that start with no codeword at all, and the order of the slots: what is left to say of the code
// and of the lengths and distances behind it (huffman.go:92-146; decoder50.go:166-180,
// decoder50_items.go:61-126).

module Codewords {
  import opened Basics
  import opened DecodeTypes
  import opened Bits
  import opened Canonical
  import opened Slots

  // The stream from p on starts with symbol s's codeword.
  predicate StartsAs(lens: seq<byte>, s: nat, buf: seq<byte>, p: nat) {
    s < |lens| && lens[s] != 0 && lens[s] <= 15 && Value(buf, p, lens[s]) == Code(lens, s)
  }

  lemma {:induction false} NthOf(lens: seq<byte>, n: nat, r: nat) returns (s: nat)
    requires r < Count(lens, n)
    ensures s < |lens| && lens[s] == n && Count(lens[..s], n) == r
  {
    var front := lens[..|lens| - 1];
    if r < Count(front, n) {
      s := NthOf(front, n, r);
      assert front[..s] == lens[..s];
    } else {
      s := |lens| - 1;
    }
  }

  lemma {:induction false} LengthWithin(lens: seq<byte>, m: nat, v: nat)
    requires 1 <= m <= 15 && Limit(lens, m - 1) <= v < Limit(lens, 15)
    ensures var n := LengthFrom(lens, m, v); Limit(lens, n - 1) <= v < Limit(lens, n)
    decreases 15 - m
  {
    if m < 15 && v >= Limit(lens, m) {
      LengthWithin(lens, m + 1, v);
    }
  }

  lemma {:induction false} ShrSum(a: nat, w: nat, m: nat)
    ensures Shr(Shl(a, m) + w, m) == a + Shr(w, m)
  {
    if m > 0 {
      assert (Shl(a, m) + w) / 2 == Shl(a, m - 1) + w / 2;
      ShrSum(a, w / 2, m - 1);
    }
  }

  // Below the last limit every stream starts with a codeword.
  lemma {:induction false} SomeCodeword(lens: seq<byte>, buf: seq<byte>, p: nat) returns (s: nat)
    requires Accepted(lens) && Value(buf, p, MAX_LEN) < Limit(lens, 15)
    ensures StartsAs(lens, s, buf, p)
  {
    var v := Value(buf, p, MAX_LEN);
    LengthWithin(lens, 1, v);
    var n := LengthOf(lens, v);
    var w := v - Limit(lens, n - 1);
    ShrBelow(w, 15 - n, Count(lens, n));
    s := NthOf(lens, n, Shr(w, 15 - n));
    LimitIsNextCode(lens, n);
    ShrSum(NextCode(lens, n), w, 15 - n);
    StartsWith(buf, p, n, 15 - n);
  }

  // A stream that starts with no codeword is over if it has not fifteen bits; otherwise it is taken for
  // symbol 0, of fifteen bits, or for no symbol if its place is past the table.
  lemma {:induction false} NoCodeword(lens: seq<byte>, c: Cursor)
    requires Accepted(lens) && !Empty(lens) && forall s :: !StartsAs(lens, s, c.buf, c.pos)
    ensures if c.pos + 15 > c.limit then ReadSym(lens, c) == SymErr(EOF, c)
            else ReadSym(lens, c) == if Pos(lens, 15) + Value(c.buf, c.pos, 15) - Limit(lens, 14) < |lens| then Sym(0, c.(pos := c.pos + 15))
                                     else SymErr(HuffDecodeFailed, c.(pos := c.pos + 15))
  {
    var v := Value(c.buf, c.pos, MAX_LEN);
    if v < Limit(lens, 15) {
      var s := SomeCodeword(lens, c.buf, c.pos);
      assert false;
    }
    LimitMono(lens, 14, 15);
    LongestLength(lens, 1, v);
    if Pos(lens, 15) + v - Limit(lens, 14) < |lens| {
      NoSymbolAt(lens, |lens|, Pos(lens, 15) + v - Limit(lens, 14));
    }
  }

  lemma {:induction false} LongestLength(lens: seq<byte>, m: nat, v: nat)
    requires 1 <= m <= 15 && v >= Limit(lens, 15)
    ensures LengthFrom(lens, m, v) == 15
    decreases 15 - m
  {
    LimitMono(lens, m, 15);
    if m < 15 {
      LongestLength(lens, m + 1, v);
    }
  }

  // No symbol has a place that high.
  lemma {:induction false} NoSymbolAt(lens: seq<byte>, n: nat, idx: nat)
    requires Accepted(lens) && n <= |lens| && idx >= Pos(lens, 15) + Used(lens, 15)
    ensures SymbolAt(lens, n, idx) == 0
  {
    if n > 0 {
      if lens[n - 1] != 0 {
        CountPrefix(lens, n - 1, lens[n - 1]);
        if lens[n - 1] < 15 {
          PosMono(lens, lens[n - 1], 15);
        }
      }
      NoSymbolAt(lens, n - 1, idx);
    }
  }

  // A table has no codewords if and only if all its lengths are zero, and then nothing is read.
  lemma {:induction false} EmptyIs(lens: seq<byte>, c: Cursor)
    requires forall i :: 0 <= i < |lens| ==> lens[i] <= 15
    ensures Empty(lens) <==> forall i :: 0 <= i < |lens| ==> lens[i] == 0
    ensures Empty(lens) ==> ReadSym(lens, c) == SymErr(HuffDecodeFailed, c)
  {
    if forall i :: 0 <= i < |lens| ==> lens[i] == 0 {
      NoneUsed(15, lens);
    } else {
      var i :| 0 <= i < |lens| && lens[i] != 0;
      var n := lens[i];
      CountPrefix(lens, i, n);
      LimitMono(lens, n, 15);
      ShlMono(1, Count(lens, n), 15 - n);
      ShlPositive(15 - n);
    }
  }

  // ---- The slots are in order, each as wide as its extra bits say, with no gap.

  lemma {:induction false} LengthSlotsAdjoin(slot: nat)
    requires slot < 43
    ensures MatchLength(slot + 1, 0) == MatchLength(slot, 0) + Shl(1, LengthBits(slot))
    ensures LengthBits(slot) == (if slot < 8 then 0 else slot / 4 - 1) && MatchLength(0, 0) == 2
    ensures forall x: nat :: MatchLength(slot, x) == MatchLength(slot, 0) + x
  {
    if slot >= 8 {
      TopBits(slot % 4, slot / 4 - 1);
      assert if slot % 4 == 3 then (slot + 1) / 4 == slot / 4 + 1 && (slot + 1) % 4 == 0
             else (slot + 1) / 4 == slot / 4 && (slot + 1) % 4 == slot % 4 + 1;
    } else {
      assert slot == 7 ==> Shl(4, 1) == 8;
    }
  }

  // The next of the four leading values, or the first of the next four, which has a bit more.
  lemma {:induction false} TopBits(i: nat, b: nat)
    requires i < 4
    ensures Shl(4 + i, b) + Shl(1, b) == if i < 3 then Shl(4 + (i + 1), b) else Shl(4, b + 1)
  {
    ShlAdd(4 + i, 1, b);
    if i == 3 {
      ShlDouble(4, b);
    }
  }

  lemma {:induction false} ShlDouble(x: nat, b: nat)
    ensures Shl(2 * x, b) == Shl(x, b + 1)
  {
    ShlAdd(x, x, b);
  }

  lemma {:induction false} DistanceSlotsAdjoin(slot: nat)
    requires slot < 63
    ensures DistanceOf(slot + 1, 0) == DistanceOf(slot, 0) + Shl(1, DistanceBits(slot))
    ensures DistanceBits(slot) == (if slot < 4 then 0 else slot / 2 - 1) && DistanceOf(0, 0) == 1
    ensures forall x: nat :: DistanceOf(slot, x) == DistanceOf(slot, 0) + x
  {
    var t := slot + 1;
    if slot >= 4 {
      var b := slot / 2 - 1;
      if t % 2 == 0 {
        ShlAdd(3, 1, b);
        ShlShl(1, 2, b);
        ShlShl(1, 1, b + 1);
        assert Shl(1, 1) == 2 && Shl(1, 2) == 4;
        assert t / 2 - 1 == b + 1 && slot % 2 == 1;
      } else {
        ShlAdd(2, 1, b);
        assert t / 2 == slot / 2 && t % 2 == 1 && slot % 2 == 0;
      }
    }
  }
}
