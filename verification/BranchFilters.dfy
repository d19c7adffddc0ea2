// filters.go, the two branch filters: in place, each with an inverse.

module BranchFilters {
  import opened Basics

  const WORD24: nat := 0x100_0000   // fileSize
  const WORD32: nat := 0x1_0000_0000

  // ---- ARM: the 24-bit operand of every BL instruction, less its own word address.

  // One more byte below.
  function Join(low: byte, high: nat): nat {
    low + 0x100 * high
  }

  function Word24(a: byte, b: byte, c: byte): (w: nat)
    ensures w < WORD24
  {
    Join(a, Join(b, c))
  }

  function Bytes24(w: nat): (s: seq<byte>)
    requires w < WORD24
    ensures |s| == 3
    ensures Word24(s[0], s[1], s[2]) == w
  {
    [w % 0x100, w / 0x100 % 0x100, w / 0x100 / 0x100]
  }

  lemma {:induction false} WordBytes24(a: byte, b: byte, c: byte)
    ensures Bytes24(Word24(a, b, c)) == [a, b, c]
  {
  }

  // back says which way: the filter subtracts the address, the encoder added it.
  function Relocate24(w: nat, address: nat, back: bool): (r: nat)
    ensures r < WORD24
  {
    (if back then w + address else w - address) % WORD24
  }

  lemma {:induction false} RelocatedBack24(w: nat, address: nat, back: bool)
    requires w < WORD24
    ensures Relocate24(Relocate24(w, address, back), address, !back) == w
  {
    if back {
      ModShift(w, address);
    } else {
      var k: int := address;
      ModShift(w, -k);
    }
  }

  lemma {:induction false} ModShift(w: nat, k: int)
    requires w < WORD24
    ensures ((w + k) % WORD24 - k) % WORD24 == w
  {
    var q := (w + k) / WORD24;
    assert (w + k) % WORD24 - k == w - q * WORD24;
    ModMultiple(w, -q);
  }

  lemma {:induction false} ModMultiple(w: nat, q: int)
    requires w < WORD24
    ensures (w + q * WORD24) % WORD24 == w
  {
  }

  // One instruction.
  function ArmWord(s: seq<byte>, address: nat, back: bool): (r: seq<byte>)
    requires |s| == 4
    ensures |r| == 4 && r[3] == s[3]
  {
    if s[3] == 0xeb then Bytes24(Relocate24(Word24(s[0], s[1], s[2]), address, back)) + [s[3]] else s
  }

  // What is left of the buffer, at position at of the output.
  function ArmFrom(s: seq<byte>, at: nat, back: bool): (r: seq<byte>)
    ensures |r| == |s|
  {
    if |s| <= 3 then s else ArmWord(s[..4], at / 4, back) + ArmFrom(s[4..], at + 4, back)
  }

  function Arm(buf: seq<byte>, offset: nat, back: bool): (r: seq<byte>)
    ensures |r| == |buf|
  {
    ArmFrom(buf, offset, back)
  }

  lemma {:induction false} ArmWordUndone(s: seq<byte>, address: nat, back: bool)
    requires |s| == 4
    ensures ArmWord(ArmWord(s, address, back), address, !back) == s
  {
    if s[3] == 0xeb {
      var w := Word24(s[0], s[1], s[2]);
      var r := Relocate24(w, address, back);
      var t := ArmWord(s, address, back);
      assert t == Bytes24(r) + [s[3]] && Word24(t[0], t[1], t[2]) == r;
      RelocatedBack24(w, address, back);
      WordBytes24(s[0], s[1], s[2]);
    }
  }

  // The filter and its encoder undo each other, so both are bijections.
  lemma {:induction false} ArmUndone(s: seq<byte>, at: nat, back: bool)
    ensures Arm(Arm(s, at, back), at, !back) == s
  {
    if |s| > 3 {
      var r := ArmFrom(s, at, back);
      assert r[..4] == ArmWord(s[..4], at / 4, back) && r[4..] == ArmFrom(s[4..], at + 4, back);
      ArmWordUndone(s[..4], at / 4, back);
      ArmUndone(s[4..], at + 4, back);
      assert s == s[..4] + s[4..];
    }
  }

  // k more bytes of a buffer being rewritten from the front are done.
  lemma {:induction false} OneMore(want: seq<byte>, was: seq<byte>, now: seq<byte>, i: nat, k: nat, mid: seq<byte>, rest: seq<byte>)
    requires i + k <= |was| == |now| && want == was[..i] + (mid + rest)
    requires now[..i] == was[..i] && now[i..i + k] == mid
    ensures want == now[..i + k] + rest
  {
    assert now[..i + k] == was[..i] + mid;
  }

  ghost predicate ArmDone(want: seq<byte>, buf: seq<byte>, offset: nat, i: nat) {
    i <= |buf| && want == buf[..i] + ArmFrom(buf[i..], offset + i, false)
  }

  lemma {:induction false} ArmStep(want: seq<byte>, was: seq<byte>, now: seq<byte>, offset: nat, i: nat)
    requires ArmDone(want, was, offset, i) && |was| - i > 3 && |now| == |was|
    requires now[..i] == was[..i] && now[i + 4..] == was[i + 4..]
    requires now[i..i + 4] == ArmWord(was[i..i + 4], (offset + i) / 4, false)
    ensures ArmDone(want, now, offset, i + 4)
  {
    assert was[i..][..4] == was[i..i + 4] && was[i..][4..] == was[i + 4..];
    OneMore(want, was, now, i, 4, now[i..i + 4], ArmFrom(was[i + 4..], offset + i + 4, false));
  }

  lemma {:induction false} ArmFinished(want: seq<byte>, buf: seq<byte>, offset: nat, i: nat)
    requires ArmDone(want, buf, offset, i) && |buf| - i <= 3
    ensures want == buf
  {
    assert buf == buf[..i] + buf[i..];
  }

  method FilterArm(buf: array<byte>, offset: nat)
    modifies buf
    ensures buf[..] == Arm(old(buf[..]), offset, false)
  {
    ghost var want := Arm(buf[..], offset, false);
    assert buf[..][0..] == buf[..];
    var i: nat := 0;
    while buf.Length - i > 3
      invariant ArmDone(want, buf[..], offset, i)
      decreases buf.Length - i
    {
      ghost var was := buf[..];
      FilterArmWord(buf, i, (offset + i) / 4);
      ArmStep(want, was, buf[..], offset, i);
      i := i + 4;
    }
    ArmFinished(want, buf[..], offset, i);
  }

  method FilterArmWord(buf: array<byte>, i: nat, address: nat)
    requires i + 4 <= buf.Length
    modifies buf
    ensures buf[..][i..i + 4] == ArmWord(old(buf[..])[i..i + 4], address, false)
    ensures buf[..][..i] == old(buf[..])[..i] && buf[..][i + 4..] == old(buf[..])[i + 4..]
  {
    if buf[i + 3] == 0xeb {
      var n := Word24(buf[i], buf[i + 1], buf[i + 2]);
      n := Relocate24(n, address, false);
      buf[i] := n % 0x100;
      buf[i + 1] := n / 0x100 % 0x100;
      buf[i + 2] := n / 0x100 / 0x100;
    }
  }

  // ---- E8: the 32-bit operand of every CALL (and, for E9, JMP).

  function Word32(s: seq<byte>): (w: nat)
    requires |s| == 4
    ensures w < WORD32
  {
    Join(s[0], Join(s[1], Join(s[2], s[3])))
  }

  function Bytes32(w: nat): (s: seq<byte>)
    requires w < WORD32
    ensures |s| == 4 && Word32(s) == w
  {
    [w % 0x100, w / 0x100 % 0x100, w / 0x100 / 0x100 % 0x100, w / 0x100 / 0x100 / 0x100]
  }

  lemma {:induction false} WordBytes32(s: seq<byte>)
    requires |s| == 4
    ensures Bytes32(Word32(s)) == s
  {
    Unjoin(s[2], s[3]);
    Unjoin(s[1], Join(s[2], s[3]));
    Unjoin(s[0], Join(s[1], Join(s[2], s[3])));
  }

  lemma {:induction false} Unjoin(low: byte, high: nat)
    ensures Join(low, high) % 0x100 == low && Join(low, high) / 0x100 == high
  {
  }

  function U32(x: int): (r: nat)
    ensures r < WORD32
  {
    x % WORD32
  }

  // The map filterE8 applies to an operand at position cur (modulo 2^24), sign tests on the raw bits.
  function ToRelative(addr: nat, cur: nat): (r: nat)
    requires addr < WORD32 && cur < WORD24
    ensures r < WORD32
  {
    if addr >= 0x8000_0000 then
      if U32(addr + cur) < 0x8000_0000 then U32(addr + WORD24) else addr
    else if addr < WORD24 then U32(addr - cur)
    else addr
  }

  // The encoder's.
  function ToAbsolute(addr: nat, cur: nat): (r: nat)
    requires addr < WORD32 && cur < WORD24
    ensures r < WORD32
  {
    if addr + cur < WORD24 || addr + cur >= WORD32 then U32(addr + cur)
    else if addr < WORD24 then addr - WORD24 + WORD32
    else addr
  }

  function Relocate32(addr: nat, cur: nat, back: bool): (r: nat)
    requires addr < WORD32 && cur < WORD24
    ensures r < WORD32
  {
    if back then ToAbsolute(addr, cur) else ToRelative(addr, cur)
  }

  // Each direction is a permutation of the 32-bit values.
  lemma {:induction false} RelocatedBack32(addr: nat, cur: nat, back: bool)
    requires addr < WORD32 && cur < WORD24
    ensures Relocate32(Relocate32(addr, cur, back), cur, !back) == addr
  {
    Wraps(addr, cur);
  }

  lemma {:induction false} Wraps(addr: nat, cur: nat)
    requires addr < WORD32 && cur < WORD24
    ensures U32(addr + cur) == if addr + cur < WORD32 then addr + cur else addr + cur - WORD32
    ensures U32(addr - cur) == if addr >= cur then addr - cur else addr - cur + WORD32
    ensures U32(addr + WORD24) == if addr + WORD24 < WORD32 then addr + WORD24 else addr + WORD24 - WORD32
  {
  }

  // One operand.
  function E8Word(s: seq<byte>, at: nat, back: bool): (r: seq<byte>)
    requires |s| == 4
    ensures |r| == 4
  {
    Bytes32(Relocate32(Word32(s), at % WORD24, back))
  }

  lemma {:induction false} E8WordUndone(s: seq<byte>, at: nat, back: bool)
    requires |s| == 4
    ensures E8Word(E8Word(s, at, back), at, !back) == s
  {
    RelocatedBack32(Word32(s), at % WORD24, back);
    WordBytes32(s);
  }

  // The scan, with s at position at of the output: an opcode's operand is rewritten and skipped,
  // whatever it holds.
  function E8From(c: byte, s: seq<byte>, at: nat, back: bool): (r: seq<byte>)
    ensures |r| == |s|
    decreases |s|
  {
    if |s| < 5 then s
    else if s[0] != 0xe8 && s[0] != c then [s[0]] + E8From(c, s[1..], at + 1, back)
    else [s[0]] + E8Word(s[1..5], at + 1, back) + E8From(c, s[5..], at + 5, back)
  }

  function E8(c: byte, buf: seq<byte>, offset: nat, back: bool): (r: seq<byte>)
    ensures |r| == |buf|
  {
    E8From(c, buf, offset, back)
  }

  // The positions the scan takes for opcodes.
  function Opcodes(c: byte, s: seq<byte>, i: nat): seq<nat>
    decreases |s|
  {
    if |s| < 5 then []
    else if s[0] != 0xe8 && s[0] != c then Opcodes(c, s[1..], i + 1)
    else [i] + Opcodes(c, s[5..], i + 5)
  }

  lemma {:induction false} E8Opcode(c: byte, s: seq<byte>, at: nat, back: bool)
    requires |s| >= 5 && (s[0] == 0xe8 || s[0] == c)
    ensures var r := E8From(c, s, at, back);
      r[0] == s[0] && r[1..5] == E8Word(s[1..5], at + 1, back) && r[5..] == E8From(c, s[5..], at + 5, back)
  {
  }

  // Rewriting operands does not change which positions are opcodes, and is undone by rewriting back.
  lemma {:induction false} E8Undone(c: byte, s: seq<byte>, at: nat, back: bool, i: nat)
    ensures E8(c, E8(c, s, at, back), at, !back) == s
    ensures Opcodes(c, E8(c, s, at, back), i) == Opcodes(c, s, i)
    decreases |s|
  {
    if |s| >= 5 {
      var r := E8From(c, s, at, back);
      if s[0] != 0xe8 && s[0] != c {
        assert r[1..] == E8From(c, s[1..], at + 1, back);
        E8Undone(c, s[1..], at + 1, back, i + 1);
        assert s == [s[0]] + s[1..];
      } else {
        E8Opcode(c, s, at, back);
        E8WordUndone(s[1..5], at + 1, back);
        E8Undone(c, s[5..], at + 5, back, i + 5);
        assert s == [s[0]] + s[1..5] + s[5..];
      }
    }
  }

  // Only the position modulo 2^24 matters, so a 32-bit running position is exact.
  lemma {:induction false} NarrowingIsExact(x: nat)
    ensures U32(x) % WORD24 == x % WORD24
    ensures U32(U32(x) + 1) == U32(x + 1) && U32(U32(x) + 4) == U32(x + 4)
  {
    var q, r := x / WORD32, x % WORD32;
    Whole24(256 * q, r);
    Whole32(q, r + 1);
    Whole32(q, r + 4);
  }

  lemma {:induction false} Whole24(q: nat, r: nat)
    ensures (WORD24 * q + r) % WORD24 == r % WORD24
  {
  }

  lemma {:induction false} Whole32(q: nat, r: nat)
    ensures (WORD32 * q + r) % WORD32 == r % WORD32
  {
  }

  // The scan stands at position i.
  ghost predicate E8Done(want: seq<byte>, c: byte, buf: seq<byte>, offset: nat, i: nat) {
    i <= |buf| && forall now :: Looked(now) ==> want == buf[..i] + E8From(c, buf[i..], offset + i, false)
  }

  lemma {:induction false} E8Starts(c: byte, buf: seq<byte>, offset: nat)
    ensures E8Done(E8(c, buf, offset, false), c, buf, offset, 0)
  {
    assert buf[0..] == buf && buf[..0] == [];
  }

  lemma {:induction false} E8Skip(want: seq<byte>, c: byte, buf: seq<byte>, offset: nat, i: nat)
    requires E8Done(want, c, buf, offset, i) && |buf| - i >= 5 && buf[i] != 0xe8 && buf[i] != c
    ensures E8Done(want, c, buf, offset, i + 1)
  {
    assert Looked(Now);
    assert buf[i..][1..] == buf[i + 1..];
    OneMore(want, buf, buf, i, 1, [buf[i]], E8From(c, buf[i + 1..], offset + i + 1, false));
  }

  lemma {:induction false} E8Step(want: seq<byte>, c: byte, was: seq<byte>, now: seq<byte>, offset: nat, i: nat)
    requires E8Done(want, c, was, offset, i) && |was| - i >= 5 && (was[i] == 0xe8 || was[i] == c)
    requires |now| == |was| && now[..i + 1] == was[..i + 1] && now[i + 5..] == was[i + 5..]
    requires now[i + 1..i + 5] == E8Word(was[i + 1..i + 5], offset + i + 1, false)
    ensures E8Done(want, c, now, offset, i + 5)
  {
    assert Looked(Now);
    E8Opcode(c, was[i..], offset + i, false);
    SlicesJoin(was, now, i);
    OneMore(want, was, now, i, 5, [was[i]] + now[i + 1..i + 5], E8From(c, was[i + 5..], offset + i + 5, false));
  }

  lemma {:induction false} SlicesJoin(was: seq<byte>, now: seq<byte>, i: nat)
    requires i + 5 <= |was| == |now| && now[..i + 1] == was[..i + 1]
    ensures now[..i] == was[..i] && now[i..i + 5] == [was[i]] + now[i + 1..i + 5]
    ensures was[i..][1..5] == was[i + 1..i + 5] && was[i..][5..] == was[i + 5..]
  {
    assert now[..i] == now[..i + 1][..i] && was[..i] == was[..i + 1][..i];
    assert now[..i + 1][i] == was[..i + 1][i];
  }

  lemma {:induction false} E8Finished(want: seq<byte>, c: byte, buf: seq<byte>, offset: nat, i: nat)
    requires E8Done(want, c, buf, offset, i) && |buf| - i < 5
    ensures want == buf
  {
    assert Looked(Now);
    assert buf == buf[..i] + buf[i..];
  }

  method FilterE8(c: byte, buf: array<byte>, offset: nat)
    modifies buf
    ensures buf[..] == E8(c, old(buf[..]), offset, false)
  {
    ghost var want := E8(c, buf[..], offset, false);
    var off: nat := U32(offset);
    var b: nat := 0;
    E8Starts(c, buf[..], offset);
    while buf.Length - b >= 5
      invariant E8Done(want, c, buf[..], offset, b) && off == U32(offset + b)
      decreases buf.Length - b
    {
      b, off := E8Once(c, buf, b, off, offset, want);
    }
    E8Finished(want, c, buf[..], offset, b);
  }

  // One byte looked at: the next one, or an operand rewritten and passed over.
  method E8Once(c: byte, buf: array<byte>, b0: nat, off0: nat, ghost offset: nat, ghost want: seq<byte>) returns (b: nat, off: nat)
    requires buf.Length - b0 >= 5 && E8Done(want, c, buf[..], offset, b0) && off0 == U32(offset + b0)
    modifies buf
    ensures b0 < b <= buf.Length && E8Done(want, c, buf[..], offset, b) && off == U32(offset + b)
  {
    ghost var was := buf[..];
    var ch := buf[b0];
    NarrowingIsExact(offset + b0);
    off := U32(off0 + 1);
    if ch != 0xe8 && ch != c {
      E8Skip(want, c, was, offset, b0);
      b := b0 + 1;
      return;
    }
    NarrowingIsExact(offset + b0 + 1);
    RewriteOperand(buf, b0 + 1, off, offset + b0 + 1);
    E8Step(want, c, was, buf[..], offset, b0);
    off := U32(off + 4);
    b := b0 + 5;
  }

  method RewriteOperand(buf: array<byte>, b: nat, off: nat, ghost at: nat)
    requires b + 4 <= buf.Length && off % WORD24 == at % WORD24
    modifies buf
    ensures buf[..][b..b + 4] == E8Word(old(buf[..])[b..b + 4], at, false)
    ensures buf[..][..b] == old(buf[..])[..b] && buf[..][b + 4..] == old(buf[..])[b + 4..]
  {
    var addr := ReadWord32(buf, b);
    var w, changed := RelativeOperand(addr, off % WORD24);
    if changed {
      PutWord32(buf, b, w);
    }
  }

  method RelativeOperand(addr: nat, cur: nat) returns (w: nat, changed: bool)
    requires addr < WORD32 && cur < WORD24
    ensures w == ToRelative(addr, cur) && (!changed ==> w == addr)
  {
    w, changed := addr, false;
    if addr >= 0x8000_0000 {
      if U32(addr + cur) < 0x8000_0000 {
        w, changed := U32(addr + WORD24), true;
      }
    } else if addr < WORD24 {
      w, changed := U32(addr - cur), true;
    }
  }

  method ReadWord32(buf: array<byte>, b: nat) returns (addr: nat)
    requires b + 4 <= buf.Length
    ensures addr < WORD32 && addr == Word32(buf[..][b..b + 4]) && Bytes32(addr) == buf[..][b..b + 4]
  {
    WordBytes32(buf[..][b..b + 4]);
    addr := Join(buf[b], Join(buf[b + 1], Join(buf[b + 2], buf[b + 3])));
  }

  method PutWord32(buf: array<byte>, b: nat, w: nat)
    requires b + 4 <= buf.Length && w < WORD32
    modifies buf
    ensures buf[..][b..b + 4] == Bytes32(w)
    ensures buf[..][..b] == old(buf[..])[..b] && buf[..][b + 4..] == old(buf[..])[b + 4..]
  {
    buf[b] := w % 0x100;
    buf[b + 1] := w / 0x100 % 0x100;
    buf[b + 2] := w / 0x100 / 0x100 % 0x100;
    buf[b + 3] := w / 0x100 / 0x100 / 0x100;
  }
}
