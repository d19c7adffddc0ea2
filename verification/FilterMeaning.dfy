// What the filters do to each byte, in plain arithmetic (filters.go:15-112, decoder50.go:427-448).

module FilterMeaning {
  import opened Basics
  import opened DecodeTypes
  import opened BranchFilters
  import opened Filters
  import Rar5Laws

  // ---- ARM.

  // Three bytes, least significant first.
  function Operand24(s: seq<byte>, i: nat): nat
    requires i + 3 <= |s|
  {
    var a: nat, b: nat, c: nat := s[i], s[i + 1], s[i + 2];
    a + 0x100 * b + 0x1_0000 * c
  }

  // A word that is a BL loses the address it is run at from its operand. No other changes.
  ghost predicate ArmWordDone(was: seq<byte>, now: seq<byte>, address: nat)
    requires |was| == |now| == 4
  {
    if was[3] == 0xeb then now[3] == 0xeb && (Operand24(now, 0) + address) % 0x100_0000 == Operand24(was, 0) else now == was
  }

  lemma {:induction false} Operand24Is(s: seq<byte>)
    requires |s| >= 3
    ensures Operand24(s, 0) == Word24(s[0], s[1], s[2])
  {
  }

  lemma {:induction false} RelocatedIs(w: nat, address: nat)
    requires w < WORD24
    ensures (Relocate24(w, address, false) + address) % WORD24 == w
  {
    var k: int := address;
    ModShift(w, -k);
  }

  lemma {:induction false} ArmWordIs(s: seq<byte>, address: nat)
    requires |s| == 4
    ensures ArmWordDone(s, ArmWord(s, address, false), address)
  {
    if s[3] == 0xeb {
      var w := Word24(s[0], s[1], s[2]);
      Operand24Is(s);
      BytesBack(Relocate24(w, address, false), s[3]);
      RelocatedIs(w, address);
    }
  }

  lemma {:induction false} BytesBack(x: nat, last: byte)
    requires x < WORD24
    ensures var r := Bytes24(x) + [last]; Operand24(r, 0) == x && r[3] == last
  {
    var b := Bytes24(x);
    Operand24Is(b + [last]);
    assert (b + [last])[0] == b[0] && (b + [last])[1] == b[1] && (b + [last])[2] == b[2];
  }

  // The words of four bytes, one after another, each at its own address.
  lemma {:induction false} ArmAt(buf: seq<byte>, pos: nat, i: nat)
    requires i % 4 == 0 && i + 4 <= |buf|
    ensures ArmWordDone(buf[i..i + 4], Arm(buf, pos, false)[i..i + 4], (pos + i) / 4)
    decreases |buf|
  {
    var r := ArmFrom(buf, pos, false);
    var head, rest := ArmWord(buf[..4], pos / 4, false), ArmFrom(buf[4..], pos + 4, false);
    assert r == head + rest;
    if i == 0 {
      ArmWordIs(buf[..4], pos / 4);
      assert r[0..4] == head && buf[0..4] == buf[..4];
    } else {
      ArmAt(buf[4..], pos + 4, i - 4);
      assert rest[i - 4..i] == r[i..i + 4] && buf[4..][i - 4..i] == buf[i..i + 4];
    }
  }

  // What is left of the last word stays.
  lemma {:induction false} ArmTail(buf: seq<byte>, pos: nat, p: nat)
    requires |buf| - |buf| % 4 <= p < |buf|
    ensures Arm(buf, pos, false)[p] == buf[p]
    decreases |buf|
  {
    if |buf| > 3 {
      ArmTail(buf[4..], pos + 4, p - 4);
    }
  }

  // ---- E8 and E9.

  // CALL, and JMP if those are wanted too.
  predicate Opens(b: byte, jumps: bool) {
    b == 0xe8 || (jumps && b == 0xe9)
  }

  // An instruction starts at p: the operand of one before it is not looked at for another.
  predicate Starts(jumps: bool, s: seq<byte>, p: nat)
    decreases |s|
  {
    |s| >= 5 &&
      if Opens(s[0], jumps) then p == 0 || (p >= 5 && Starts(jumps, s[5..], p - 5))
      else p > 0 && Starts(jumps, s[1..], p - 1)
  }

  // No instruction lies over p.
  ghost predicate Uncovered(jumps: bool, s: seq<byte>, p: nat) {
    forall j :: 0 <= j < p < j + 5 ==> !Starts(jumps, s, j)
  }

  function Step(jumps: bool, s: seq<byte>): nat
    requires s != []
  {
    if Opens(s[0], jumps) then 5 else 1
  }

  lemma {:induction false} StartsOn(jumps: bool, s: seq<byte>, j: nat)
    requires |s| >= 5
    ensures var k := Step(jumps, s); if j >= k then Starts(jumps, s, j) == Starts(jumps, s[k..], j - k) else Starts(jumps, s, j) <==> j == 0 && k == 5
  {
  }

  lemma {:induction false} UncoveredOn(jumps: bool, s: seq<byte>, p: nat)
    requires |s| >= 5 && p >= Step(jumps, s)
    ensures Uncovered(jumps, s, p) <==> Uncovered(jumps, s[Step(jumps, s)..], p - Step(jumps, s))
  {
    var k := Step(jumps, s);
    var t := s[k..];
    if Uncovered(jumps, s, p) {
      forall j: nat | j < p - k < j + 5 ensures !Starts(jumps, t, j) {
        StartsOn(jumps, s, j + k);
      }
    }
    if Uncovered(jumps, t, p - k) {
      forall j: nat | j < p < j + 5 ensures !Starts(jumps, s, j) {
        StartsOn(jumps, s, j);
      }
    }
  }

  // Which comes to this: an opcode with its operand behind it, and no instruction over it.
  lemma {:induction false} StartsWhere(jumps: bool, s: seq<byte>, p: nat)
    ensures Starts(jumps, s, p) <==> p + 5 <= |s| && Opens(s[p], jumps) && Uncovered(jumps, s, p)
    decreases |s|
  {
    if |s| >= 5 {
      var k := Step(jumps, s);
      if p >= k {
        StartsWhere(jumps, s[k..], p - k);
        UncoveredOn(jumps, s, p);
        StartsOn(jumps, s, p);
      } else if p > 0 {
        StartsOn(jumps, s, p);
        assert exists j :: 0 <= j < p < j + 5 && Starts(jumps, s, j) by {
          assert Starts(jumps, s, 0);
        }
      }
    }
  }

  // Four bytes, least significant first, as a signed number.
  function Operand32(s: seq<byte>, i: nat): int
    requires i + 4 <= |s|
  {
    var d: nat := s[i + 3];
    Signed(Operand24(s, i) + 0x100_0000 * d)
  }

  // An absolute address below 2^24 becomes relative to the position; one that is negative, but not further
  // than the position, is wrapped to below 2^24; any other is no address.
  function Relative(a: int, cur: int): int {
    if 0 <= a < 0x100_0000 then a - cur else if -cur <= a < 0 then a + 0x100_0000 else a
  }

  function Signed(w: nat): int {
    if w < 0x8000_0000 then w else w - 0x1_0000_0000
  }

  lemma {:induction false} ToRelativeIs(addr: nat, cur: nat)
    requires addr < WORD32 && cur < WORD24
    ensures Signed(ToRelative(addr, cur)) == Relative(Signed(addr), cur)
  {
    Wraps(addr, cur);
  }

  lemma {:induction false} E8WordIs(s: seq<byte>, at: nat)
    requires |s| == 4
    ensures Operand32(E8Word(s, at, false), 0) == Relative(Operand32(s, 0), at % 0x100_0000)
  {
    ToRelativeIs(Word32(s), at % WORD24);
  }

  lemma {:induction false} HeadCall(c: byte, s: seq<byte>, pos: nat)
    requires |s| >= 5 && (s[0] == 0xe8 || s[0] == c)
    ensures Operand32(E8From(c, s, pos, false), 1) == Relative(Operand32(s, 1), (pos + 1) % 0x100_0000)
  {
    var r := E8From(c, s, pos, false);
    E8Opcode(c, s, pos, false);
    E8WordIs(s[1..5], pos + 1);
    assert s[1..5][0] == s[1] && s[1..5][1] == s[2] && s[1..5][2] == s[3] && s[1..5][3] == s[4];
    assert r[1..5][0] == r[1] && r[1..5][1] == r[2] && r[1..5][2] == r[3] && r[1..5][3] == r[4];
  }

  lemma {:induction false} E8On(jumps: bool, buf: seq<byte>, pos: nat)
    requires |buf| >= 5
    ensures var c: byte := if jumps then 0xe9 else 0xe8; var k := Step(jumps, buf);
      E8From(c, buf, pos, false)[k..] == E8From(c, buf[k..], pos + k, false)
  {
    var c: byte := if jumps then 0xe9 else 0xe8;
    if Opens(buf[0], jumps) {
      E8Opcode(c, buf, pos, false);
    }
  }

  lemma {:induction false} CallAt(jumps: bool, buf: seq<byte>, pos: nat, p: nat)
    requires Starts(jumps, buf, p)
    ensures p + 5 <= |buf|
    ensures Operand32(E8(if jumps then 0xe9 else 0xe8, buf, pos, false), p + 1) == Relative(Operand32(buf, p + 1), (pos + p + 1) % 0x100_0000)
    decreases |buf|
  {
    var c: byte := if jumps then 0xe9 else 0xe8;
    var k := Step(jumps, buf);
    StartsOn(jumps, buf, p);
    if p < k {
      HeadCall(c, buf, pos);
    } else {
      CallAt(jumps, buf[k..], pos + k, p - k);
      CallLater(jumps, buf, pos, p);
    }
  }

  lemma {:induction false} CallLater(jumps: bool, buf: seq<byte>, pos: nat, p: nat)
    requires |buf| >= 5 && p >= Step(jumps, buf) && p + 5 <= |buf|
    ensures var c: byte := if jumps then 0xe9 else 0xe8; var k := Step(jumps, buf);
      && Operand32(E8(c, buf, pos, false), p + 1) == Operand32(E8(c, buf[k..], pos + k, false), p - k + 1)
      && Operand32(buf, p + 1) == Operand32(buf[k..], p - k + 1)
  {
    var c: byte := if jumps then 0xe9 else 0xe8;
    var k := Step(jumps, buf);
    var r := E8From(c, buf, pos, false);
    E8On(jumps, buf, pos);
    assert |r| == |buf|;
    SameOperand(r, r[k..], p + 1, k);
    SameOperand(buf, buf[k..], p + 1, k);
  }

  lemma {:induction false} SameOperand(s: seq<byte>, t: seq<byte>, i: nat, k: nat)
    requires k <= i && i + 4 <= |s| && t == s[k..]
    ensures Operand32(s, i) == Operand32(t, i - k)
  {
  }

  lemma {:induction false} PlainAt(jumps: bool, buf: seq<byte>, pos: nat, p: nat)
    requires p < |buf| && Uncovered(jumps, buf, p)
    ensures E8(if jumps then 0xe9 else 0xe8, buf, pos, false)[p] == buf[p]
    decreases |buf|
  {
    if |buf| >= 5 {
      var k := Step(jumps, buf);
      var r := E8From(if jumps then 0xe9 else 0xe8, buf, pos, false);
      if p >= k {
        UncoveredOn(jumps, buf, p);
        PlainAt(jumps, buf[k..], pos + k, p - k);
        E8On(jumps, buf, pos);
        assert r[k..][p - k] == r[p];
      } else if p > 0 {
        StartsOn(jumps, buf, 0);
        assert false;
      }
    }
  }

  // Every byte: an operand behind an instruction, or unchanged.
  ghost predicate CallsDone(jumps: bool, buf: seq<byte>, r: seq<byte>, pos: nat) {
    && |r| == |buf|
    && (forall p :: 0 <= p < |buf| && Starts(jumps, buf, p) ==>
          p + 5 <= |buf| && Operand32(r, p + 1) == Relative(Operand32(buf, p + 1), (pos + p + 1) % 0x100_0000))
    && (forall p :: 0 <= p < |buf| && Uncovered(jumps, buf, p) ==> r[p] == buf[p])
  }

  lemma {:induction false} E8Is(jumps: bool, buf: seq<byte>, pos: nat)
    ensures CallsDone(jumps, buf, E8(if jumps then 0xe9 else 0xe8, buf, pos, false), pos)
  {
    forall p | 0 <= p < |buf| && Starts(jumps, buf, p)
      ensures p + 5 <= |buf| && Operand32(E8(if jumps then 0xe9 else 0xe8, buf, pos, false), p + 1)
                == Relative(Operand32(buf, p + 1), (pos + p + 1) % 0x100_0000)
    {
      CallAt(jumps, buf, pos, p);
    }
    forall p | 0 <= p < |buf| && Uncovered(jumps, buf, p) ensures E8(if jumps then 0xe9 else 0xe8, buf, pos, false)[p] == buf[p] {
      PlainAt(jumps, buf, pos, p);
    }
  }

  // ---- Delta.

  // Where the byte of output position k is stored: behind the whole channels in front of its own, of which
  // the first len % n hold one byte more than the others.
  function Place(n: nat, len: nat, k: nat): nat
    requires n > 0
  {
    k % n * (len / n) + Min(k % n, len % n) + k / n
  }

  lemma {:induction false} ChannelIs(n: nat, k: nat)
    requires n > 0
    ensures Channel(n, k) == k % n && Depth(n, k) == k / n
  {
    if k >= n {
      ChannelIs(n, k - n);
      Less(n, k);
    } else {
      Small(n, k);
    }
  }

  lemma {:induction false} Small(n: nat, k: nat)
    requires k < n
    ensures k % n == k && k / n == 0
  {
  }

  lemma {:induction false} Less(n: nat, k: nat)
    requires 0 < n <= k
    ensures k % n == (k - n) % n && k / n == (k - n) / n + 1
  {
    var q, r := (k - n) / n, (k - n) % n;
    Quotient(n, q + 1, r, k);
  }

  // The quotient and remainder are the only ones.
  lemma {:induction false} Quotient(n: nat, q: nat, r: nat, k: nat)
    requires r < n && k == n * q + r
    ensures k / n == q && k % n == r
  {
    var d := k / n - q;
    Multiple(n, d);
    assert n * d == n * (k / n) - n * q;
  }

  lemma {:induction false} Multiple(m: nat, d: int)
    ensures d >= 1 ==> m * d >= m
    ensures d <= -1 ==> m * d + m <= 0
  {
  }

  lemma {:induction false} Next(n: nat, len: nat)
    requires n > 0
    ensures if len % n + 1 < n then (len + 1) / n == len / n && (len + 1) % n == len % n + 1
            else (len + 1) / n == len / n + 1 && (len + 1) % n == 0
  {
    var q, r := len / n, len % n;
    if r + 1 < n {
      Quotient(n, q, r + 1, len + 1);
    } else {
      assert len + 1 == n * (q + 1) + 0;
      Quotient(n, q + 1, 0, len + 1);
    }
  }

  lemma {:induction false} StartIs(n: nat, len: nat, j: nat)
    requires 0 < n && j <= n
    ensures Start(n, len, j) == j * (len / n) + Min(j, len % n)
    decreases len
  {
    if len == 0 {
      StartNone(n, j);
      Small(n, 0);
    } else {
      StartIs(n, len - 1, j);
      StartMore(n, len - 1, j);
      ChannelIs(n, len - 1);
      Next(n, len - 1);
      assert j * ((len - 1) / n + 1) == j * ((len - 1) / n) + j;
    }
  }

  // Each byte is the one before it in its channel, less the byte stored for it.
  ghost predicate DeltaDone(n: nat, buf: seq<byte>, r: seq<byte>)
  {
    |r| == |buf| &&
      if n == 0 || n > |buf| then r == buf
      else forall k :: 0 <= k < |buf| ==> DeltaByte(n, buf, r, k)
  }

  predicate DeltaByte(n: nat, buf: seq<byte>, r: seq<byte>, k: nat)
    requires 0 < n && k < |r| == |buf|
  {
    var i := Place(n, |buf|, k);
    i < |buf| && (r[k] as int + buf[i]) % 0x100 == if k < n then 0 else r[k - n]
  }

  lemma {:induction false} DeltaMeans(n: nat, buf: seq<byte>)
    ensures DeltaDone(n, buf, Delta(n, buf))
  {
    if 0 < n <= |buf| {
      forall k | 0 <= k < |buf| ensures DeltaByte(n, buf, Delta(n, buf), k) {
        DeltaAt(n, buf, k);
        ChannelIs(n, k);
        StartIs(n, |buf|, k % n);
      }
    }
  }

  // ---- Which filter a block asks for.

  ghost predicate ArmDone(buf: seq<byte>, r: seq<byte>, pos: nat) {
    && |r| == |buf|
    && (forall i :: 0 <= i && i + 4 <= |buf| && i % 4 == 0 ==> ArmWordDone(buf[i..i + 4], r[i..i + 4], (pos + i) / 4))
    && (forall p :: |buf| - |buf| % 4 <= p < |buf| ==> r[p] == buf[p])
  }

  lemma {:induction false} ArmMeans(buf: seq<byte>, pos: nat)
    ensures ArmDone(buf, Arm(buf, pos, false), pos)
  {
    forall i | 0 <= i && i + 4 <= |buf| && i % 4 == 0
      ensures ArmWordDone(buf[i..i + 4], Arm(buf, pos, false)[i..i + 4], (pos + i) / 4)
    {
      ArmAt(buf, pos, i);
    }
    forall p | |buf| - |buf| % 4 <= p < |buf| ensures Arm(buf, pos, false)[p] == buf[p] {
      ArmTail(buf, pos, p);
    }
  }

  // A block's type says what becomes of its bytes.
  lemma {:induction false} FilterMeans(f: FilterBlock, buf: seq<byte>, pos: nat)
    ensures var r := Rar5Laws.RunFilter(f, buf, pos);
      match f.ftype
      case 0 => DeltaDone(f.param, buf, r)
      case 1 => CallsDone(false, buf, r, pos)
      case 2 => CallsDone(true, buf, r, pos)
      case 3 => ArmDone(buf, r, pos)
      case _ => r == buf
  {
    DeltaMeans(f.param, buf);
    E8Is(false, buf, pos);
    E8Is(true, buf, pos);
    ArmMeans(buf, pos);
  }
}
