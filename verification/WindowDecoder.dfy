// decoder50's apply functions, working on the ring buffer (decoder50.go:258-290,
// decoder50_items.go:156-228).

module WindowDecoder {
  import opened Basics
  import opened DecodeTypes
  import opened Apply
  import L = Lz77
  import W = Window

  class WindowDecoder {
    const win: W.Window
    const offset: array<int>
    var length: nat
    var fl: seq<FilterBlock>
    var outbuf: seq<byte>
    var tot: nat
    var decoded: nat
    var dictSize: int

    ghost predicate Valid()
      reads this, win, win.buf, offset
    {
      win.Valid() && offset.Length == 4
    }

    ghost function D(): Dec
      requires Valid()
      reads this, win, win.buf, offset
    {
      Dec(win.W(), offset[..], length, fl, outbuf, tot, decoded, dictSize)
    }

    // A decoder for its first member.
    constructor (win: W.Window, dictSize: int)
      requires win.Valid()
      ensures Valid() && this.win == win && fresh(offset)
      ensures D() == Dec(win.W(), [0, 0, 0, 0], 0, [], [], 0, 0, dictSize)
    {
      this.win := win;
      offset := new int[4](_ => 0);
      length, fl, outbuf, tot, decoded := 0, [], [], 0, 0;
      this.dictSize := dictSize;
    }

    // copyMatch: window.CopyBytes decides; this only names the refusal.
    method CopyMatch() returns (err: Option<Error>)
      requires Valid() && win.unread + length <= win.buf.Length
      modifies win, win.buf
      ensures Valid() && win.buf == old(win.buf) && win.incomplete == old(win.incomplete)
      ensures match L.CopyBytes(old(D()).win, length, offset[0])
              case Some(w) => err.None? && win.W() == w
              case None => err == Some(Refusal(old(D()))) && win.W() == old(win.W())
    {
      var ok := win.CopyBytes(length, offset[0]);
      if ok {
        return None;
      }
      var size := win.buf.Length;
      if win.HistoryLen() == size && offset[0] > size && dictSize > size && offset[0] <= dictSize {
        return Some(DictionaryTooLarge);
      }
      err := Some(WindowOffsetBounds);
    }

    method ReplayMatch() returns (err: Option<Error>)
      requires Valid() && win.unread + length <= win.buf.Length
      modifies win, win.buf, `decoded
      ensures Valid() && win.buf == old(win.buf)
      ensures Applied(D(), err) == Replay(old(D()))
    {
      err := CopyMatch();
      if err.None? {
        decoded := decoded + length;
      }
    }

    method ApplyMatch(length: nat, distance: int) returns (err: Option<Error>)
      requires Valid() && win.unread + length <= win.buf.Length
      modifies this, offset, win, win.buf
      ensures Valid() && win.buf == old(win.buf)
      ensures Applied(D(), err) == Replay(old(D()).(offset := [distance] + old(offset[..3]), length := length))
    {
      ghost var d := D();
      offset[3] := offset[2];
      offset[2] := offset[1];
      offset[1] := offset[0];
      offset[0] := distance;
      this.length := length;
      assert D() == d.(offset := [distance] + d.offset[..3], length := length);
      err := ReplayMatch();
    }

    method ApplyRepDist(slot: nat, length: nat) returns (err: Option<Error>)
      requires Valid() && slot < 4 && win.unread + length <= win.buf.Length
      modifies this, offset, win, win.buf
      ensures Valid() && win.buf == old(win.buf)
      ensures Applied(D(), err) == Replay(old(D()).(offset := Recalled(old(offset[..]), slot), length := length))
    {
      ghost var d := D();
      var distance := offset[slot];
      forall k | 0 <= k < slot {
        offset[k + 1] := offset[k];
      }
      offset[0] := distance;
      this.length := length;
      assert offset[..] == Recalled(d.offset, slot);
      assert D() == d.(offset := Recalled(d.offset, slot), length := length);
      err := ReplayMatch();
    }

    method QueueFilter(start: nat, flen: nat, ftype: nat, param: nat) returns (err: Option<Error>)
      requires Valid()
      modifies `fl
      ensures Valid() && Applied(D(), err) == Apply.QueueFilter(old(D()), start, flen, ftype, param)
    {
      if |fl| >= MAX_QUEUED {
        return Some(TooManyFilters);
      }
      if flen > MAX_FILTER_LENGTH || start > win.buf.Length {
        return Some(InvalidFilter);
      }
      var at := decoded + start;
      if |fl| > 0 && at < fl[|fl| - 1].start {
        return Some(InvalidFilter);
      }
      if ftype > 3 {
        return Some(UnknownFilter);
      }
      if flen == 0 {
        return None;
      }
      fl := fl + [FilterBlock(at, flen, ftype, param)];
      err := None;
    }

    // decodeSymbol's second half, with the room fill leaves in front of the read pointer.
    method ApplySymbol(op: Op) returns (err: Option<Error>)
      requires Valid() && DecOk(D()) && InRange(op) && win.unread < win.Target()
      modifies this, offset, win, win.buf
      ensures Valid() && win.buf == old(win.buf)
      ensures Applied(D(), err) == ApplyOp(old(D()), op)
    {
      AppliedFits(D(), op);
      match op {
        case Literal(b) =>
          win.WriteByte(b);
          decoded := decoded + 1;
          err := None;
        case Match(len, distance) =>
          err := ApplyMatch(len, distance);
        case RepDist(slot, len) =>
          err := ApplyRepDist(slot, len);
        case RepLast =>
          err := ReplayMatch();
        case Filter(start, flen, ftype, param) =>
          err := QueueFilter(start, flen, ftype, param);
      }
    }
  }
}
