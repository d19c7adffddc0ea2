// cbcDecryptReader: CBC decryption (section 6.2 of NIST SP 800-38A) over a source that returns
// whatever counts it likes. The block cipher is left uninterpreted.

module Cbc {
  import opened Basics
  import BH = BlockHeader

  const BLOCK: nat := 16

  // The cipher's inverse on one block.
  datatype Cipher = Cipher(inverse: seq<byte> -> seq<byte>) {
    function ByteAt(s: seq<byte>, i: nat): byte {
      if i < |s| then s[i] else 0
    }

    // One block: the inverse cipher, exclusive-or the ciphertext block before it.
    function Plain(prev: seq<byte>, block: seq<byte>): (r: seq<byte>)
      ensures |r| == BLOCK
    {
      seq(BLOCK, i => if i >= 0 then BH.XorByte(ByteAt(inverse(block), i), ByteAt(prev, i)) else 0)
    }
  }

  // The decryption of the whole blocks s starts with.
  function Decrypted(k: Cipher, iv: seq<byte>, s: seq<byte>): seq<byte>
    decreases |s|
  {
    if |s| < BLOCK then [] else k.Plain(iv, s[..BLOCK]) + Decrypted(k, s[..BLOCK], s[BLOCK..])
  }

  // No partial block remains.
  predicate Whole(s: seq<byte>)
    decreases |s|
  {
    if |s| < BLOCK then s == [] else Whole(s[BLOCK..])
  }

  function LastBlock(iv: seq<byte>, s: seq<byte>): seq<byte>
    decreases |s|
  {
    if |s| < BLOCK then iv else LastBlock(s[..BLOCK], s[BLOCK..])
  }

  // Decrypting a whole-block prefix first changes nothing.
  lemma {:induction false} DecryptedSplit(k: Cipher, iv: seq<byte>, a: seq<byte>, b: seq<byte>)
    requires Whole(a)
    ensures Decrypted(k, iv, a + b) == Decrypted(k, iv, a) + Decrypted(k, LastBlock(iv, a), b)
    ensures Whole(a + b) == Whole(b)
    decreases |a|
  {
    if a == [] {
      assert a + b == b;
    } else {
      assert (a + b)[..BLOCK] == a[..BLOCK] && (a + b)[BLOCK..] == a[BLOCK..] + b;
      DecryptedSplit(k, a[..BLOCK], a[BLOCK..], b);
    }
  }

  // What a source still has to give, in the pieces it will give it in, and how it ends. eager says
  // that the ending comes with the last piece instead of after it.
  datatype Source = Source(pieces: seq<seq<byte>>, eager: bool, fin: Error)

  function Flat(pieces: seq<seq<byte>>): seq<byte> {
    if pieces == [] then [] else pieces[0] + Flat(pieces[1..])
  }

  datatype Took = Took(bytes: seq<byte>, err: Option<Error>, src: Source)

  // io.Reader.Read into room bytes.
  function Take(s: Source, room: nat): (t: Took)
    ensures |t.bytes| <= room && Flat(s.pieces) == t.bytes + Flat(t.src.pieces)
    ensures t.err.Some? ==> t.err == Some(s.fin) && t.src.pieces == []
    ensures t.src.fin == s.fin
  {
    if s.pieces == [] then Took([], Some(s.fin), s)
    else if |s.pieces[0]| <= room then
      var rest := s.pieces[1..];
      Took(s.pieces[0], if s.eager && rest == [] then Some(s.fin) else None, s.(pieces := rest))
    else
      var first, rest := s.pieces[0], s.pieces[1..];
      assert s.pieces == [first] + rest;
      assert ([first[room..]] + rest)[1..] == rest;
      assert first == first[..room] + first[room..];
      Took(first[..room], None, s.(pieces := [first[room..]] + rest))
  }

  class CbcReader {
    const k: Cipher
    const inBuf: array<byte>
    var src: Source
    var iv: seq<byte>          // the last ciphertext block decrypted: the BlockMode's state
    var inLen: nat
    var outBuf: seq<byte>
    var err: Option<Error>

    ghost predicate Valid()
      reads this
    {
      && inBuf.Length == 4096 && inLen < BLOCK
      && (err.Some? && err.value != EOF ==> inLen == 0)
      && (err.Some? && err.value == EOF ==> src.fin == EOF)
    }

    // Ciphertext not yet decrypted: held back, or still in the source.
    ghost function Pending(): seq<byte>
      requires Valid()
      reads this, inBuf
    {
      inBuf[..inLen] + if err.None? then Flat(src.pieces) else []
    }

    // What Read has still to deliver, if the source ends in EOF.
    ghost function Owed(): seq<byte>
      requires Valid()
      reads this, inBuf
    {
      outBuf + Decrypted(k, iv, Pending())
    }

    // How the stream ends.
    ghost function Ending(): Error
      requires Valid()
      reads this, inBuf
    {
      if err.Some? && err.value != EOF then err.value
      else if src.fin != EOF then src.fin
      else if Whole(Pending()) then EOF else UnexpectedEOF
    }

    constructor (k: Cipher, iv: seq<byte>, src: Source)
      ensures Valid() && fresh(inBuf)
      ensures Owed() == Decrypted(k, iv, Flat(src.pieces)) && err.None? && this.src == src
      ensures Ending() == if src.fin != EOF then src.fin else if Whole(Flat(src.pieces)) then EOF else UnexpectedEOF
    {
      this.k, this.iv, this.src := k, iv, src;
      inBuf := new byte[4096](_ => 0);
      inLen, outBuf, err := 0, [], None;
      new;
      assert inBuf[..0] + Flat(src.pieces) == Flat(src.pieces);
    }

    // Reads into a buffer of n bytes. Without an error, what came out is exactly the front of what
    // was owed. An error comes with no bytes, is the stream's ending, and stays; a clean or a cut-short
    // end comes only once everything owed has been delivered.
    method Read(n: nat) returns (out: seq<byte>, e: Option<Error>)
      requires Valid()
      modifies this, inBuf
      ensures Valid() && Ending() == old(Ending()) && |out| <= n
      ensures e.None? ==> old(Owed()) == out + Owed() && (n > 0 ==> out != [])
      ensures e.Some? ==> out == [] && e == Some(Ending()) && Owed() == [] && err == e && inLen == 0
      ensures e.Some? && (e.value == EOF || e.value == UnexpectedEOF) && src.fin == EOF ==> old(Owed()) == []
      ensures old(err.Some? && inLen == 0 && outBuf == []) ==> e == old(err)
    {
      if outBuf != [] {
        out := Copy(n, Pending());
        return out, None;
      }
      if err.Some? && inLen == 0 {
        assert Pending() == [];
        return [], err;
      }
      ghost var pending := Pending();
      var hard := Fill();
      if hard {
        assert Pending() == [];
        return [], err;
      }
      if inLen < BLOCK {
        assert inBuf[..inLen] + [] == inBuf[..inLen];
        if inLen > 0 {
          inLen := 0;
          err := Some(UnexpectedEOF);
        }
        assert Pending() == [];
        return [], err;
      }
      DecryptHeld(pending);
      out := Copy(n, Pending());
      e := None;
    }

    // copy(p, c.outBuf).
    method Copy(n: nat, ghost pending: seq<byte>) returns (out: seq<byte>)
      modifies `outBuf
      ensures |out| == Min(n, |old(outBuf)|) && old(outBuf) == out + outBuf
      ensures old(outBuf) + Decrypted(k, iv, pending) == out + (outBuf + Decrypted(k, iv, pending))
    {
      var c := Min(n, |outBuf|);
      out := outBuf[..c];
      assert outBuf == outBuf[..c] + outBuf[c..];
      assert outBuf + Decrypted(k, iv, pending) == outBuf[..c] + (outBuf[c..] + Decrypted(k, iv, pending));
      outBuf := outBuf[c..];
    }

    // Everything held or still to come.
    ghost function Held(): seq<byte>
      requires inLen <= inBuf.Length
      reads this, inBuf
    {
      inBuf[..inLen] + if err.None? then Flat(src.pieces) else []
    }

    // Reads until a whole block is there or the source ends; an error other than EOF is recorded, and
    // what was held goes with it.
    method Fill() returns (hard: bool)
      requires Valid() && (err.None? || err == Some(EOF))
      modifies `src, `inLen, `err, inBuf
      ensures inLen <= inBuf.Length && src.fin == old(src.fin)
      ensures if hard then err == Some(src.fin) && src.fin != EOF && inLen == 0
              else (err.None? || (err == Some(EOF) && src.fin == EOF)) && (inLen >= BLOCK || err.Some?) && Held() == old(Held())
    {
      ghost var all := Held();
      hard := false;
      while inLen < BLOCK && err.None?
        invariant inLen <= inBuf.Length == 4096 && src.fin == old(src.fin) && Held() == all
        invariant err.None? || (err == Some(EOF) && src.fin == EOF)
        decreases if err.None? then 1 else 0, |src.pieces|, |Flat(src.pieces)|
      {
        var t := Take(src, inBuf.Length - inLen);
        Hold(t.bytes, t.src);
        if t.err.Some? {
          if t.err.value != EOF {
            err := t.err;
            inLen := 0;
            return true;
          }
          err := t.err;
        }
      }
    }

    // The bytes just read go behind what is held.
    method Hold(bytes: seq<byte>, rest: Source)
      requires err.None? && inLen + |bytes| <= inBuf.Length && Flat(src.pieces) == bytes + Flat(rest.pieces)
      modifies `src, `inLen, inBuf
      ensures inLen == old(inLen) + |bytes| && src == rest && Held() == old(Held())
    {
      ghost var front := inBuf[..inLen];
      forall i | 0 <= i < |bytes| {
        inBuf[inLen + i] := bytes[i];
      }
      inLen, src := inLen + |bytes|, rest;
      assert inBuf[..inLen] == front + bytes;
      assert front + (bytes + Flat(rest.pieces)) == (front + bytes) + Flat(rest.pieces);
    }

    // Decrypts the whole blocks held and carries the tail over to the next call.
    method DecryptHeld(ghost pending: seq<byte>)
      requires BLOCK <= inLen <= inBuf.Length == 4096 && outBuf == [] && Held() == pending
      requires err.None? || (err == Some(EOF) && src.fin == EOF)
      modifies `iv, `inLen, `outBuf, inBuf
      ensures Valid() && outBuf != [] && Whole(Pending()) == Whole(pending)
      ensures Owed() == Decrypted(k, old(iv), pending)
    {
      var decryptLen := inLen / BLOCK * BLOCK;
      ghost var rest := if err.None? then Flat(src.pieces) else [];
      ghost var data, tail := inBuf[..decryptLen], inBuf[decryptLen..inLen];
      WholeBlocks(data, inLen / BLOCK);
      assert pending == data + (tail + rest);
      DecryptedSplit(k, iv, data, tail + rest);
      outBuf := CryptBlocks(inBuf[..decryptLen]);
      var rem := inLen - decryptLen;
      forall i | 0 <= i < rem {
        inBuf[i] := inBuf[decryptLen + i];
      }
      inLen := rem;
      assert inBuf[..inLen] == tail;
    }

    // BlockMode.CryptBlocks: the chaining value carries over.
    method CryptBlocks(data: seq<byte>) returns (plain: seq<byte>)
      requires Whole(data)
      modifies `iv
      ensures plain == Decrypted(k, old(iv), data) && iv == LastBlock(old(iv), data)
      ensures data != [] ==> plain != []
    {
      plain := [];
      var rest := data;
      ghost var whole := Decrypted(k, iv, data);
      while rest != []
        invariant Whole(rest) && whole == plain + Decrypted(k, iv, rest)
        invariant LastBlock(iv, rest) == LastBlock(old(iv), data)
        invariant |plain| + |rest| >= |data|
        decreases |rest|
      {
        var block := k.Plain(iv, rest[..BLOCK]);
        assert plain + (block + Decrypted(k, rest[..BLOCK], rest[BLOCK..])) == (plain + block) + Decrypted(k, rest[..BLOCK], rest[BLOCK..]);
        plain := plain + block;
        iv := rest[..BLOCK];
        rest := rest[BLOCK..];
      }
    }
  }

  lemma {:induction false} WholeBlocks(s: seq<byte>, q: nat)
    requires |s| == q * BLOCK
    ensures Whole(s)
  {
    if q > 0 {
      WholeBlocks(s[BLOCK..], q - 1);
    }
  }

  // Read called with these buffer sizes until it reports an error: an error-free run has delivered
  // the front of the decryption of the source's whole blocks, and one that met the end all of it, with
  // ErrUnexpectedEOF exactly when a partial block remained. Every read delivers a byte until then, unless
  // it has room for none, so as many reads as there are bytes, and one more, always meet the end.
  method ReadAll(c: CbcReader, sizes: seq<nat>) returns (out: seq<byte>, e: Option<Error>)
    requires c.Valid()
    modifies c, c.inBuf
    ensures c.Valid()
    ensures out <= old(c.Owed()) && (e.None? ==> old(c.Owed()) == out + c.Owed())
    ensures e.None? && (forall i :: 0 <= i < |sizes| ==> sizes[i] > 0) ==> |out| >= |sizes|
    ensures e.Some? ==> e == Some(old(c.Ending())) && (c.src.fin == EOF && (e.value == EOF || e.value == UnexpectedEOF) ==> out == old(c.Owed()))
  {
    out, e := [], None;
    ghost var all := c.Owed();
    for i := 0 to |sizes|
      invariant c.Valid() && e.None? && all == out + c.Owed() && c.Ending() == old(c.Ending())
      invariant (forall j :: 0 <= j < i ==> sizes[j] > 0) ==> |out| >= i
    {
      ghost var owed := c.Owed();
      var got;
      got, e := c.Read(sizes[i]);
      if e.Some? {
        return;
      }
      assert out + (got + c.Owed()) == (out + got) + c.Owed();
      out := out + got;
    }
  }
}
