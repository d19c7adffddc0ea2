// Values every component shares: bytes, the error enumeration, options.

module Basics {

  type byte = x: int | 0 <= x < 256

  datatype Option<+T> = None | Some(value: T) {
    function GetOr(default: T): T {
      if Some? then value else default
    }
  }

  // The sentinels the decode path distinguishes. Message text and wrapping are not modelled.
  datatype Error =
    | EOF
    | UnexpectedEOF
    | OutOfData
    | HuffDecodeFailed
    | InvalidLengthTable
    | CorruptDecodeHeader
    | TooManyFilters
    | InvalidFilter
    | UnknownFilter
    | WindowOffsetBounds
    | DictionaryTooLarge

  // The two errors decoder50.Read treats as "nothing more for now" (decoder50.go:371).
  predicate Soft(err: Option<Error>) {
    err.None? || err.value == EOF || err.value == OutOfData
  }

  // A definition stated for every now with Looked(now) stays out of sight until a proof asks for it by
  // mentioning Looked(Now).
  datatype Asked = Now

  ghost predicate Looked(now: Asked) {
    now == Now
  }

  function Min(a: int, b: int): int {
    if a <= b then a else b
  }

  function Repeat<T>(x: T, n: nat): (s: seq<T>)
    ensures |s| == n && forall i :: 0 <= i < n ==> s[i] == x
  {
    seq(n, _ => x)
  }

  function Zeros(n: nat): (s: seq<byte>)
    ensures |s| == n && forall i :: 0 <= i < n ==> s[i] == 0
  {
    Repeat(0, n)
  }

  function UpTo(m: nat): (r: set<nat>)
    ensures |r| == m && forall i: nat :: i in r <==> i < m
  {
    if m == 0 then {} else UpTo(m - 1) + {(m - 1) as nat}
  }

  lemma {:induction false} SubsetSize(a: set<nat>, b: set<nat>)
    requires a <= b
    ensures |a| <= |b|
  {
    assert b == a + (b - a) && a !! (b - a);
  }

  // Fewer numbers than n leave one below n free.
  lemma {:induction false} FreeBelow(used: set<nat>, n: nat) returns (free: nat)
    requires |used| < n
    ensures free < n && free !in used
  {
    if UpTo(n) <= used {
      SubsetSize(UpTo(n), used);
      assert false;
    }
    free :| free in UpTo(n) && free !in used;
  }
}
