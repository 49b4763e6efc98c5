/**
 The external data representation of RFC 4506, as far as the application IPC uses it: for each
 primitive an encoder, a decoder of a prefix of a stream, and the round trip between them.
 */
module Xdr {
  import opened Bytes

  /** What a decoder makes of a stream: nothing, or a value and what is left. */
  datatype Parse<+T> = Fail | Ok(value: T, rest: seq<Byte>) {
    predicate IsFailure() {
      Fail?
    }

    function PropagateFailure<U>(): Parse<U>
      requires Fail?
    {
      Fail
    }

    function Extract(): (T, seq<Byte>)
      requires Ok?
    {
      (value, rest)
    }
  }

  lemma Assoc(a: seq<Byte>, b: seq<Byte>, c: seq<Byte>)
    ensures (a + b) + c == a + (b + c)
  {
  }

  // ---------------------------------------------------------------- where things are

  /** `x` stands in `s` from `at` on. */
  predicate At(s: seq<Byte>, at: nat, x: seq<Byte>) {
    at + |x| <= |s| && s[at..at + |x|] == x
  }

  lemma AtFront(x: seq<Byte>, rest: seq<Byte>)
    ensures At(x + rest, 0, x)
  {
  }

  lemma AtBehind(a: seq<Byte>, rest: seq<Byte>, at: nat, x: seq<Byte>)
    requires At(rest, at, x)
    ensures At(a + rest, |a| + at, x)
  {
    assert (a + rest)[|a| + at..|a| + at + |x|] == rest[at..at + |x|];
  }

  // ---------------------------------------------------------------- words (sections 4.1, 4.2)

  type U32 = n: int | 0 <= n < WORD

  function PutU32(n: U32): (r: seq<Byte>)
    ensures |r| == 4
  {
    Word(n)
  }

  function GetU32(s: seq<Byte>): (p: Parse<U32>)
    ensures p.Ok? ==> |s| == 4 + |p.rest|
  {
    if |s| < 4 then Fail else Ok(WordValue(s[..4]), s[4..])
  }

  lemma U32RoundTrip(n: U32, rest: seq<Byte>)
    ensures GetU32(PutU32(n) + rest) == Ok(n, rest)
  {
    WordRoundTrip(n);
    assert (PutU32(n) + rest)[..4] == PutU32(n);
    assert (PutU32(n) + rest)[4..] == rest;
  }

  // ---------------------------------------------------------------- int and enum (4.1, 4.3)

  type I32 = n: int | -0x8000_0000 <= n < 0x8000_0000

  /** Two's complement. */
  function PutI32(n: I32): (r: seq<Byte>)
    ensures |r| == 4
  {
    Word(if n < 0 then n + WORD else n)
  }

  function GetI32(s: seq<Byte>): (p: Parse<I32>)
    ensures p.Ok? ==> |s| == 4 + |p.rest|
  {
    var (n, rest) :- GetU32(s);
    Ok(if n >= 0x8000_0000 then n - WORD else n, rest)
  }

  lemma I32RoundTrip(n: I32, rest: seq<Byte>)
    ensures GetI32(PutI32(n) + rest) == Ok(n, rest)
  {
    U32RoundTrip(if n < 0 then n + WORD else n, rest);
  }

  // ---------------------------------------------------------------- booleans (4.4)

  function PutBool(b: bool): (r: seq<Byte>)
    ensures |r| == 4
  {
    Word(if b then 1 else 0)
  }

  /** Any word but zero is read as true. */
  function GetBool(s: seq<Byte>): (p: Parse<bool>)
    ensures p.Ok? ==> |s| == 4 + |p.rest|
  {
    var (n, rest) :- GetU32(s);
    Ok(n != 0, rest)
  }

  lemma BoolRoundTrip(b: bool, rest: seq<Byte>)
    ensures GetBool(PutBool(b) + rest) == Ok(b, rest)
  {
    U32RoundTrip(if b then 1 else 0, rest);
  }

  // ---------------------------------------------------------------- hypers (4.5)

  type U64 = n: int | 0 <= n < WORD * WORD

  function PutU64(n: U64): (r: seq<Byte>)
    ensures |r| == 8
  {
    Word(n / WORD) + Word(n % WORD)
  }

  function GetU64(s: seq<Byte>): (p: Parse<U64>)
    ensures p.Ok? ==> |s| == 8 + |p.rest|
  {
    var (hi, s1) :- GetU32(s);
    var (lo, s2) :- GetU32(s1);
    Ok(hi * WORD + lo, s2)
  }

  lemma U64RoundTrip(n: U64, rest: seq<Byte>)
    ensures GetU64(PutU64(n) + rest) == Ok(n, rest)
  {
    Assoc(Word(n / WORD), Word(n % WORD), rest);
    U32RoundTrip(n / WORD, Word(n % WORD) + rest);
    U32RoundTrip(n % WORD, rest);
  }

  /** The more significant word goes first. */
  lemma HyperOrder(m: U64, n: U64)
    ensures WordValue(PutU64(m)[..4]) < WordValue(PutU64(n)[..4]) ==> m < n
    ensures PutU64(m)[..4] == PutU64(n)[..4] ==> (WordValue(PutU64(m)[4..]) < WordValue(PutU64(n)[4..]) <==> m < n)
  {
    WordRoundTrip(m / WORD);
    WordRoundTrip(n / WORD);
    WordRoundTrip(m % WORD);
    WordRoundTrip(n % WORD);
    assert PutU64(m)[..4] == Word(m / WORD) && PutU64(m)[4..] == Word(m % WORD);
    assert PutU64(n)[..4] == Word(n / WORD) && PutU64(n)[4..] == Word(n % WORD);
  }

  // ---------------------------------------------------------------- opaque data (4.9, 4.10)

  /** Bytes needed to reach a multiple of four. */
  function PadLength(n: nat): (k: nat)
    ensures k < 4 && (n + k) % 4 == 0
  {
    (4 - n % 4) % 4
  }

  function PutOpaque(data: seq<Byte>): (r: seq<Byte>)
    ensures |r| == |data| + PadLength(|data|) && |r| % 4 == 0
  {
    data + seq(PadLength(|data|), _ => 0)
  }

  /** The padding is skipped, whatever it holds. */
  function GetOpaque(s: seq<Byte>, n: nat): (p: Parse<seq<Byte>>)
    ensures p.Ok? ==> |p.value| == n && |s| == n + PadLength(n) + |p.rest|
  {
    if |s| < n + PadLength(n) then Fail else Ok(s[..n], s[n + PadLength(n)..])
  }

  lemma OpaqueRoundTrip(data: seq<Byte>, rest: seq<Byte>)
    ensures GetOpaque(PutOpaque(data) + rest, |data|) == Ok(data, rest)
  {
    var s := PutOpaque(data) + rest;
    assert s[..|data|] == data;
    assert s[|PutOpaque(data)|..] == rest;
  }

  /** The bytes themselves, and then as many zeros as a multiple of four takes. */
  lemma OpaqueLayout(data: seq<Byte>)
    ensures At(PutOpaque(data), 0, data)
    ensures forall i :: |data| <= i < |PutOpaque(data)| ==> PutOpaque(data)[i] == 0
  {
  }

  /** Variable-length opaque data of at most `max` bytes. */
  function PutBytes(data: seq<Byte>, max: nat): (r: seq<Byte>)
    requires |data| <= max < WORD
    ensures |r| == BytesSize(|data|) && |r| % 4 == 0
  {
    PutU32(|data|) + PutOpaque(data)
  }

  function BytesSize(n: nat): (k: nat)
    ensures k % 4 == 0
  {
    4 + n + PadLength(n)
  }

  function GetBytes(s: seq<Byte>, max: nat): (p: Parse<seq<Byte>>)
    ensures p.Ok? ==> |p.value| <= max && |s| == BytesSize(|p.value|) + |p.rest|
  {
    var (n, s1) :- GetU32(s);
    if n > max then Fail else GetOpaque(s1, n)
  }

  lemma BytesRoundTrip(data: seq<Byte>, max: nat, rest: seq<Byte>)
    requires |data| <= max < WORD
    ensures GetBytes(PutBytes(data, max) + rest, max) == Ok(data, rest)
  {
    Assoc(PutU32(|data|), PutOpaque(data), rest);
    U32RoundTrip(|data|, PutOpaque(data) + rest);
    OpaqueRoundTrip(data, rest);
  }

  /** The length goes first, as a word. */
  lemma BytesLayout(data: seq<Byte>, max: nat)
    requires |data| <= max < WORD
    ensures At(PutBytes(data, max), 0, Word(|data|)) && At(PutBytes(data, max), 4, data)
  {
    AtFront(Word(|data|), PutOpaque(data));
    OpaqueLayout(data);
    AtBehind(Word(|data|), PutOpaque(data), 0, data);
  }
}
