/** Unsigned varints as used by multiaddr codes and lengths: little-endian groups of seven
    bits, at most nine bytes, and only the minimal encoding is accepted. */
module Varint {

  type byte = x: int | 0 <= x < 256
  type Bytes = seq<byte>

  datatype Option<+T> = None | Some(value: T)

  const MaxCode := 0x7FFF_FFFF

  /** A number read and how many bytes it took, or why it could not be read. */
  datatype Read = Ok(value: nat, length: nat) | Underflow | Overflow | NotMinimal

  function Encode(n: nat): Bytes {
    if n < 128 then [n] else [n % 128 + 128] + Encode(n / 128)
  }

  /** Reads a number whose k-th byte is b[0]. */
  function Decode(b: Bytes, k: nat): (r: Read)
    ensures r.Ok? ==> 1 <= r.length <= |b|
    decreases b
  {
    if b == [] then Underflow
    else if (k == 8 && b[0] >= 128) || k >= 9 then Overflow
    else if b[0] < 128 then (if b[0] == 0 && k > 0 then NotMinimal else Ok(b[0], 1))
    else
      match Decode(b[1..], k + 1)
      case Ok(v, n) => Ok(b[0] - 128 + 128 * v, n + 1)
      case e => e
  }

  /** Codes and lengths are limited to 31 bits. */
  function ReadCode(b: Bytes): (r: Read)
    ensures r.Ok? ==> 1 <= r.length <= |b|
  {
    match Decode(b, 0)
    case Ok(v, n) => if v > MaxCode then Overflow else Ok(v, n)
    case e => e
  }

  function CodeToVarint(num: int): Option<Bytes> {
    if num < 0 || num > MaxCode then None else Some(Encode(num))
  }

  /** The numbers that fit in the bytes from position k on. */
  function Capacity(k: nat): nat
    decreases 9 - k
  {
    if k >= 9 then 1 else 128 * Capacity(k + 1)
  }

  lemma CapacityHoldsCodes()
    ensures MaxCode < Capacity(0)
  {
    assert Capacity(8) == 128 && Capacity(7) == 16384 && Capacity(6) == 2097152 && Capacity(5) == 268435456;
    assert Capacity(4) == 34359738368;
    assert Capacity(3) >= Capacity(4) && Capacity(2) >= Capacity(3) && Capacity(1) >= Capacity(2);
  }

  /** What was encoded is read back, whatever bytes follow. */
  lemma {:induction false} DecodeEncode(n: nat, k: nat, rest: Bytes)
    requires n < Capacity(k) && (k > 0 ==> n > 0) && k < 9
    ensures Decode(Encode(n) + rest, k) == Ok(n, |Encode(n)|)
    decreases n
  {
    var b := Encode(n) + rest;
    if n < 128 {
      assert b[0] == n;
    } else {
      assert k < 8;
      DecodeEncode(n / 128, k + 1, rest);
      assert b[0] == n % 128 + 128;
      assert b[1..] == Encode(n / 128) + rest;
    }
  }

  /** Conversely, only the encoding of the number read is accepted. */
  lemma {:induction false} DecodeCanonical(b: Bytes, k: nat)
    requires Decode(b, k).Ok?
    ensures var r := Decode(b, k); 1 <= r.length <= |b| && b[..r.length] == Encode(r.value)
    ensures k > 0 ==> Decode(b, k).value > 0
    decreases b
  {
    var r := Decode(b, k);
    if b[0] < 128 {
      assert b[..1] == [b[0]];
    } else {
      DecodeCanonical(b[1..], k + 1);
      var q := Decode(b[1..], k + 1);
      assert r.value == b[0] - 128 + 128 * q.value && q.value > 0;
      assert r.value % 128 == b[0] - 128 && r.value / 128 == q.value;
      assert b[..r.length] == [b[0]] + b[1..][..q.length];
    }
  }

  /** A number that was read is read the same way when more bytes follow. */
  lemma {:induction false} DecodeExtends(b: Bytes, k: nat, rest: Bytes)
    requires Decode(b, k).Ok?
    ensures Decode(b + rest, k) == Decode(b, k)
    decreases b
  {
    if b[0] >= 128 {
      DecodeExtends(b[1..], k + 1, rest);
      assert (b + rest)[1..] == b[1..] + rest;
    }
  }

  /** Reading a code is the inverse of writing one, on exactly the 31-bit codes. */
  lemma CodeRoundTrip(num: int, rest: Bytes)
    ensures CodeToVarint(num).Some? ==> ReadCode(CodeToVarint(num).value + rest) == Ok(num, |CodeToVarint(num).value|)
    ensures CodeToVarint(num).None? <==> num < 0 || num > MaxCode
  {
    if 0 <= num <= MaxCode {
      CapacityHoldsCodes();
      DecodeEncode(num, 0, rest);
    }
  }

  lemma ReadCodeCanonical(b: Bytes)
    requires ReadCode(b).Ok?
    ensures var r := ReadCode(b);
            1 <= r.length <= |b| && r.value <= MaxCode && CodeToVarint(r.value) == Some(b[..r.length])
  {
    DecodeCanonical(b, 0);
  }

  lemma ReadCodeExtends(b: Bytes, rest: Bytes)
    requires ReadCode(b).Ok?
    ensures ReadCode(b + rest) == ReadCode(b)
  {
    DecodeExtends(b, 0, rest);
  }
}
