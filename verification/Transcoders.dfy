/** Concrete transcoders, and that they keep the contract the text round trip relies on. */
module Transcoders {
  import opened Varint
  import opened Multiaddr
  import opened MultiaddrText

  // ---------------------------------------------------------------------------------
  // Decimal text and big-endian bytes
  // ---------------------------------------------------------------------------------

  function Format(n: nat): Bytes {
    if n < 10 then [48 + n] else Format(n / 10) + [48 + n % 10]
  }

  function ParseDigits(s: Bytes): Option<nat> {
    if s == [] then Some(0) else
    var d := s[|s| - 1];
    match ParseDigits(s[..|s| - 1])
    case None => None
    case Some(n) => if 48 <= d < 58 then Some(10 * n + (d - 48)) else None
  }

  function ToNat(b: Bytes): nat {
    if b == [] then 0 else 256 * ToNat(b[..|b| - 1]) + b[|b| - 1]
  }

  function FromNat(n: nat, k: nat): Bytes {
    if k == 0 then [] else FromNat(n / 256, k - 1) + [n % 256]
  }

  function Pow256(k: nat): nat { if k == 0 then 1 else 256 * Pow256(k - 1) }

  lemma {:induction false} FormatParses(n: nat)
    ensures ParseDigits(Format(n)) == Some(n)
    ensures Format(n) != [] && SlashFree(Format(n))
  {
    var s := Format(n);
    if n < 10 {
      assert s[..0] == [] && ParseDigits([]) == Some(0);
    } else {
      FormatParses(n / 10);
      assert s[..|s| - 1] == Format(n / 10);
    }
  }

  lemma {:induction false} FromNatToNat(b: Bytes)
    ensures FromNat(ToNat(b), |b|) == b && ToNat(b) < Pow256(|b|)
  {
    if b != [] {
      var init := b[..|b| - 1];
      FromNatToNat(init);
      assert ToNat(b) / 256 == ToNat(init) && ToNat(b) % 256 == b[|b| - 1];
      assert b == init + [b[|b| - 1]];
    }
  }

  // ---------------------------------------------------------------------------------
  // Fixed-width numbers: ipcidr (1 byte), port (2 bytes), memory (8 bytes)
  // ---------------------------------------------------------------------------------

  /** ParseUint with 8 * k bits, written big-endian into k bytes. */
  function NumberToBytes(k: nat, s: Bytes): Option<Bytes> {
    match ParseDigits(s)
    case Some(n) => if s != [] && n < Pow256(k) then Some(FromNat(n, k)) else None
    case None => None
  }

  function NumberToString(k: nat, b: Bytes): Option<Bytes> {
    if |b| < k then None else Some(Format(ToNat(b[..k])))
  }

  function ExactNumberToString(k: nat, b: Bytes): Option<Bytes> {
    if |b| != k then None else NumberToString(k, b)
  }

  const Port := Transcoder(s => NumberToBytes(2, s), b => NumberToString(2, b), (b: Bytes) => true)
  const IpCidr := Transcoder(s => NumberToBytes(1, s), b => ExactNumberToString(1, b), (b: Bytes) => |b| == 1)
  const Memory := Transcoder(s => NumberToBytes(8, s), b => ExactNumberToString(8, b), (b: Bytes) => |b| == 8)

  lemma NumberRoundTrip(k: nat, b: Bytes)
    requires |b| == k
    ensures var v := NumberToString(k, b).value; v != [] && SlashFree(v) && NumberToBytes(k, v) == Some(b)
  {
    assert b[..k] == b;
    FromNatToNat(b);
    FormatParses(ToNat(b));
  }

  /** The number transcoders are lawful for protocols of their width. */
  lemma NumbersLawful(p: Protocol, raw: Bytes)
    requires !p.path
    ensures p.size == 16 ==> LawfulOn(p, Port, raw)
    ensures p.size == 8 ==> LawfulOn(p, IpCidr, raw)
    ensures p.size == 64 ==> LawfulOn(p, Memory, raw)
  {
    NumberRoundTrip(|raw|, raw);
  }

  // ---------------------------------------------------------------------------------
  // Names and paths
  // ---------------------------------------------------------------------------------

  predicate IsName(b: Bytes) { b != [] && SlashFree(b) }

  predicate IsPath(b: Bytes) { |b| >= 2 && b[0] == Slash && b[|b| - 1] != Slash }

  const Dns := Transcoder(s => if IsName(s) then Some(s) else None, b => Some(b), IsName)
  const Ip6Zone := Transcoder(s => if IsName(s) then Some(s) else None, b => if b == [] then None else Some(b), IsName)
  const Unix := Transcoder(s => Some(s), b => Some(b), IsPath)

  /** Names are lawful for protocols that are not paths, and unix paths for those that are. None of them
      accepts an empty value. */
  lemma NamesLawful(p: Protocol, raw: Bytes)
    ensures !p.path ==> LawfulOn(p, Dns, raw) && LawfulOn(p, Ip6Zone, raw)
    ensures p.path ==> LawfulOn(p, Unix, raw)
    ensures Dns.validBytes(raw) || Ip6Zone.validBytes(raw) || Unix.validBytes(raw) ==> raw != []
  {
  }
}
