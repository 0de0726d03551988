/** IPv4 prefix matching of clientIpService: bit masks against plain division (RFC 4632 section 3.1).
    An address is the number its four octets spell. Two addresses share a prefix exactly if they
    agree after division by the size of the prefix, including prefix lengths 0 and 32, so a prefix is
    an interval of addresses. */
module Ipv4 {
  import opened Wrappers
  import opened Text
  import opened Bits

  /** Number(part) where it is an integer, None where Number.isInteger says no. */
  type ToNumber = string -> Option<int>

  predicate Octet(n: Option<int>) {
    n.Some? && 0 <= n.value <= 255
  }

  ghost predicate Quad(ip: string, toNumber: ToNumber) {
    var parts := Split(ip, '.');
    |parts| == 4 && forall i :: 0 <= i < 4 ==> Octet(toNumber(parts[i]))
  }

  // The big-endian number of the leading parts.
  function Digits256(parts: seq<string>, toNumber: ToNumber): int {
    if parts == [] then 0
    else Digits256(parts[..|parts| - 1], toNumber) * 256 + toNumber(parts[|parts| - 1]).GetOr(0)
  }

  function Address(ip: string, toNumber: ToNumber): int {
    Digits256(Split(ip, '.'), toNumber)
  }

  lemma {:induction false} Digits256Bounded(parts: seq<string>, toNumber: ToNumber)
    requires forall i :: 0 <= i < |parts| ==> Octet(toNumber(parts[i]))
    ensures 0 <= Digits256(parts, toNumber) < Pow2(8 * |parts|)
  {
    if parts != [] {
      var n := |parts| - 1;
      Digits256Bounded(parts[..n], toNumber);
      Pow2Adds(8 * n, 8);
    }
  }

  lemma FourDigits(p: seq<string>, toNumber: ToNumber)
    requires |p| == 4
    ensures Digits256(p, toNumber) == 16777216 * toNumber(p[0]).GetOr(0) + 65536 * toNumber(p[1]).GetOr(0)
                                      + 256 * toNumber(p[2]).GetOr(0) + toNumber(p[3]).GetOr(0)
  {
    assert p[..3][..2] == p[..2] && p[..2][..1] == p[..1] && p[..1][..0] == [];
    assert Digits256(p[..1], toNumber) == toNumber(p[0]).GetOr(0);
    assert Digits256(p[..2], toNumber) == 256 * toNumber(p[0]).GetOr(0) + toNumber(p[1]).GetOr(0);
    assert Digits256(p[..3], toNumber) == 256 * Digits256(p[..2], toNumber) + toNumber(p[2]).GetOr(0);
  }

  /** ipv4ToInt: an integer below 2^32 for four octets, nothing otherwise. */
  method Ipv4ToInt(ip: string, toNumber: ToNumber) returns (r: Option<nat>)
    ensures r.Some? <==> Quad(ip, toNumber)
    ensures r.Some? ==> r.value == Address(ip, toNumber) && r.value < Pow2(32)
    ensures r.Some? ==>
      var p := Split(ip, '.');
      |p| == 4 && r.value == 16777216 * toNumber(p[0]).GetOr(0) + 65536 * toNumber(p[1]).GetOr(0)
                             + 256 * toNumber(p[2]).GetOr(0) + toNumber(p[3]).GetOr(0)
  {
    var parts := Split(ip, '.');
    if |parts| != 4 {
      return None;
    }
    var n: int := 0;
    for i := 0 to |parts|
      invariant n == Digits256(parts[..i], toNumber)
      invariant forall j :: 0 <= j < i ==> Octet(toNumber(parts[j]))
    {
      var octet := toNumber(parts[i]);
      if octet.None? || octet.value < 0 || octet.value > 255 {
        return None;
      }
      n := n * 256 + octet.value;
      assert parts[..i + 1][..i] == parts[..i];
    }
    assert parts[..|parts|] == parts;
    Digits256Bounded(parts, toNumber);
    FourDigits(parts, toNumber);
    return Some(n);
  }

  /** ipv4InCidr, for a range already split into address and prefix length. */
  method Ipv4InCidr(ip: string, range: string, bits: int, toNumber: ToNumber) returns (r: bool)
    ensures r ==> Quad(ip, toNumber) && Quad(range, toNumber)
    ensures Quad(ip, toNumber) && Quad(range, toNumber) && 0 <= bits <= 32 ==>
      (r <==> Address(ip, toNumber) / Pow2(32 - bits) == Address(range, toNumber) / Pow2(32 - bits))
  {
    var ipInt := Ipv4ToInt(ip, toNumber);
    var rangeInt := Ipv4ToInt(range, toNumber);
    if ipInt.None? || rangeInt.None? {
      return false;
    }
    if bits == 0 {
      DivSmall(ipInt.value, Pow2(32));
      DivSmall(rangeInt.value, Pow2(32));
      return true;
    }
    var mask := Shl32(0xffff_ffff, 32 - bits);
    if 0 < bits <= 32 {
      MaskedAgree(ipInt.value, rangeInt.value, bits);
    }
    return And(ipInt.value, mask) == And(rangeInt.value, mask);
  }

  lemma Pow2Of32()
    ensures Pow2(32) == 0x1_0000_0000
  {
    Pow2Adds(16, 16);
    Pow2Adds(8, 8);
    assert Pow2(8) == 256;
  }

  // All ones of 32 bits, shifted: a multiple of 2^32 and the leading ones.
  lemma ShiftedOnes(p: nat)
    requires 1 <= p <= 0x1_0000_0000
    ensures 0xffff_ffff * p % 0x1_0000_0000 == 0x1_0000_0000 - p
  {
    ModUnique(0xffff_ffff * p, 0x1_0000_0000, p - 1, 0x1_0000_0000 - p);
  }

  // The mask has its leading `bits` bits set.
  lemma MaskIs(bits: int)
    requires 0 < bits <= 32
    ensures Shl32(0xffff_ffff, 32 - bits) == Pow2(32) - Pow2(32 - bits)
  {
    var k := 32 - bits;
    Pow2Of32();
    Pow2Monotone(k, 32);
    ShiftedOnes(Pow2(k));
    assert k % 32 == k;
  }

  // The masked comparison is the divided one.
  lemma MaskedAgree(a: nat, b: nat, bits: int)
    requires a < Pow2(32) && b < Pow2(32) && 0 < bits <= 32
    ensures var mask := Shl32(0xffff_ffff, 32 - bits);
      And(a, mask) == And(b, mask) <==> a / Pow2(32 - bits) == b / Pow2(32 - bits)
  {
    MaskIs(bits);
    AgreeUnder(a, b, 32, 32 - bits, Shl32(0xffff_ffff, 32 - bits));
  }

  lemma AgreeUnder(a: nat, b: nat, w: nat, k: nat, mask: nat)
    requires a < Pow2(w) && b < Pow2(w) && k <= w && mask + Pow2(k) == Pow2(w)
    ensures And(a, mask) == And(b, mask) <==> a / Pow2(k) == b / Pow2(k)
  {
    Leading(a, b, w, k);
  }

  lemma Leading(a: nat, b: nat, w: nat, k: nat)
    requires a < Pow2(w) && b < Pow2(w) && k <= w
    ensures Pow2(w) >= Pow2(k)
    ensures And(a, Pow2(w) - Pow2(k)) == And(b, Pow2(w) - Pow2(k)) <==> a / Pow2(k) == b / Pow2(k)
  {
    AndPrefix(a, w, k);
    AndPrefix(b, w, k);
    TruncationsAgree(a, b, Pow2(k), And(a, Pow2(w) - Pow2(k)), And(b, Pow2(w) - Pow2(k)));
  }

  /** A prefix is an interval of 2^(32-bits) addresses that starts at a multiple of its size. */
  lemma PrefixIsInterval(a: nat, net: nat, bits: nat)
    requires bits <= 32
    ensures var size := Pow2(32 - bits); var first := net / size * size;
      a / size == net / size <==> first <= a < first + size
  {
    var size := Pow2(32 - bits);
    DivMeans(a, size);
    DivMeans(net, size);
    var first := net / size * size;
    if first <= a < first + size {
      DivUnique(a, size, net / size, a - first);
    }
    assert (net / size + 1) * size == first + size;
  }
}
