/** IPv6 expansion and prefix matching of clientIpService, against 128-bit numbers and the text
    forms of RFC 4291 sections 2.2 and 2.3. A text is expanded to eight groups, those to sixteen
    bytes, and the bytes are compared up to the prefix length; each of the three is tied to the
    number the address stands for. */
module Ipv6 {
  import opened Wrappers
  import opened Text
  import opened Bits

  // ---- Addresses as numbers -------------------------------------------------------------

  ghost predicate Bytes(s: seq<nat>) {
    forall i :: 0 <= i < |s| ==> s[i] < 256
  }

  // The big-endian number of a byte sequence.
  function Number(s: seq<nat>): nat {
    if s == [] then 0 else Number(s[..|s| - 1]) * 256 + s[|s| - 1]
  }

  lemma {:induction false} NumberBounded(s: seq<nat>)
    requires Bytes(s)
    ensures Number(s) < Pow2(8 * |s|)
  {
    if s != [] {
      NumberBounded(s[..|s| - 1]);
      Pow2Adds(8 * (|s| - 1), 8);
      assert Pow2(8) == 256;
    }
  }

  // Dividing by whole bytes drops the trailing bytes.
  lemma {:induction false} NumberPrefix(s: seq<nat>, i: nat)
    requires Bytes(s) && i <= |s|
    ensures Number(s) / Pow2(8 * (|s| - i)) == Number(s[..i])
  {
    var n := |s| - 1;
    if i == |s| {
      assert s[..i] == s;
    } else {
      var k := 8 * (n - i);
      NumberPrefix(s[..n], i);
      assert s[..n][..i] == s[..i];
      OneByteLess(Number(s), Number(s[..n]), s[n], k);
      assert 8 * (|s| - i) == 8 + k;
    }
  }

  lemma OneByteLess(x: nat, n: nat, c: nat, k: nat)
    requires x == n * 256 + c && c < 256
    ensures x / Pow2(8 + k) == n / Pow2(k)
  {
    Pow2Adds(8, k);
    assert Pow2(8) == 256;
    DivUnique(x, 256, n, c);
    DivDiv(x, 256, Pow2(k));
  }

  lemma {:induction false} NumberInjective(s: seq<nat>, t: seq<nat>)
    requires Bytes(s) && Bytes(t) && |s| == |t|
    ensures Number(s) == Number(t) <==> s == t
  {
    if s != [] {
      var n := |s| - 1;
      NumberInjective(s[..n], t[..n]);
      PairInjective(Number(s[..n]), s[n], Number(t[..n]), t[n], 256);
      assert s == s[..n] + [s[n]] && t == t[..n] + [t[n]];
    }
  }

  // Agreement on whole bytes and on the leading bits of the next one.
  ghost predicate AgreeOn(a: seq<nat>, b: seq<nat>, whole: nat, rest: nat)
    requires |a| == |b| && whole <= |a| && rest < 8 && (rest > 0 ==> whole < |a|)
  {
    a[..whole] == b[..whole] && (rest > 0 ==> a[whole] / Pow2(8 - rest) == b[whole] / Pow2(8 - rest))
  }

  // A number that ends in a byte, without the byte's last bits; `high` is what the division makes
  // of 256.
  lemma ByteQuotient(p: nat, c: nat, low: nat, high: nat)
    requires c < 256 && low >= 1 && high >= 1 && high * low == 256
    ensures (p * 256 + c) / low == p * high + c / low && c / low < high
  {
    DivMeans(c, low);
    MulCancels(c / low, high, low);
    assert p * 256 == p * (high * low) == p * high * low;
    assert (p * high + c / low) * low == p * high * low + c / low * low;
    DivUnique(p * 256 + c, low, p * high + c / low, c - c / low * low);
  }

  // Two such numbers are equal exactly if both parts are.
  lemma ByteQuotients(p: nat, c: nat, q: nat, e: nat, low: nat, high: nat)
    requires c < 256 && e < 256 && low >= 1 && high >= 1 && high * low == 256
    ensures (p * 256 + c) / low == (q * 256 + e) / low <==> p == q && c / low == e / low
  {
    ByteQuotient(p, c, low, high);
    ByteQuotient(q, e, low, high);
    PairInjective(p, c / low, q, e / low, high);
  }

  // The number without its last bits, by way of the number of its leading bytes.
  lemma QuotientOfPrefix(a: seq<nat>, whole: nat, rest: nat, k: nat)
    requires Bytes(a) && whole < |a| && 0 < rest < 8 && k == 8 * (|a| - whole) - rest
    ensures Number(a) / Pow2(k) == (Number(a[..whole]) * 256 + a[whole]) / Pow2(8 - rest)
  {
    var up := 8 * (|a| - (whole + 1));
    assert k == up + (8 - rest);
    assert Number(a) / Pow2(up) == Number(a[..whole]) * 256 + a[whole] by {
      NumberPrefix(a, whole + 1);
      assert a[..whole + 1][..whole] == a[..whole];
    }
    Pow2Adds(up, 8 - rest);
    DivDiv(Number(a), Pow2(up), Pow2(8 - rest));
  }

  lemma PartialAgree(a: seq<nat>, b: seq<nat>, whole: nat, rest: nat, k: nat)
    requires Bytes(a) && Bytes(b) && |a| == |b| && whole < |a| && 0 < rest < 8 && k == 8 * (|a| - whole) - rest
    ensures AgreeOn(a, b, whole, rest) <==> Number(a) / Pow2(k) == Number(b) / Pow2(k)
  {
    QuotientOfPrefix(a, whole, rest, k);
    QuotientOfPrefix(b, whole, rest, k);
    HighTimesLow(rest);
    ByteQuotients(Number(a[..whole]), a[whole], Number(b[..whole]), b[whole], Pow2(8 - rest), Pow2(rest));
    NumberInjective(a[..whole], b[..whole]);
  }

  lemma HighTimesLow(rest: nat)
    requires rest <= 8
    ensures Pow2(rest) * Pow2(8 - rest) == 256
  {
    Pow2Adds(rest, 8 - rest);
    assert Pow2(8) == 256;
  }

  lemma AgreeIsQuotient(a: seq<nat>, b: seq<nat>, bits: nat)
    requires Bytes(a) && Bytes(b) && |a| == |b| == 16 && bits <= 128
    ensures AgreeOn(a, b, bits / 8, bits % 8) <==> Number(a) / Pow2(128 - bits) == Number(b) / Pow2(128 - bits)
  {
    var whole, rest := bits / 8, bits % 8;
    if rest == 0 {
      NumberInjective(a[..whole], b[..whole]);
      NumberPrefix(a, whole);
      NumberPrefix(b, whole);
    } else {
      PartialAgree(a, b, whole, rest, 128 - bits);
    }
  }

  // ---- Prefix matching ------------------------------------------------------------------

  // (0xff << (8 - take)) & 0xff, and 0 when nothing is taken; & 0xff leaves the lowest byte.
  function ByteMask(take: nat): nat
    requires take <= 8
  {
    if take == 0 then 0 else 0xff * Pow2(8 - take) % 0x100
  }

  // The mask has its leading `take` bits set.
  lemma ByteMaskIs(take: nat)
    requires 1 <= take <= 8
    ensures Pow2(8 - take) <= 256 && ByteMask(take) == 256 - Pow2(8 - take)
  {
    var p := Pow2(8 - take);
    Pow2Monotone(8 - take, 8);
    assert Pow2(8) == 256;
    ModUnique(0xff * p, 0x100, p - 1, 0x100 - p);
  }

  // Addresses that differ in the part of a byte the prefix takes do not agree on the prefix.
  lemma DifferingByte(a: seq<nat>, b: seq<nat>, i: nat, asked: nat, take: nat)
    requires |a| == |b| == 16 && asked <= 128 && i < 16 && 8 * i < asked && take == Min(8, asked - 8 * i)
    requires a[i] / Pow2(8 - take) != b[i] / Pow2(8 - take)
    ensures !AgreeOn(a, b, asked / 8, asked % 8)
  {
    if take == 8 {
      assert a[..asked / 8][i] == a[i] && b[..asked / 8][i] == b[i];
    } else {
      assert asked / 8 == i && asked % 8 == take;
    }
  }

  // The byte loop of ipv6InCidr over the prefix length.
  method PrefixLoop(a: seq<nat>, b: seq<nat>, bits: int) returns (r: bool)
    requires |a| == |b| == 16 && Bytes(a) && Bytes(b)
    ensures 0 <= bits <= 128 ==> (r <==> Number(a) / Pow2(128 - bits) == Number(b) / Pow2(128 - bits))
    ensures bits > 128 ==> (r <==> a == b)
    ensures bits < 0 ==> r
  {
    ghost var asked := Max(0, Min(bits, 128));
    AgreeIsQuotient(a, b, asked);
    var remaining := bits;
    var i := 0;
    while i < 16 && remaining > 0
      invariant 0 <= i <= 16
      invariant remaining <= 0 ==> (i == 0 && bits <= 0) || (i == (bits + 7) / 8 && 0 < bits <= 128)
      invariant remaining > 0 ==> remaining == bits - 8 * i
      invariant remaining > 0 ==> a[..i] == b[..i]
      invariant remaining <= 0 ==> AgreeOn(a, b, asked / 8, asked % 8)
      decreases 16 - i
    {
      var take := Min(8, remaining);
      var mask := ByteMask(take);
      ByteMaskAgree(a[i], b[i], take);
      if And(a[i], mask) != And(b[i], mask) {
        DifferingByte(a, b, i, asked, take);
        return false;
      }
      remaining := remaining - take;
      i := i + 1;
    }
    assert remaining > 0 ==> a[..16] == a && b[..16] == b;
    return true;
  }

  lemma ByteMaskAgree(x: nat, y: nat, take: nat)
    requires x < 256 && y < 256 && 1 <= take <= 8
    ensures And(x, ByteMask(take)) == And(y, ByteMask(take)) <==> x / Pow2(8 - take) == y / Pow2(8 - take)
    ensures take == 8 ==> (And(x, ByteMask(take)) == And(y, ByteMask(take)) <==> x == y)
  {
    assert Pow2(8) == 256;
    ByteMaskIs(take);
    AndPrefix(x, 8, 8 - take);
    AndPrefix(y, 8, 8 - take);
    SameMultiple(x / Pow2(8 - take), y / Pow2(8 - take), Pow2(8 - take));
  }

  // ---- Text forms -----------------------------------------------------------------------

  predicate IsHex(c: char) {
    '0' <= c <= '9' || 'a' <= c <= 'f' || 'A' <= c <= 'F'
  }

  function HexDigit(c: char): (d: nat)
    requires IsHex(c)
    ensures d < 16 && (c == "0123456789abcdef"[d] || c == "0123456789ABCDEF"[d])
  {
    if c <= '9' then c as nat - '0' as nat
    else if c <= 'F' then c as nat - 'A' as nat + 10
    else c as nat - 'a' as nat + 10
  }

  // The value of the leading hex digits, 0 if there are none: parseInt(s, 16), with NaN read as 0
  // by the bitwise operators that follow.
  function HexPrefix(s: string, value: nat): nat {
    if s == "" || !IsHex(s[0]) then value else HexPrefix(s[1..], 16 * value + HexDigit(s[0]))
  }

  function HexValue(s: string): nat {
    HexPrefix(s, 0)
  }

  // ip.split('::').
  function SplitDouble(s: string): (parts: seq<string>)
    ensures parts != []
  {
    if s == "" then [""]
    else if |s| >= 2 && s[0] == ':' && s[1] == ':' then [""] + SplitDouble(s[2..])
    else
      var rest := SplitDouble(s[1..]);
      [[s[0]] + rest[0]] + rest[1..]
  }

  function NonEmpty(parts: seq<string>): seq<string> {
    if parts == [] then [] else (if parts[0] == "" then [] else [parts[0]]) + NonEmpty(parts[1..])
  }

  function GroupsOf(s: string): seq<string> {
    NonEmpty(Split(s, ':'))
  }

  function Zeros(n: nat): (z: seq<string>)
    ensures |z| == n && forall i :: 0 <= i < n ==> z[i] == "0"
  {
    seq(n, i => "0")
  }

  /** The eight groups an address stands for; None where too many are written. */
  function Expand(ip: string): Option<seq<string>> {
    ExpandParts(SplitDouble(ip))
  }

  function ExpandParts(parts: seq<string>): Option<seq<string>>
    requires parts != []
  {
    var head := GroupsOf(parts[0]);
    var tail := if |parts| > 1 then GroupsOf(parts[1]) else [];
    if |head| + |tail| > 8 then None else Some(head + Zeros(8 - |head| - |tail|) + tail)
  }

  function GroupBytes(groups: seq<string>): (s: seq<nat>)
    ensures |s| == 2 * |groups| && Bytes(s)
  {
    if groups == [] then []
    else
      var n := |groups| - 1;
      var v := HexValue(groups[n]);
      GroupBytes(groups[..n]) + [v / 256 % 256, v % 256]
  }

  // The byte loop: high byte, low byte, group by group.
  method FillBytes(groups: seq<string>) returns (bytes: array<nat>)
    requires |groups| == 8
    ensures fresh(bytes) && bytes[..] == GroupBytes(groups)
  {
    bytes := new nat[16](_ => 0);
    for i := 0 to 8
      invariant bytes[..2 * i] == GroupBytes(groups[..i])
    {
      ghost var before := bytes[..2 * i];
      var val := HexValue(groups[i]);
      bytes[i * 2] := val / 256 % 256;
      bytes[i * 2 + 1] := val % 256;
      assert bytes[..2 * (i + 1)] == before + [val / 256 % 256, val % 256];
      assert groups[..i + 1][..i] == groups[..i];
    }
    assert groups[..8] == groups && bytes[..16] == bytes[..];
  }

  /** ipv6ToBytes; `valid` is the answer of net.isIPv6. */
  method Ipv6ToBytes(ip: string, valid: bool) returns (r: Option<seq<nat>>)
    ensures r == if valid && Expand(ip).Some? then Some(GroupBytes(Expand(ip).value)) else None
    ensures r.Some? ==> |r.value| == 16 && Bytes(r.value)
  {
    if !valid {
      return None;
    }
    var parts := SplitDouble(ip);
    var headGroups := GroupsOf(parts[0]);
    var tailGroups := if |parts| > 1 then GroupsOf(parts[1]) else [];
    var missing := 8 - |headGroups| - |tailGroups|;
    if missing < 0 {
      return None;
    }
    var bytes := FillBytes(headGroups + Zeros(missing) + tailGroups);
    return Some(bytes[..]);
  }

  // ---- The number an address text stands for ----------------------------------------------

  // The big-endian number of the groups; a byte pair keeps the lowest 16 bits of each.
  function Digits65536(gs: seq<string>): nat {
    if gs == [] then 0 else Digits65536(gs[..|gs| - 1]) * 0x1_0000 + HexValue(gs[|gs| - 1]) % 0x1_0000
  }

  lemma {:induction false} NumberOfGroups(gs: seq<string>)
    ensures Number(GroupBytes(gs)) == Digits65536(gs)
  {
    if gs != [] {
      var n := |gs| - 1;
      var v := HexValue(gs[n]);
      NumberOfGroups(gs[..n]);
      TwoBytes(GroupBytes(gs[..n]), v / 256 % 256, v % 256);
      LowWord(v, Digits65536(gs[..n]));
    }
  }

  lemma TwoBytes(s: seq<nat>, x: nat, y: nat)
    ensures Number(s + [x, y]) == (Number(s) * 256 + x) * 256 + y
  {
    assert (s + [x, y])[..|s| + 1] == s + [x];
    assert (s + [x])[..|s|] == s;
  }

  // Two bytes hold a number modulo 2^16.
  lemma LowWord(v: nat, n: nat)
    ensures (n * 256 + v / 256 % 256) * 256 + v % 256 == n * 0x1_0000 + v % 0x1_0000
  {
    var high, low := v / 256 % 256, v % 256;
    assert v == v / 256 * 256 + low && v / 256 == v / 256 / 256 * 256 + high;
    ModUnique(v, 0x1_0000, v / 256 / 256, high * 256 + low);
  }

  predicate Readable(ip: string, isIPv6: string -> bool) {
    isIPv6(ip) && Expand(ip).Some?
  }

  function AddressOf(ip: string): nat
    requires Expand(ip).Some?
  {
    Digits65536(Expand(ip).value)
  }

  /** ipv6InCidr, for a range already split into address and prefix length; `isIPv6` is net.isIPv6.
      The two texts match exactly if their 128-bit numbers agree after division. */
  method Ipv6InCidr(ip: string, range: string, bits: int, isIPv6: string -> bool) returns (r: bool)
    ensures r ==> Readable(ip, isIPv6) && Readable(range, isIPv6)
    ensures Readable(ip, isIPv6) && Readable(range, isIPv6) && 0 <= bits <= 128 ==>
      (r <==> AddressOf(ip) / Pow2(128 - bits) == AddressOf(range) / Pow2(128 - bits))
    ensures Readable(ip, isIPv6) && Readable(range, isIPv6) && bits > 128 ==> (r <==> AddressOf(ip) == AddressOf(range))
    ensures Readable(ip, isIPv6) && Readable(range, isIPv6) && bits < 0 ==> r
  {
    var ipBytes := Ipv6ToBytes(ip, isIPv6(ip));
    var rangeBytes := Ipv6ToBytes(range, isIPv6(range));
    if ipBytes.None? || rangeBytes.None? {
      return false;
    }
    NumberOfGroups(Expand(ip).value);
    NumberOfGroups(Expand(range).value);
    NumberInjective(ipBytes.value, rangeBytes.value);
    r := PrefixLoop(ipBytes.value, rangeBytes.value, bits);
  }

  // A group of RFC 4291 section 2.2: one to four hex digits.
  ghost predicate HexGroup(g: string) {
    1 <= |g| <= 4 && forall i :: 0 <= i < |g| ==> IsHex(g[i])
  }

  ghost predicate HexGroups(gs: seq<string>) {
    forall i :: 0 <= i < |gs| ==> HexGroup(gs[i])
  }

  lemma {:induction false} NonEmptyAll(gs: seq<string>)
    requires HexGroups(gs)
    ensures NonEmpty(gs) == gs
  {
    if gs != [] {
      NonEmptyAll(gs[1..]);
    }
  }

  lemma GroupsOfJoin(gs: seq<string>)
    requires HexGroups(gs)
    ensures GroupsOf(Join(gs, ':')) == gs
  {
    if gs == [] {
      assert Split("", ':') == [""];
      assert NonEmpty([""]) == [];
    } else {
      forall i | 0 <= i < |gs| ensures ':' !in gs[i] {
      }
      SplitJoin(gs, ':');
      NonEmptyAll(gs);
    }
  }

  // No "::" inside and no colon at either end.
  ghost predicate Tidy(s: string) {
    && (forall i :: 0 <= i < |s| - 1 ==> s[i] != ':' || s[i + 1] != ':')
    && (s != "" ==> s[0] != ':' && s[|s| - 1] != ':')
  }

  lemma {:induction false} JoinTidy(gs: seq<string>)
    requires HexGroups(gs)
    ensures Tidy(Join(gs, ':'))
    ensures gs != [] ==> Join(gs, ':') != ""
  {
    if |gs| >= 2 {
      JoinTidy(gs[1..]);
      var rest := Join(gs[1..], ':');
      assert Join(gs, ':') == gs[0] + [':'] + rest;
    }
  }

  // Reading up to a "::" or the end.
  lemma {:induction false} SplitDoubleTidy(s: string, after: string)
    requires forall i :: 0 <= i < |s| - 1 ==> s[i] != ':' || s[i + 1] != ':'
    requires s != "" ==> s[|s| - 1] != ':'
    ensures SplitDouble(s) == [s]
    ensures SplitDouble(s + "::" + after) == [s] + SplitDouble(after)
  {
    var all := s + "::" + after;
    if s == "" {
      assert all == "::" + after;
      assert all[2..] == after;
    } else {
      SplitDoubleTidy(s[1..], after);
      assert all[1..] == s[1..] + "::" + after;
      assert [s[0]] + s[1..] == s;
      assert all[0] == s[0];
      assert |s| >= 2 ==> all[1] == s[1];
    }
  }

  /** A full address of eight groups expands to exactly its groups. */
  lemma FullForm(gs: seq<string>)
    requires |gs| == 8 && HexGroups(gs)
    ensures Expand(Join(gs, ':')) == Some(gs)
  {
    JoinTidy(gs);
    SplitDoubleTidy(Join(gs, ':'), "");
    GroupsOfJoin(gs);
    assert gs + Zeros(0) + [] == gs;
  }

  lemma ExpandDouble(h: string, t: string)
    requires Tidy(h) && Tidy(t) && |GroupsOf(h)| + |GroupsOf(t)| <= 8
    ensures Expand(h + "::" + t) == Some(GroupsOf(h) + Zeros(8 - |GroupsOf(h)| - |GroupsOf(t)|) + GroupsOf(t))
  {
    SplitInTwo(h, t);
  }

  lemma SplitInTwo(h: string, t: string)
    requires Tidy(h) && Tidy(t)
    ensures SplitDouble(h + "::" + t) == [h, t]
  {
    SplitDoubleTidy(h, t);
    SplitDoubleTidy(t, "");
    assert [h] + [t] == [h, t];
  }

  /** A compressed address expands to its groups with zeros where the "::" stands. */
  lemma CompressedForm(head: seq<string>, tail: seq<string>)
    requires HexGroups(head) && HexGroups(tail) && |head| + |tail| <= 8
    ensures Expand(Join(head, ':') + "::" + Join(tail, ':')) == Some(head + Zeros(8 - |head| - |tail|) + tail)
  {
    JoinTidy(head);
    JoinTidy(tail);
    GroupsOfJoin(head);
    GroupsOfJoin(tail);
    ExpandDouble(Join(head, ':'), Join(tail, ':'));
  }

  lemma {:induction false} SameBytes(gs: seq<string>, hs: seq<string>)
    requires |gs| == |hs| && forall i :: 0 <= i < |gs| ==> HexValue(gs[i]) == HexValue(hs[i])
    ensures GroupBytes(gs) == GroupBytes(hs)
  {
    if gs != [] {
      SameBytes(gs[..|gs| - 1], hs[..|hs| - 1]);
    }
  }

  lemma Widen(x: nat, y: nat, m: nat, n: nat)
    requires x <= 16 * y && n == 16 * m
    ensures x * m <= y * n
  {
    assert (16 * y - x) * m >= 0;
    assert y * n == 16 * y * m;
  }

  lemma {:induction false} HexPrefixBounded(s: string, value: nat)
    requires forall i :: 0 <= i < |s| ==> IsHex(s[i])
    ensures HexPrefix(s, value) < (value + 1) * Pow2(4 * |s|)
  {
    if s != "" {
      var next := 16 * value + HexDigit(s[0]);
      HexPrefixBounded(s[1..], next);
      Pow2Adds(4, 4 * (|s| - 1));
      assert Pow2(4) == 16;
      Widen(next + 1, value + 1, Pow2(4 * (|s| - 1)), Pow2(4 * |s|));
    }
  }

  // The value of a group is that of its hexadecimal digits, most significant first.
  lemma HexValueReads(g: string, c: char)
    requires IsHex(c) && forall i :: 0 <= i < |g| ==> IsHex(g[i])
    ensures HexValue("") == 0 && HexValue(g + [c]) == 16 * HexValue(g) + HexDigit(c)
  {
    HexPrefixSnoc(g, c, 0);
  }

  lemma {:induction false} HexPrefixSnoc(g: string, c: char, value: nat)
    requires IsHex(c) && forall i :: 0 <= i < |g| ==> IsHex(g[i])
    ensures HexPrefix(g + [c], value) == 16 * HexPrefix(g, value) + HexDigit(c)
    decreases |g|
  {
    if g == "" {
      assert (g + [c])[1..] == "";
    } else {
      assert (g + [c])[1..] == g[1..] + [c];
      HexPrefixSnoc(g[1..], c, 16 * value + HexDigit(g[0]));
    }
  }

  /** Each group of a legal address is kept whole in its two bytes. */
  lemma {:induction false} BytesHoldGroups(gs: seq<string>, i: nat)
    requires HexGroups(gs) && i < |gs|
    ensures 256 * GroupBytes(gs)[2 * i] + GroupBytes(gs)[2 * i + 1] == HexValue(gs[i])
  {
    var n := |gs| - 1;
    if i < n {
      BytesHoldGroups(gs[..n], i);
    } else {
      var v := HexValue(gs[n]);
      HexPrefixBounded(gs[n], 0);
      Pow2Monotone(4 * |gs[n]|, 16);
      Pow2Adds(8, 8);
      assert Pow2(8) == 256;
      assert v == 256 * (v / 256) + v % 256 && v / 256 < 256;
    }
  }

  // Nothing of a legal group is cut off.
  lemma GroupFits(g: string)
    requires HexGroup(g)
    ensures HexValue(g) % 0x1_0000 == HexValue(g)
  {
    HexPrefixBounded(g, 0);
    Pow2Monotone(4 * |g|, 16);
    Pow2Adds(8, 8);
    assert Pow2(8) == 256;
  }

  // The base-65536 number of the groups' hexadecimal values.
  function GroupsValue(gs: seq<string>): nat {
    if gs == [] then 0 else GroupsValue(gs[..|gs| - 1]) * 0x1_0000 + HexValue(gs[|gs| - 1])
  }

  lemma {:induction false} LegalGroups(gs: seq<string>)
    requires HexGroups(gs)
    ensures Digits65536(gs) == GroupsValue(gs)
  {
    if gs != [] {
      LegalGroups(gs[..|gs| - 1]);
      GroupFits(gs[|gs| - 1]);
    }
  }

  /** A legal address stands for the number its groups spell, in full and compressed. */
  lemma TextIsNumber(head: seq<string>, zeros: seq<string>, tail: seq<string>)
    requires HexGroups(head) && HexGroups(zeros) && HexGroups(tail) && |head| + |zeros| + |tail| == 8
    ensures var full := Join(head + zeros + tail, ':');
      Expand(full).Some? && AddressOf(full) == GroupsValue(head + zeros + tail)
    ensures (forall i :: 0 <= i < |zeros| ==> HexValue(zeros[i]) == 0) ==>
      var short := Join(head, ':') + "::" + Join(tail, ':');
      Expand(short).Some? && AddressOf(short) == GroupsValue(head + zeros + tail)
  {
    FullForm(head + zeros + tail);
    LegalGroups(head + zeros + tail);
    if forall i :: 0 <= i < |zeros| ==> HexValue(zeros[i]) == 0 {
      CompressionKeepsBytes(head, zeros, tail);
      NumberOfGroups(head + zeros + tail);
      NumberOfGroups(Expand(Join(head, ':') + "::" + Join(tail, ':')).value);
    }
  }

  lemma SameValues(head: seq<string>, zeros: seq<string>, tail: seq<string>)
    requires forall i :: 0 <= i < |zeros| ==> HexValue(zeros[i]) == 0
    ensures forall i :: 0 <= i < |head + zeros + tail| ==>
      HexValue((head + zeros + tail)[i]) == HexValue((head + Zeros(|zeros|) + tail)[i])
  {
    assert HexValue("0") == 0 by {
      assert HexPrefix("0", 0) == HexPrefix("0"[1..], 0);
    }
  }

  /** Compressing any run of zero groups, however they are written, leaves the 16 bytes alone. */
  lemma CompressionKeepsBytes(head: seq<string>, zeros: seq<string>, tail: seq<string>)
    requires HexGroups(head) && HexGroups(zeros) && HexGroups(tail) && |head| + |zeros| + |tail| == 8
    requires forall i :: 0 <= i < |zeros| ==> HexValue(zeros[i]) == 0
    ensures Expand(Join(head + zeros + tail, ':')).Some? && Expand(Join(head, ':') + "::" + Join(tail, ':')).Some?
    ensures GroupBytes(Expand(Join(head + zeros + tail, ':')).value)
         == GroupBytes(Expand(Join(head, ':') + "::" + Join(tail, ':')).value)
  {
    FullForm(head + zeros + tail);
    CompressedForm(head, tail);
    SameValues(head, zeros, tail);
    SameBytes(head + zeros + tail, head + Zeros(|zeros|) + tail);
  }
}
