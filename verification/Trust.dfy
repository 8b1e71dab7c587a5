/** internal/gateway/trust.go: which peers may send PROXY headers. */
module Trust {
  import opened Basics
  import opened Bits
  import opened Net

  // ---------------------------------------------------------------- masks

  /** net.CIDRMask for a mask of n bytes. */
  function CIDRMask(ones: nat, n: nat): (m: seq<byte>)
    ensures |m| == n
  {
    if n == 0 then []
    else [MaskByte(Head(ones))] + CIDRMask(ones - Head(ones), n - 1)
  }

  // How many of the leading ones fall in the first byte.
  function Head(ones: nat): nat {
    if ones < 8 then ones else 8
  }

  function MaskByte(ones: nat): byte
    requires ones <= 8
  {
    PowMono(8 - ones, 8);
    assert Pow2(8) == 256;
    256 - Pow2(8 - ones)
  }

  /** IP.Mask: bytewise and. */
  function Masked(x: seq<byte>, m: seq<byte>): (r: seq<byte>)
    requires |x| == |m|
    ensures |r| == |x|
  {
    seq(|x|, i requires 0 <= i < |x| => And(x[i], m[i]))
  }

  /** The leading `ones` bits of x, read as an integer. */
  ghost function Prefix(x: seq<byte>, ones: nat): nat
    requires ones <= 8 * |x|
  {
    Quotient(BigEndian(x), Pow2(8 * |x| - ones))
  }

  ghost predicate SamePrefix(x: seq<byte>, y: seq<byte>, ones: nat)
    requires |x| == |y| && ones <= 8 * |x|
  {
    Prefix(x, ones) == Prefix(y, ones)
  }

  /** Masking a byte keeps exactly its quotient by the power of two that the mask clears. */
  lemma MaskByteKeeps(x: byte, ones: nat)
    requires ones <= 8
    ensures And(x, MaskByte(ones)) == Pow2(8 - ones) * (x / Pow2(8 - ones))
  {
    assert Pow2(8) == 256;
    AndHighBits(x, 8 - ones, 8);
  }

  lemma MaskByteIdempotent(x: byte, ones: nat)
    requires ones <= 8
    ensures And(And(x, MaskByte(ones)), MaskByte(ones)) == And(x, MaskByte(ones))
  {
    var d := Pow2(8 - ones);
    MaskByteKeeps(x, ones);
    DivUnique(d * (x / d), d, x / d, 0);
    MaskByteKeeps(And(x, MaskByte(ones)), ones);
  }

  lemma MaskByteDecides(x: byte, y: byte, ones: nat)
    requires ones <= 8
    ensures And(x, MaskByte(ones)) == And(y, MaskByte(ones)) <==> x / Pow2(8 - ones) == y / Pow2(8 - ones)
  {
    var d := Pow2(8 - ones);
    MaskByteKeeps(x, ones);
    MaskByteKeeps(y, ones);
    DivUnique(d * (x / d), d, x / d, 0);
    DivUnique(d * (y / d), d, y / d, 0);
  }

  /** The bytewise masked comparison of IPNet.Contains compares integer prefixes. */
  lemma {:induction false} MaskedIsPrefix(x: seq<byte>, y: seq<byte>, ones: nat)
    requires |x| == |y| && ones <= 8 * |x|
    ensures Masked(x, CIDRMask(ones, |x|)) == Masked(y, CIDRMask(ones, |x|)) <==> SamePrefix(x, y, ones)
    decreases |x|
  {
    if x == [] {
    } else {
      var h := Head(ones);
      MaskedIsPrefix(x[1..], y[1..], ones - h);
      MaskedHead(x, y, MaskByte(h), CIDRMask(ones - h, |x| - 1));
      MaskByteDecides(x[0], y[0], h);
      if ones >= 8 {
        assert Pow2(0) == 1;
        PrefixByBytes(x, y, ones);
      } else {
        PrefixInByte(x, y, ones);
      }
    }
  }

  /** Splits off the first byte of a prefix that covers it. */
  lemma QuotientSplit(x: seq<byte>, ones: nat)
    requires 8 <= ones <= 8 * |x|
    ensures Prefix(x, ones) == x[0] * Pow2(ones - 8) + Prefix(x[1..], ones - 8)
    ensures Prefix(x[1..], ones - 8) < Pow2(ones - 8)
  {
    var d, m, low := Pow2(8 * |x| - ones), Pow2(ones - 8), BigEndian(x[1..]);
    PowSplit(8 * |x| - ones, ones - 8);
    DivHigh(x[0], m, d, low);
    QuotientBound(low, d, m);
  }

  lemma PrefixByBytes(x: seq<byte>, y: seq<byte>, ones: nat)
    requires |x| == |y| && 8 <= ones <= 8 * |x|
    ensures SamePrefix(x, y, ones) <==> x[0] == y[0] && SamePrefix(x[1..], y[1..], ones - 8)
  {
    QuotientSplit(x, ones);
    QuotientSplit(y, ones);
    DigitsEqual(x[0], y[0], Pow2(ones - 8), Prefix(x[1..], ones - 8), Prefix(y[1..], ones - 8));
  }

  lemma PrefixInByte(x: seq<byte>, y: seq<byte>, ones: nat)
    requires |x| == |y| && x != [] && ones < 8
    ensures SamePrefix(x, y, ones) <==> x[0] / Pow2(8 - ones) == y[0] / Pow2(8 - ones)
    ensures SamePrefix(x[1..], y[1..], 0)
  {
    TopByte(x, ones);
    TopByte(y, ones);
    var d := Pow2(8 * |x[1..]|);
    DivUnique(BigEndian(x[1..]), d, 0, BigEndian(x[1..]));
    DivUnique(BigEndian(y[1..]), d, 0, BigEndian(y[1..]));
  }

  lemma MaskedHead(x: seq<byte>, y: seq<byte>, h: byte, t: seq<byte>)
    requires |x| == |y| == |t| + 1
    ensures Masked(x, [h] + t) == Masked(y, [h] + t) <==>
      And(x[0], h) == And(y[0], h) && Masked(x[1..], t) == Masked(y[1..], t)
  {
    MaskedCons(x, h, t);
    MaskedCons(y, h, t);
  }

  lemma MaskedCons(x: seq<byte>, h: byte, t: seq<byte>)
    requires |x| == |t| + 1
    ensures var r := Masked(x, [h] + t); r[0] == And(x[0], h) && r[1..] == Masked(x[1..], t) && r == [r[0]] + r[1..]
  {}

  lemma QuotientBound(x: nat, d: nat, m: nat)
    requires d > 0 && x < d * m
    ensures x / d < m
  {
    EuclidSplit(x, d);
    if m <= x / d { MulMono(d, m, x / d); }
  }

  lemma DigitsEqual(a: nat, b: nat, m: nat, p: nat, q: nat)
    requires p < m && q < m
    ensures a * m + p == b * m + q <==> a == b && p == q
  {
    if a < b { MulMono(m, a + 1, b); Distribute(m, a, 1); }
    if b < a { MulMono(m, b + 1, a); Distribute(m, b, 1); }
  }

  /** A prefix shorter than a byte looks at the first byte only. */
  lemma TopByte(x: seq<byte>, ones: nat)
    requires x != [] && ones <= 8
    ensures BigEndian(x) / Pow2(8 * |x| - ones) == x[0] / Pow2(8 - ones)
  {
    var t := Pow2(8 * |x[1..]|);
    PowSplit(8 * |x[1..]|, 8 - ones);
    DivTwice(BigEndian(x), t, Pow2(8 - ones));
    DivUnique(BigEndian(x), t, x[0], BigEndian(x[1..]));
  }

  /** A prefix of whole bytes and then some more bits. */
  lemma {:induction false} WholeBytes(u: seq<byte>, a: seq<byte>, v: seq<byte>, b: seq<byte>, ones: nat)
    requires |u| == |v| && |a| == |b| && ones <= 8 * |a|
    ensures SamePrefix(u + a, v + b, 8 * |u| + ones) <==> u == v && SamePrefix(a, b, ones)
  {
    if u == [] {
      assert u + a == a && v + b == b;
    } else {
      PrefixByBytes(u + a, v + b, 8 * |u| + ones);
      assert (u + a)[1..] == u[1..] + a && (v + b)[1..] == v[1..] + b;
      WholeBytes(u[1..], a, v[1..], b, ones);
      assert u == [u[0]] + u[1..] && v == [v[0]] + v[1..];
    }
  }

  // ---------------------------------------------------------------- networks

  // net.IPNet.
  datatype IPNet = IPNet(ip: seq<byte>, mask: seq<byte>)

  // A trusted-networks entry once its string is parsed: what ParseCIDR reads, the
  // 16-byte address that ParseIP returns, or text that neither accepts.
  datatype Entry = Cidr(addr: seq<byte>, ones: nat) | Bare(addr: seq<byte>) | Unparsable

  predicate WellFormed(e: Entry) {
    match e
    case Cidr(a, n) => (|a| == 4 || |a| == 16) && n <= 8 * |a|
    case Bare(a) => |a| == 16
    case Unparsable => true
  }

  function CidrNet(addr: seq<byte>, ones: nat): IPNet {
    var m := CIDRMask(ones, |addr|);
    IPNet(Masked(addr, m), m)
  }

  function ParseCIDROrIP(e: Entry): Option<IPNet> {
    match e
    case Cidr(a, n) => Some(CidrNet(a, n))
    case Bare(a) =>
      var v4 := To4(Addr(a));
      if v4.Addr? then Some(IPNet(v4.bytes, CIDRMask(32, 4))) else Some(IPNet(a, CIDRMask(128, 16)))
    case Unparsable => None
  }

  /** net.networkNumberAndMask: the narrowest form of the network, or empty slices if malformed. */
  function NumberAndMask(n: IPNet): (r: (seq<byte>, seq<byte>))
    ensures |r.0| == |r.1|
  {
    var v4 := To4(Addr(n.ip));
    var ip := if v4.Addr? then v4.bytes else n.ip;
    if |ip| != 4 && |ip| != 16 then ([], [])
    else if |n.mask| == |ip| then (ip, n.mask)
    else if |n.mask| == 16 && |ip| == 4 then (ip, n.mask[12..])
    else ([], [])
  }

  /** IPNet.Contains. */
  predicate Contains(n: IPNet, ip: IP) {
    var v4 := To4(ip);
    var x := if v4.Addr? then v4.bytes else Raw(ip);
    var (number, mask) := NumberAndMask(n);
    |x| == |number| && Masked(number, mask) == Masked(x, mask)
  }

  lemma {:induction false} MaskAt(ones: nat, n: nat, i: nat)
    requires i < n
    ensures CIDRMask(ones, n)[i] == MaskByte(if ones <= 8 * i then 0 else Head(ones - 8 * i))
  {
    if i == 0 {
    } else {
      MaskAt(ones - Head(ones), n - 1, i - 1);
    }
  }

  lemma {:induction false} MaskTail(ones: nat, n: nat, k: nat)
    requires k <= n && 8 * k <= ones
    ensures CIDRMask(ones, n)[k..] == CIDRMask(ones - 8 * k, n - k)
  {
    if k == 0 {
    } else {
      MaskTail(ones - 8, n - 1, k - 1);
      assert CIDRMask(ones, n)[k..] == CIDRMask(ones - 8, n - 1)[k - 1..];
    }
  }

  lemma FullMask(x: byte)
    ensures And(x, MaskByte(8)) == x
  {
    MaskByteKeeps(x, 8);
    assert Pow2(0) == 1;
  }

  /** The bytes that a mask covers whole are kept. */
  lemma MaskKeeps(a: seq<byte>, ones: nat, i: nat)
    requires i < |a| && 8 * (i + 1) <= ones
    ensures Masked(a, CIDRMask(ones, |a|))[i] == a[i]
  {
    MaskAt(ones, |a|, i);
    FullMask(a[i]);
  }

  lemma AndBelow(a: nat, b: nat)
    ensures And(a, b) <= b
  {}

  /** Masking keeps a 16-byte address IPv4-mapped only if all 96 leading bits survive. */
  lemma MaskedMapped(a: seq<byte>, ones: nat)
    requires |a| == 16
    ensures IsMapped(Masked(a, CIDRMask(ones, 16))) <==> ones >= 96 && IsMapped(a)
  {
    var m := CIDRMask(ones, 16);
    var r := Masked(a, m);
    if ones >= 96 {
      forall i | 0 <= i < 12 ensures r[i] == a[i] {
        MaskKeeps(a, ones, i);
      }
      assert r[..12] == a[..12];
    } else {
      MaskAt(ones, 16, 11);
      AndBelow(a[11], m[11]);
      assert r[..12][11] == r[11] < 255 == MAPPED_PREFIX[11];
    }
  }

  lemma MaskedTwice(a: seq<byte>, ones: nat)
    ensures var m := CIDRMask(ones, |a|); Masked(Masked(a, m), m) == Masked(a, m)
  {
    var m := CIDRMask(ones, |a|);
    forall i | 0 <= i < |a| ensures And(And(a[i], m[i]), m[i]) == And(a[i], m[i]) {
      MaskAt(ones, |a|, i);
      MaskByteIdempotent(a[i], if ones <= 8 * i then 0 else Head(ones - 8 * i));
    }
  }

  // ---------------------------------------------------------------- what an entry accepts

  // The entry as a prefix of 128-bit addresses: IPv4 entries live under ::ffff:0:0/96.
  function Wide(e: Entry): (w: seq<byte>)
    requires WellFormed(e) && !e.Unparsable?
    ensures |w| == 16
  {
    To16(Addr(e.addr)).bytes
  }

  function Width(e: Entry): (n: nat)
    requires WellFormed(e) && !e.Unparsable?
    ensures n <= 128
  {
    match e
    case Cidr(a, n) => if |a| == 4 then 96 + n else n
    case Bare(_) => 128
  }

  /**
   * The meaning of one entry: 128-bit prefixes agree, except that an IPv6 prefix
   * shorter than 96 bits never accepts an IPv4 address.
   */
  ghost predicate Accepts(e: Entry, ip: IP)
    requires WellFormed(e)
  {
    && !e.Unparsable?
    && IsValid(ip)
    && (IsV4(ip) ==> Width(e) >= 96)
    && SamePrefix(To16(ip).bytes, Wide(e), Width(e))
  }

  /** IPNet.Contains on a parsed network, 4-byte comparison. */
  lemma NarrowNet(addr: seq<byte>, ones: nat, ip: IP)
    requires |addr| == 4 && ones <= 32
    ensures Contains(CidrNet(addr, ones), ip) <==> IsV4(ip) && SamePrefix(To4(ip).bytes, addr, ones)
  {
    MaskedTwice(addr, ones);
    if IsV4(ip) {
      MaskedIsPrefix(To4(ip).bytes, addr, ones);
    }
  }

  lemma WideNet(addr: seq<byte>, ones: nat, ip: IP)
    requires |addr| == 16 && ones <= 128 && !(ones >= 96 && IsMapped(addr))
    ensures Contains(CidrNet(addr, ones), ip) <==> IsV6(ip) && SamePrefix(Raw(ip), addr, ones)
  {
    MaskedMapped(addr, ones);
    MaskedTwice(addr, ones);
    if IsV6(ip) {
      MaskedIsPrefix(Raw(ip), addr, ones);
    }
  }

  /** A mapped IPv6 entry of at least 96 bits behaves as the IPv4 entry it contains. */
  lemma MappedNet(addr: seq<byte>, ones: nat, ip: IP)
    requires IsMapped(addr) && 96 <= ones <= 128
    ensures Contains(CidrNet(addr, ones), ip) == Contains(CidrNet(addr[12..], ones - 96), ip)
  {
    MaskedMapped(addr, ones);
    MaskTail(ones, 16, 12);
    MaskedTail(addr, CIDRMask(ones, 16), 12);
    hide Masked, CIDRMask, IsMapped;
    assert NumberAndMask(CidrNet(addr, ones)) == (Masked(addr, CIDRMask(ones, 16))[12..], CIDRMask(ones, 16)[12..]);
  }

  lemma MaskedTail(a: seq<byte>, m: seq<byte>, k: nat)
    requires |a| == |m| && k <= |a|
    ensures Masked(a, m)[k..] == Masked(a[k..], m[k..])
  {}

  lemma MappedAgree(ip: IP, addr: seq<byte>, ones: nat)
    requires IsValid(ip) && |addr| == 4 && ones <= 32
    ensures SamePrefix(To16(ip).bytes, MAPPED_PREFIX + addr, 96 + ones) <==>
            IsV4(ip) && SamePrefix(To4(ip).bytes, addr, ones)
  {
    var x := To16(ip).bytes;
    NormalForms(ip);
    assert x == x[..12] + x[12..];
    WholeBytes(x[..12], x[12..], MAPPED_PREFIX, addr, ones);
  }

  lemma BareIsCidr(a: seq<byte>)
    requires |a| == 16
    ensures ParseCIDROrIP(Bare(a)) ==
            ParseCIDROrIP(if IsMapped(a) then Cidr(a[12..], 32) else Cidr(a, 128))
  {
    var b, ones := if IsMapped(a) then a[12..] else a, if IsMapped(a) then 32 else 128;
    forall i | 0 <= i < |b| ensures Masked(b, CIDRMask(ones, |b|))[i] == b[i] {
      MaskKeeps(b, ones, i);
    }
    assert Masked(b, CIDRMask(ones, |b|)) == b;
  }

  lemma FourExact(a: seq<byte>, ones: nat, ip: IP)
    requires |a| == 4 && ones <= 32
    ensures Contains(CidrNet(a, ones), ip) <==> Accepts(Cidr(a, ones), ip)
  {
    NarrowNet(a, ones, ip);
    hide Contains, CidrNet;
    if IsValid(ip) {
      MappedAgree(ip, a, ones);
    }
  }

  lemma MappedExact(a: seq<byte>, ones: nat, ip: IP)
    requires IsMapped(a) && 96 <= ones <= 128
    ensures Contains(CidrNet(a, ones), ip) <==> Accepts(Cidr(a, ones), ip)
    ensures Contains(CidrNet(a[12..], ones - 96), ip) <==> Accepts(Cidr(a, ones), ip)
  {
    hide Contains, CidrNet, SamePrefix, To4;
    assert a == MAPPED_PREFIX + a[12..] by {
      assert a == a[..12] + a[12..];
    }
    MappedNet(a, ones, ip);
    NarrowNet(a[12..], ones - 96, ip);
    NormalForms(ip);
    if IsValid(ip) {
      MappedAgree(ip, a[12..], ones - 96);
    }
  }

  lemma SixteenExact(a: seq<byte>, ones: nat, ip: IP)
    requires |a| == 16 && ones <= 128 && !(IsMapped(a) && ones >= 96)
    ensures Contains(CidrNet(a, ones), ip) <==> Accepts(Cidr(a, ones), ip)
  {
    WideNet(a, ones, ip);
    hide Contains, CidrNet;
    if IsV4(ip) && ones >= 96 {
      NormalForms(ip);
      var x := To16(ip).bytes;
      assert x == x[..12] + x[12..] && a == a[..12] + a[12..];
      WholeBytes(x[..12], x[12..], a[..12], a[12..], ones - 96);
    }
  }

  /** The byte-mask test of a parsed entry is the integer-prefix test, for every address form. */
  lemma ContainsExact(e: Entry, ip: IP)
    requires WellFormed(e) && !e.Unparsable?
    ensures ParseCIDROrIP(e).Some?
    ensures Contains(ParseCIDROrIP(e).value, ip) <==> Accepts(e, ip)
  {
    var a := e.addr;
    var ones := if e.Cidr? then e.ones else 128;
    if e.Bare? { BareIsCidr(a); }
    hide CidrNet, Contains, SamePrefix, To4, To16;
    if |a| == 4 {
      FourExact(a, ones, ip);
    } else if IsMapped(a) && ones >= 96 {
      MappedExact(a, ones, ip);
    } else {
      SixteenExact(a, ones, ip);
    }
  }

  // ---------------------------------------------------------------- the trust checker

  // *TrustChecker: the nil pointer, or a checker.
  datatype TrustChecker = NoChecker | TrustChecker(nets: seq<IPNet>, all: bool)

  predicate Trusts(t: TrustChecker, ip: IP) {
    t.NoChecker? || t.all || exists i :: 0 <= i < |t.nets| && Contains(t.nets[i], ip)
  }

  // Networks as the parser makes them: a 4- or 16-byte address under a mask of its length.
  predicate Built(t: TrustChecker) {
    t.TrustChecker? ==>
      forall i :: 0 <= i < |t.nets| ==> |t.nets[i].mask| == |t.nets[i].ip| && |t.nets[i].ip| in {4, 16}
  }

  method IsTrusted(t: TrustChecker, ip: IP) returns (r: bool)
    ensures r == Trusts(t, ip)
  {
    if t.NoChecker? || t.all {
      return true;
    }
    for i := 0 to |t.nets|
      invariant forall j :: 0 <= j < i ==> !Contains(t.nets[j], ip)
    {
      if Contains(t.nets[i], ip) {
        return true;
      }
    }
    return false;
  }

  /** Fails on an unparsable entry; otherwise trusts exactly what the entries mean. */
  method NewTrustChecker(entries: seq<Entry>) returns (t: Option<TrustChecker>)
    requires forall e :: e in entries ==> WellFormed(e)
    ensures t.None? <==> Unparsable in entries
    ensures t.Some? ==> Built(t.value)
    ensures t.Some? ==> !t.value.NoChecker? && forall ip :: Trusts(t.value, ip) <==>
      entries == [] || exists i :: 0 <= i < |entries| && Accepts(entries[i], ip)
  {
    if |entries| == 0 {
      return Some(TrustChecker([], true));
    }
    var nets: seq<IPNet> := [];
    for i := 0 to |entries|
      invariant |nets| == i && Built(TrustChecker(nets, false))
      invariant forall j :: 0 <= j < i ==> entries[j] != Unparsable && ParseCIDROrIP(entries[j]) == Some(nets[j])
    {
      assert entries[i] in entries;
      var n := ParseCIDROrIP(entries[i]);
      if n.None? {
        return None;
      }
      nets := nets + [n.value];
    }
    t := Some(TrustChecker(nets, false));
    forall j, ip | 0 <= j < |entries| ensures Contains(nets[j], ip) <==> Accepts(entries[j], ip) {
      ContainsExact(entries[j], ip);
    }
  }

  // ---------------------------------------------------------------- consequences

  /** The 4-byte and the ::ffff: form of an address are trusted alike, by every trust checker. */
  lemma FormsAgree(t: TrustChecker, a: IP, b: IP)
    requires IsValid(a) && To16(a) == To16(b)
    ensures Trusts(t, a) == Trusts(t, b)
  {
    SameTo16(a, b);
    NormalForms(a);
    NormalForms(b);
    if !t.NoChecker? {
      forall i | 0 <= i < |t.nets| ensures Contains(t.nets[i], a) == Contains(t.nets[i], b) {}
    }
  }

  /** No checker, or one without networks, trusts everybody. */
  lemma OpenTrustsAll(t: TrustChecker, ip: IP)
    requires t.NoChecker? || t.all
    ensures Trusts(t, ip)
  {}

  /** Without an address nothing but an open checker trusts a peer. */
  lemma NoAddressNoTrust(t: TrustChecker, ip: IP)
    requires Built(t) && !IsValid(ip)
    ensures Trusts(t, ip) <==> t.NoChecker? || t.all
  {
    if t.TrustChecker? {
      forall i | 0 <= i < |t.nets| ensures !Contains(t.nets[i], ip) {}
    }
  }

  /** A bare address accepts exactly that address. */
  lemma BareAcceptsItself(a: seq<byte>, ip: IP)
    requires |a| == 16
    ensures Accepts(Bare(a), ip) <==> To16(ip) == Addr(a)
  {
    if IsValid(ip) {
      var x := To16(ip).bytes;
      WholeBytes(x, [], a, [], 0);
      assert x + [] == x && a + [] == a;
    }
  }
}
