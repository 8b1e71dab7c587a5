/** internal/proxyproto/goproxyproto/datagram.go: PROXY v2 framing of one datagram. */
module Datagram {
  import opened Basics
  import opened Net
  import opened ProxyProto

  const SIG_V2: seq<byte> := [0x0d, 0x0a, 0x0d, 0x0a, 0x00, 0x0d, 0x0a, 0x51, 0x55, 0x49, 0x54, 0x0a]
  const SIG_V1: seq<byte> := [0x50, 0x52, 0x4f, 0x58, 0x59, 0x20] // "PROXY "

  datatype ParseError =
    | V1NotSupported | TooShort | LengthExceedsDatagram | BadVersion | BadCommand | BadFamily | BadAddressLength

  datatype ParseResult =
    | Parsed(hdr: Header, payload: seq<byte>, src: Source)
    | Malformed(error: ParseError)

  function U16(hi: byte, lo: byte): uint16 { hi * 256 + lo }
  function U16Bytes(n: uint16): seq<byte> { [n / 256, n % 256] }

  // ---------------------------------------------------------------- reading

  function ParseDatagram(data: seq<byte>): ParseResult {
    if |data| == 0 then Parsed(ZERO_HEADER, data, Direct)
    else if data[0] == 0x0d then
      if |data| < 12 || data[..12] != SIG_V2 then Parsed(ZERO_HEADER, data, Direct)
      else ParseV2(data)
    else if data[0] == 0x50 && |data| >= 6 && data[..6] == SIG_V1 then Malformed(V1NotSupported)
    else Parsed(ZERO_HEADER, data, Direct)
  }

  function ParseV2(data: seq<byte>): ParseResult {
    if |data| < 16 then Malformed(TooShort)
    else
      var headerSize := 16 + U16(data[14], data[15]);
      if headerSize > |data| then Malformed(LengthExceedsDatagram)
      else if data[12] / 16 != 2 then Malformed(BadVersion)
      else if data[12] % 16 != 1 then Malformed(BadCommand)
      else
        var addrData := data[16..headerSize];
        if data[13] !in {0x11, 0x21, 0x12, 0x22} then Malformed(BadFamily)
        else
          var hdr :=
            if data[13] == 0x11 then ParseV4Addrs(addrData, TCP4)
            else if data[13] == 0x21 then ParseV6Addrs(addrData, TCP6)
            else if data[13] == 0x12 then ParseV4Addrs(addrData, UDP4)
            else ParseV6Addrs(addrData, UDP6);
          if hdr.family == Unspec then Malformed(BadAddressLength)
          else Parsed(hdr, data[headerSize..], V2)
  }

  function ParseV4Addrs(d: seq<byte>, family: Family): Header {
    if |d| < 12 then ZERO_HEADER
    else Header(Addr(d[0..4]), Addr(d[4..8]), U16(d[8], d[9]), U16(d[10], d[11]), family)
  }

  function ParseV6Addrs(d: seq<byte>, family: Family): Header {
    if |d| < 36 then ZERO_HEADER
    else Header(Addr(d[0..16]), Addr(d[16..32]), U16(d[32], d[33]), U16(d[34], d[35]), family)
  }

  // ---------------------------------------------------------------- the layout of section 2.2

  function FamilyByte(f: Family): byte {
    match f
    case TCP4 => 0x11
    case TCP6 => 0x21
    case UDP4 => 0x12
    case UDP6 => 0x22
    case Unspec => 0x00
  }

  function AddrLen(f: Family): nat {
    match f
    case TCP4 | UDP4 => 4
    case TCP6 | UDP6 => 16
    case Unspec => 0
  }

  // Addresses as long as the family says.
  predicate WireSized(h: Header) {
    h.family != Unspec && |Raw(h.srcIP)| == |Raw(h.dstIP)| == AddrLen(h.family)
  }

  function AddrBlock(h: Header): seq<byte> {
    Raw(h.srcIP) + Raw(h.dstIP) + U16Bytes(h.srcPort) + U16Bytes(h.dstPort)
  }

  /** A v2 PROXY frame: signature, version and command, family, length, addresses, TLVs, payload. */
  function Frame(h: Header, tlvs: seq<byte>, payload: seq<byte>): seq<byte>
    requires |AddrBlock(h)| + |tlvs| < 0x1_0000
  {
    SIG_V2 + [0x21, FamilyByte(h.family)] + U16Bytes(|AddrBlock(h)| + |tlvs|) + AddrBlock(h) + tlvs + payload
  }

  // ---------------------------------------------------------------- writing

  // What go-proxyproto does with a header whose family cannot carry its addresses.
  // The results below hold whatever it does; None stands for an error.
  type Coercion = Header -> Option<seq<byte>>

  /**
   * FormatDatagram. For a consistent header the library follows the standard, with no TLVs.
   */
  function FormatDatagram(coerce: Coercion, h: Header, payload: seq<byte>): Option<seq<byte>> {
    if Consistent(h) then Some(Frame(Canon(h), [], payload))
    else
      match coerce(h)
      case Some(bytes) => Some(bytes + payload)
      case None => None
  }

  // ---------------------------------------------------------------- classification

  /** Everything a v2 frame has to satisfy, said without parsing it. */
  ghost predicate IsFrame(d: seq<byte>) {
    && |d| >= 16
    && d[..12] == SIG_V2
    && d[12] == 0x21
    && d[13] in {0x11, 0x12, 0x21, 0x22}
    && 256 * (d[14] as int) + d[15] >= (if d[13] / 16 == 1 then 12 else 36)
    && 16 + 256 * (d[14] as int) + d[15] <= |d|
  }

  /** The parser is total and sorts every datagram into exactly one of three classes. */
  lemma ClassifyExactly(d: seq<byte>)
    ensures var r := ParseDatagram(d);
      && (r.Parsed? && r.src == V2 <==> IsFrame(d))
      && (r.Malformed? <==> (SIG_V2 <= d || SIG_V1 <= d) && !IsFrame(d))
      && (r.Parsed? && r.src != V2 ==> r == Parsed(ZERO_HEADER, d, Direct))
  {
    assert SIG_V2 <= d <==> |d| >= 12 && d[..12] == SIG_V2;
    assert SIG_V1 <= d <==> |d| >= 6 && d[..6] == SIG_V1;
  }

  /** The signatures, spelled as section 2 of the standard spells them. */
  lemma SignatureBytes()
    ensures |SIG_V2| == 12 && forall i :: 0 <= i < 12 ==> SIG_V2[i] == ("\r\n\r\n\0\r\nQUIT\n"[i]) as int
    ensures |SIG_V1| == 6 && forall i :: 0 <= i < 6 ==> SIG_V1[i] == ("PROXY "[i]) as int
  {
    var v2, v1 := "\r\n\r\n\0\r\nQUIT\n", "PROXY ";
    assert v2[0] as int == 13 && v2[1] as int == 10 && v2[4] as int == 0 && v2[7] as int == 81;
    assert |v1| == 6 && v1[0] as int == 80;
  }

  lemma SliceOfSlice(d: seq<byte>, lo: nat, hi: nat, i: nat, j: nat)
    requires lo <= hi <= |d| && i <= j <= hi - lo
    ensures d[lo..hi][i..j] == d[lo + i..lo + j]
  {
    var s, t := d[lo..hi][i..j], d[lo + i..lo + j];
    forall k | 0 <= k < j - i ensures s[k] == t[k] {
      assert s[k] == d[lo..hi][i + k] == d[lo + (i + k)];
    }
  }

  lemma Layout4(d: seq<byte>, n: nat, f: Family)
    requires 12 <= n <= |d| - 16
    ensures ParseV4Addrs(d[16..16 + n], f) ==
            Header(Addr(d[16..20]), Addr(d[20..24]), 256 * (d[24] as int) + d[25], 256 * (d[26] as int) + d[27], f)
  {
    SliceOfSlice(d, 16, 16 + n, 0, 4);
    SliceOfSlice(d, 16, 16 + n, 4, 8);
    var b := d[16..16 + n];
    assert b[8] == d[24] && b[9] == d[25] && b[10] == d[26] && b[11] == d[27];
  }

  lemma Layout6(d: seq<byte>, n: nat, f: Family)
    requires 36 <= n <= |d| - 16
    ensures ParseV6Addrs(d[16..16 + n], f) ==
            Header(Addr(d[16..32]), Addr(d[32..48]), 256 * (d[48] as int) + d[49], 256 * (d[50] as int) + d[51], f)
  {
    SliceOfSlice(d, 16, 16 + n, 0, 16);
    SliceOfSlice(d, 16, 16 + n, 16, 32);
    var b := d[16..16 + n];
    assert b[32] == d[48] && b[33] == d[49] && b[34] == d[50] && b[35] == d[51];
  }

  /**
   * Where everything is in an accepted datagram, in network byte order: family, addresses,
   * ports, the length of the header, and the payload behind it.
   */
  lemma WireLayout(d: seq<byte>)
    requires IsFrame(d)
    ensures var r := ParseDatagram(d);
      && r.Parsed? && r.payload == d[16 + 256 * (d[14] as int) + d[15]..]
      && r.hdr.family == (if d[13] == 0x11 then TCP4 else if d[13] == 0x21 then TCP6
                          else if d[13] == 0x12 then UDP4 else UDP6)
      && (d[13] / 16 == 1 ==>
            && r.hdr.srcIP == Addr(d[16..20]) && r.hdr.dstIP == Addr(d[20..24])
            && r.hdr.srcPort == 256 * (d[24] as int) + d[25] && r.hdr.dstPort == 256 * (d[26] as int) + d[27])
      && (d[13] / 16 == 2 ==>
            && r.hdr.srcIP == Addr(d[16..32]) && r.hdr.dstIP == Addr(d[32..48])
            && r.hdr.srcPort == 256 * (d[48] as int) + d[49] && r.hdr.dstPort == 256 * (d[50] as int) + d[51])
  {
    var n := 256 * (d[14] as int) + d[15];
    if d[13] / 16 == 1 {
      Layout4(d, n, if d[13] == 0x11 then TCP4 else UDP4);
    } else {
      Layout6(d, n, if d[13] == 0x21 then TCP6 else UDP6);
    }
    hide ParseV4Addrs, ParseV6Addrs;
  }

  /** Which defect a malformed datagram is refused for, the first one in the order of the layout. */
  lemma MalformedBecause(d: seq<byte>)
    requires ParseDatagram(d).Malformed?
    ensures var e := ParseDatagram(d).error;
      && (e == V1NotSupported <==> SIG_V1 <= d)
      && (e == TooShort <==> SIG_V2 <= d && |d| < 16)
      && (SIG_V2 <= d && |d| >= 16 ==>
            var fits, version, command := 16 + 256 * (d[14] as int) + d[15] <= |d|, d[12] / 16 == 2, d[12] % 16 == 1;
            var family := d[13] in {0x11, 0x12, 0x21, 0x22};
            && (e == LengthExceedsDatagram <==> !fits)
            && (e == BadVersion <==> fits && !version)
            && (e == BadCommand <==> fits && version && !command)
            && (e == BadFamily <==> fits && version && command && !family)
            && (e == BadAddressLength <==> fits && version && command && family))
  {
    assert SIG_V2 <= d <==> |d| >= 12 && d[..12] == SIG_V2;
    assert SIG_V1 <= d <==> |d| >= 6 && d[..6] == SIG_V1;
  }

  // ---------------------------------------------------------------- round trips

  /** Reading a frame gives back its header and payload; the TLV area is skipped. */
  lemma ParseFrame(h: Header, tlvs: seq<byte>, payload: seq<byte>)
    requires WireSized(h) && |AddrBlock(h)| + |tlvs| < 0x1_0000
    ensures ParseDatagram(Frame(h, tlvs, payload)) == Parsed(h, payload, V2)
  {
    var d := Frame(h, tlvs, payload);
    var n := |AddrBlock(h)| + |tlvs|;
    assert d[..12] == SIG_V2;
    assert d[12..16] == [0x21, FamilyByte(h.family)] + U16Bytes(n);
    assert d[12] == d[12..16][0] && d[13] == d[12..16][1] && d[14] == d[12..16][2] && d[15] == d[12..16][3];
    assert d[16..16 + n] == AddrBlock(h) + tlvs;
    assert d[16 + n..] == payload;
    ParseAddrBlock(h, tlvs);
  }

  lemma ParseAddrBlock(h: Header, rest: seq<byte>)
    requires WireSized(h)
    ensures h == if AddrLen(h.family) == 4 then ParseV4Addrs(AddrBlock(h) + rest, h.family)
                 else ParseV6Addrs(AddrBlock(h) + rest, h.family)
  {
    var n := AddrLen(h.family);
    var b := AddrBlock(h) + rest;
    assert b[0..n] == Raw(h.srcIP) && b[n..2 * n] == Raw(h.dstIP);
    assert b[2 * n..2 * n + 2] == U16Bytes(h.srcPort) && b[2 * n + 2..2 * n + 4] == U16Bytes(h.dstPort);
    assert b[2 * n] == b[2 * n..2 * n + 2][0] && b[2 * n + 1] == b[2 * n..2 * n + 2][1];
    assert b[2 * n + 2] == b[2 * n + 2..2 * n + 4][0] && b[2 * n + 3] == b[2 * n + 2..2 * n + 4][1];
  }

  // The bytes between the addresses and the payload of an accepted frame.
  function Tlvs(d: seq<byte>): seq<byte>
    requires ParseDatagram(d).Parsed? && ParseDatagram(d).src == V2
  {
    d[16 + |AddrBlock(ParseDatagram(d).hdr)|..|d| - |ParseDatagram(d).payload|]
  }

  lemma RebuildAddrBlock(b: seq<byte>, f: Family)
    requires f != Unspec && |b| >= 2 * AddrLen(f) + 4
    ensures var h := if AddrLen(f) == 4 then ParseV4Addrs(b, f) else ParseV6Addrs(b, f);
      WireSized(h) && h.family == f && AddrBlock(h) == b[..2 * AddrLen(f) + 4]
  {
    var h := if AddrLen(f) == 4 then ParseV4Addrs(b, f) else ParseV6Addrs(b, f);
    var n := AddrLen(f);
    assert b[2 * n..2 * n + 2] == U16Bytes(h.srcPort);
    assert b[2 * n + 2..2 * n + 4] == U16Bytes(h.dstPort);
    assert b[..2 * n + 4] == b[..n] + b[n..2 * n] + b[2 * n..2 * n + 2] + b[2 * n + 2..2 * n + 4];
  }

  /** Nothing of an accepted datagram is lost: header, TLVs and payload rebuild it byte for byte. */
  lemma ParseIsLossless(d: seq<byte>)
    requires ParseDatagram(d).Parsed? && ParseDatagram(d).src == V2
    ensures var r := ParseDatagram(d);
      && WireSized(r.hdr)
      && |AddrBlock(r.hdr)| + |Tlvs(d)| < 0x1_0000
      && d == Frame(r.hdr, Tlvs(d), r.payload)
  {
    var r := ParseDatagram(d);
    var len := U16(d[14], d[15]);
    var k := 2 * AddrLen(r.hdr.family) + 4;
    RebuildAddrBlock(d[16..16 + len], r.hdr.family);
    assert Tlvs(d) == d[16..16 + len][k..];
    Reassemble(d, r.hdr.family, AddrBlock(r.hdr), Tlvs(d));
  }

  lemma Reassemble(d: seq<byte>, f: Family, addrs: seq<byte>, tlvs: seq<byte>)
    requires |d| >= 16 && d[..12] == SIG_V2 && d[12] == 0x21 && d[13] == FamilyByte(f)
    requires U16(d[14], d[15]) == |addrs| + |tlvs| <= |d| - 16
    requires d[16..16 + |addrs| + |tlvs|] == addrs + tlvs
    ensures d == SIG_V2 + [0x21, FamilyByte(f)] + U16Bytes(|addrs| + |tlvs|) + addrs + tlvs + d[16 + |addrs| + |tlvs|..]
  {
    var n := |addrs| + |tlvs|;
    assert d[12..16] == [0x21, FamilyByte(f)] + U16Bytes(n);
    assert d == d[..12] + d[12..16] + d[16..16 + n] + d[16 + n..];
  }

  lemma CanonSized(h: Header)
    requires Consistent(h)
    ensures WireSized(Canon(h)) && |AddrBlock(Canon(h))| <= 36
    ensures Consistent(Canon(h)) && Canon(Canon(h)) == Canon(h)
    ensures To16(Canon(h).srcIP) == To16(h.srcIP) && To16(Canon(h).dstIP) == To16(h.dstIP)
  {
    NormalForms(h.srcIP);
    NormalForms(h.dstIP);
  }

  /** What the gateway writes, a v2 reader reads: for every payload, even one that starts like a frame. */
  lemma FormatThenParse(coerce: Coercion, h: Header, payload: seq<byte>)
    requires Consistent(h)
    ensures FormatDatagram(coerce, h, payload).Some?
    ensures ParseDatagram(FormatDatagram(coerce, h, payload).value) == Parsed(Canon(h), payload, V2)
  {
    CanonSized(h);
    ParseFrame(Canon(h), [], payload);
  }

  lemma FormatSplits(coerce: Coercion, h: Header, payload: seq<byte>)
    ensures FormatDatagram(coerce, h, payload) ==
            match FormatDatagram(coerce, h, [])
            case Some(head) => Some(head + payload)
            case None => None
  {
    if Consistent(h) {
      CanonSized(h);
      var block := AddrBlock(Canon(h));
      hide AddrBlock, Canon;
      var head := SIG_V2 + [0x21, FamilyByte(Canon(h).family)] + U16Bytes(|block|) + block + [];
      assert Frame(Canon(h), [], payload) == head + payload && Frame(Canon(h), [], []) == head + [] == head;
    } else if coerce(h).Some? {
      assert coerce(h).value + [] == coerce(h).value;
    }
  }

  /** Whatever the header: its encoding depends on it alone, and the payload follows untouched. */
  lemma PayloadFollows(coerce: Coercion, h: Header, p: seq<byte>, q: seq<byte>)
    ensures FormatDatagram(coerce, h, p).Some? == FormatDatagram(coerce, h, q).Some?
    ensures FormatDatagram(coerce, h, p).Some? ==>
      var f, g := FormatDatagram(coerce, h, p).value, FormatDatagram(coerce, h, q).value;
      && |f| >= |p| && |g| >= |q|
      && f[|f| - |p|..] == p && g[|g| - |q|..] == q && f[..|f| - |p|] == g[..|g| - |q|]
  {
    FormatSplits(coerce, h, p);
    FormatSplits(coerce, h, q);
    hide FormatDatagram;
  }

  /** A frame that is re-encoded reads the same; only its TLV bytes are dropped. */
  lemma ReformatStable(coerce: Coercion, d: seq<byte>)
    requires ParseDatagram(d).Parsed? && ParseDatagram(d).src == V2 && Consistent(ParseDatagram(d).hdr)
    ensures var r := ParseDatagram(d);
      && FormatDatagram(coerce, r.hdr, r.payload) == Some(Frame(r.hdr, [], r.payload))
      && ParseDatagram(Frame(r.hdr, [], r.payload)) == r
  {
    var r := ParseDatagram(d);
    ParseIsLossless(d);
    WireSizedIsCanon(r.hdr);
    ParseFrame(r.hdr, [], r.payload);
  }

  lemma WireSizedIsCanon(h: Header)
    requires WireSized(h) && Consistent(h)
    ensures Canon(h) == h
  {}

  // ---------------------------------------------------------------- changing only the claim

  /** Two datagrams that differ at most in the addresses and ports inside a v2 header. */
  ghost predicate SameButClaim(d1: seq<byte>, d2: seq<byte>) {
    || d1 == d2
    || (&& IsFrame(d1) && |d1| == |d2| && d1[..16] == d2[..16]
        && var k := if d1[13] / 16 == 1 then 28 else 52; d1[k..] == d2[k..])
  }

  /** The claim decides neither whether a datagram parses nor what its payload is. */
  lemma ClaimOnlyChangesHeader(d1: seq<byte>, d2: seq<byte>)
    requires SameButClaim(d1, d2)
    ensures var r1, r2 := ParseDatagram(d1), ParseDatagram(d2);
      && r1.Parsed? == r2.Parsed?
      && (r1.Parsed? ==> r1.src == r2.src && r1.payload == r2.payload && (r1.src != V2 ==> r1 == r2))
  {
    if d1 != d2 {
      forall i | 0 <= i < 16 ensures d1[i] == d2[i] {
        assert d1[..16][i] == d2[..16][i];
      }
      assert d2[..12] == d2[..16][..12] && d1[..12] == d1[..16][..12];
      ClassifyExactly(d1);
      ClassifyExactly(d2);
      var n := 16 + U16(d1[14], d1[15]);
      var k := if d1[13] / 16 == 1 then 28 else 52;
      assert d1[n..] == d1[k..][n - k..] && d2[n..] == d2[k..][n - k..];
    }
  }
}
