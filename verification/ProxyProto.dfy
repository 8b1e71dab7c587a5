/** internal/proxyproto: headers, their address families, and headers rebuilt from sockets. */
module ProxyProto {
  import opened Net

  type uint16 = n: int | 0 <= n < 0x1_0000

  datatype Family = Unspec | TCP4 | TCP6 | UDP4 | UDP6

  datatype Header = Header(srcIP: IP, dstIP: IP, srcPort: uint16, dstPort: uint16, family: Family)

  datatype Source = Direct | V1 | V2

  const ZERO_HEADER: Header := Header(NilIP, NilIP, 0, 0, Unspec)

  /** The guard that the TCP gateway runs on the final header. */
  predicate FamilyMatchesAddrs(h: Header) {
    match h.family
    case TCP4 => h.srcIP != NilIP && h.dstIP != NilIP && To4(h.srcIP) != NilIP && To4(h.dstIP) != NilIP
    case TCP6 =>
      && h.srcIP != NilIP && h.dstIP != NilIP
      && To4(h.srcIP) == NilIP && To4(h.dstIP) == NilIP
      && To16(h.srcIP) != NilIP && To16(h.dstIP) != NilIP
    case Unspec => true
    case _ => false
  }

  /** The declared family can carry both addresses as they are, for TCP and UDP alike. */
  predicate Consistent(h: Header) {
    match h.family
    case TCP4 | UDP4 => IsV4(h.srcIP) && IsV4(h.dstIP)
    case TCP6 | UDP6 => IsV6(h.srcIP) && IsV6(h.dstIP)
    case Unspec => false
  }

  /** The header with its addresses in the length that its family has on the wire. */
  function Canon(h: Header): Header {
    match h.family
    case TCP4 | UDP4 => h.(srcIP := To4(h.srcIP), dstIP := To4(h.dstIP))
    case _ => h.(srcIP := To16(h.srcIP), dstIP := To16(h.dstIP))
  }

  function BuildAddrHeader(srcIP: IP, srcPort: int, dstIP: IP, dstPort: int, v4: Family, v6: Family): Header {
    var src4, dst4 := To4(srcIP), To4(dstIP);
    if src4.Addr? then
      Header(src4, if dst4.Addr? then dst4 else IPV4_ZERO, srcPort % 0x1_0000, dstPort % 0x1_0000, v4)
    else
      Header(srcIP, dstIP, srcPort % 0x1_0000, dstPort % 0x1_0000, v6)
  }

  function HeaderFromAddrs(src: NetAddr, dst: NetAddr): Header {
    match (src, dst)
    case (TCPAddr(sip, sport, _), TCPAddr(dip, dport, _)) => BuildAddrHeader(sip, sport, dip, dport, TCP4, TCP6)
    case (UDPAddr(sip, sport, _), UDPAddr(dip, dport, _)) => BuildAddrHeader(sip, sport, dip, dport, UDP4, UDP6)
    case _ => ZERO_HEADER
  }

  /**
   * A rebuilt header has the ports of the sockets, the family of their transport and of the
   * source address, and is consistent unless an IPv6 peer meets a non-IPv6 local address.
   */
  lemma RebuiltHeader(src: NetAddr, dst: NetAddr)
    requires (src.TCPAddr? && dst.TCPAddr?) || (src.UDPAddr? && dst.UDPAddr?)
    ensures var h := HeaderFromAddrs(src, dst);
      && (Consistent(h) <==> IsV4(src.ip) || (IsV6(src.ip) && IsV6(dst.ip)))
      && To16(h.srcIP) == To16(src.ip)
      && (0 <= src.port < 0x1_0000 ==> h.srcPort == src.port)
      && (0 <= dst.port < 0x1_0000 ==> h.dstPort == dst.port)
      && (src.TCPAddr? ==> h.family == if IsV4(src.ip) then TCP4 else TCP6)
      && (src.UDPAddr? ==> h.family == if IsV4(src.ip) then UDP4 else UDP6)
      && (IsV4(src.ip) && IsV6(dst.ip) ==> To4(h.dstIP) == Addr([0, 0, 0, 0]))
      && (IsV4(src.ip) == IsV4(dst.ip) ==> To16(h.dstIP) == To16(dst.ip))
  {
    NormalForms(src.ip);
    NormalForms(dst.ip);
    assert IPV4_ZERO.bytes[..12] == MAPPED_PREFIX && IPV4_ZERO.bytes[12..] == [0, 0, 0, 0];
  }

  /** Addresses of two transports, or of none, make an address-less header. */
  lemma NoHeaderAcrossTransports(src: NetAddr, dst: NetAddr)
    ensures HeaderFromAddrs(src, dst) == ZERO_HEADER <==>
            !(src.TCPAddr? && dst.TCPAddr?) && !(src.UDPAddr? && dst.UDPAddr?)
  {}

  /** The guard accepts exactly the address-less header and the consistent TCP headers. */
  lemma GuardExact(h: Header)
    ensures FamilyMatchesAddrs(h) <==> h.family == Unspec || ((h.family == TCP4 || h.family == TCP6) && Consistent(h))
  {
    NormalForms(h.srcIP);
    NormalForms(h.dstIP);
  }
}
