/** internal/udp/session.go: the key of a session, and what it may merge. */
module SessionKey {
  import opened Basics
  import opened Net
  import opened ProxyProto
  import opened Trust

  type Peer = a: NetAddr | a.UDPAddr? witness UDPAddr(NilIP, 0, "")

  datatype Key = Key(ip: seq<byte>, port: uint16, zone: string)

  function KeyOf(peer: Peer): Key {
    var wide := To16(peer.ip);
    Key(if wide.Addr? then wide.bytes else Repeat(0, 16), peer.port % 0x1_0000, peer.zone)
  }

  // A UDP port.
  predicate PortInRange(p: Peer) {
    0 <= p.port < 0x1_0000
  }

  /** A key tells peers apart by address, port and zone, and by nothing else. */
  lemma KeyExact(p: Peer, q: Peer)
    requires IsValid(p.ip) && IsValid(q.ip) && PortInRange(p) && PortInRange(q)
    ensures KeyOf(p) == KeyOf(q) <==> To16(p.ip) == To16(q.ip) && p.port == q.port && p.zone == q.zone
  {
    var v, w := To16(p.ip), To16(q.ip);
    assert v == w <==> v.bytes == w.bytes;
  }

  /** A key merges the two forms of an address, on which every trust checker agrees. */
  lemma KeyTrust(t: TrustChecker, p: Peer)
    requires IsValid(p.ip)
    ensures Trusts(t, p.ip) == Trusts(t, Addr(KeyOf(p).ip))
  {
    NormalForms(p.ip);
    FormsAgree(t, p.ip, Addr(KeyOf(p).ip));
  }

  /** Every trust checker accepts peers that share a key alike, provided both have an address or neither has. */
  lemma SameKeySameTrust(t: TrustChecker, p: Peer, q: Peer)
    requires KeyOf(p) == KeyOf(q) && Built(t) && IsValid(p.ip) == IsValid(q.ip)
    ensures Trusts(t, p.ip) == Trusts(t, q.ip)
  {
    if IsValid(p.ip) {
      KeyTrust(t, p);
      KeyTrust(t, q);
    } else {
      NoAddressNoTrust(t, p.ip);
      NoAddressNoTrust(t, q.ip);
    }
  }

  lemma MappedIsNotZero(b: seq<byte>)
    requires |b| == 4
    ensures MAPPED_PREFIX + b != Repeat(0, 16)
  {
    assert (MAPPED_PREFIX + b)[10] == 255;
  }

  lemma AllZeroAddress(ip: IP)
    requires To16(ip) == Addr(Repeat(0, 16))
    ensures Raw(ip) == Repeat(0, 16) && IsV6(ip)
  {
    if |Raw(ip)| == 4 {
      MappedIsNotZero(Raw(ip));
    } else {
      assert Raw(ip)[..12][10] == 0;
    }
  }

  /** The proviso is needed: a peer without an address shares its key with ::, which ::/0 trusts. */
  lemma KeyOfNoAddress(p: Peer, q: Peer)
    requires KeyOf(p) == KeyOf(q) && IsValid(p.ip) && !IsValid(q.ip)
    ensures exists t :: Built(t) && Trusts(t, p.ip) && !Trusts(t, q.ip)
  {
    var zero: seq<byte> := Repeat(0, 16);
    var t := TrustChecker([CidrNet(zero, 0)], false);
    assert Trusts(t, p.ip) by {
      AllZeroAddress(p.ip);
      WideNet(zero, 0, p.ip);
      assert Contains(t.nets[0], p.ip);
    }
    NoAddressNoTrust(t, q.ip);
  }
}
