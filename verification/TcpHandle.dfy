/**
 * internal/gateway/gateway.go (handle) with the stream reader and writer around it: which
 * header goes downstream, and that what follows it is the client's stream.
 */
module TcpHandle {
  import opened Basics
  import opened Net
  import opened ProxyProto
  import opened Trust
  import opened Deciding
  import Datagram
  import Pipe

  datatype FamilyMismatch = MismatchReject | MismatchUnknown | MismatchLegacy

  datatype Config = Config(policy: Policy, trust: TrustChecker, untrusted: UntrustedAction, mixed: FamilyMismatch)

  // What go-proxyproto made of the start of the stream: no signature, a detection timeout, a
  // malformed header, or a header with its version and (for TCP families) its addresses.
  datatype Detected =
    | NoProxy
    | DetectTimeout
    | LibraryError
    | NonTCP
    | Found(version: int, srcIP: IP, srcPort: uint16, dstIP: IP, dstPort: uint16)

  datatype ReadResult = Read(hdr: Header, src: Source) | ReadFailed

  /** reader.go: the parsed header in normal form. */
  function ReadHeader(r: Detected): ReadResult {
    match r
    case NoProxy => Read(ZERO_HEADER, Direct)
    case DetectTimeout => Read(ZERO_HEADER, Direct)
    case LibraryError => ReadFailed
    case NonTCP => ReadFailed
    case Found(version, srcIP, srcPort, dstIP, dstPort) =>
      var hdr :=
        if IsV4(srcIP) then Header(To4(srcIP), To4(dstIP), srcPort, dstPort, TCP4)
        else Header(srcIP, dstIP, srcPort, dstPort, TCP6);
      Read(hdr, if version == 2 then V2 else V1)
  }

  /** On every header the reader yields, the guard asks whether source and destination share a family. */
  lemma GuardOnReaderOutput(r: Detected)
    requires r.Found?
    ensures FamilyMatchesAddrs(ReadHeader(r).hdr) <==>
            (IsV4(r.srcIP) && IsV4(r.dstIP)) || (IsV6(r.srcIP) && IsV6(r.dstIP))
    ensures IsV4(r.srcIP) && !IsV4(r.dstIP) ==> ReadHeader(r).hdr.dstIP == NilIP
  {
    NormalForms(r.srcIP);
    NormalForms(r.dstIP);
    GuardExact(ReadHeader(r).hdr);
  }

  // ---------------------------------------------------------------- handle

  datatype Effect = DialDownstream | WriteHeader(h: Header) | PipeBothWays | CloseDownstream | CloseClient

  /** The header that reaches the writer, or None if the connection is dropped before the dial. */
  function Outgoing(cfg: Config, r: Detected, remote: NetAddr, local: NetAddr): Option<Header> {
    match ReadHeader(r)
    case ReadFailed => None
    case Read(hdr, src) =>
      var d := Decide(cfg.policy, cfg.trust, cfg.untrusted, src, hdr, RemoteIP(remote), remote, local);
      if !d.allow then None
      else if cfg.mixed == MismatchLegacy || FamilyMatchesAddrs(d.hdr) then Some(d.hdr)
      else if cfg.mixed == MismatchReject then None
      else Some(ZERO_HEADER)
  }

  /** handle(): its effects in order, deferred closes included. */
  method Handle(cfg: Config, r: Detected, remote: NetAddr, local: NetAddr, dialOk: bool, writeOk: bool)
    returns (log: seq<Effect>)
    ensures log != [] && log[|log| - 1] == CloseClient
    ensures DialDownstream in log <==> Outgoing(cfg, r, remote, local).Some?
    ensures log == match Outgoing(cfg, r, remote, local)
                   case None => [CloseClient]
                   case Some(h) =>
                     if !dialOk then [DialDownstream, CloseClient]
                     else
                       [DialDownstream, WriteHeader(h)] + (if writeOk then [PipeBothWays] else [])
                       + [CloseDownstream, CloseClient]
  {
    log := [];
    var result := ReadHeader(r);
    if result.ReadFailed? {
      return log + [CloseClient];
    }
    var hdr := result.hdr;
    var d := Decide(cfg.policy, cfg.trust, cfg.untrusted, result.src, hdr, RemoteIP(remote), remote, local);
    hdr := d.hdr;
    if !d.allow {
      return log + [CloseClient];
    }
    if cfg.mixed != MismatchLegacy && !FamilyMatchesAddrs(hdr) {
      if cfg.mixed == MismatchReject {
        return log + [CloseClient];
      }
      hdr := ZERO_HEADER;
    }
    log := log + [DialDownstream];
    if !dialOk {
      return log + [CloseClient];
    }
    log := log + [WriteHeader(hdr)];
    if writeOk {
      log := log + [PipeBothWays];
    }
    log := log + [CloseDownstream, CloseClient];
  }

  /**
   * Unless coercion was asked for, the writer only ever sees the address-less header or one
   * whose family carries both addresses; a vouched-for header with addresses of one family, and
   * every peer that shares its family with the local address, gets through unchanged.
   */
  lemma WriterNeverContradicted(cfg: Config, r: Detected, remote: NetAddr, local: NetAddr)
    requires cfg.mixed != MismatchLegacy && remote.TCPAddr? && local.TCPAddr?
    ensures var h := Outgoing(cfg, r, remote, local);
      h.Some? ==> h.value == ZERO_HEADER || ((h.value.family == TCP4 || h.value.family == TCP6) && Consistent(h.value))
    ensures ReadHeader(r).Read? ==>
      var read := ReadHeader(r);
      var d := Decide(cfg.policy, cfg.trust, cfg.untrusted, read.src, read.hdr, remote.ip, remote, local);
      var same := if d.src == Direct then IsV4(remote.ip) || (IsV6(remote.ip) && IsV6(local.ip))
                  else (IsV4(r.srcIP) && IsV4(r.dstIP)) || (IsV6(r.srcIP) && IsV6(r.dstIP));
      d.allow ==>
        (same ==> Outgoing(cfg, r, remote, local) == Some(d.hdr))
        && (!same ==> Outgoing(cfg, r, remote, local) ==
                      if cfg.mixed == MismatchReject then None else Some(ZERO_HEADER))
  {
    if ReadHeader(r).Read? {
      var read := ReadHeader(r);
      var d := Decide(cfg.policy, cfg.trust, cfg.untrusted, read.src, read.hdr, remote.ip, remote, local);
      GuardExact(d.hdr);
      RebuiltHeader(remote, local);
      if r.Found? { GuardOnReaderOutput(r); }
    }
  }

  // Both addresses are IPv4, or both are IPv6.
  predicate OneFamily(a: IP, b: IP) {
    (IsV4(a) && IsV4(b)) || (IsV6(a) && IsV6(b))
  }

  /** A malformed header, or one of another transport, closes the connection under every policy. */
  lemma BadHeaderDrops(cfg: Config, r: Detected, remote: NetAddr, local: NetAddr)
    requires r.LibraryError? || r.NonTCP?
    ensures Outgoing(cfg, r, remote, local).None?
  {}

  /**
   * A trusted peer's claim, of version 1 or 2: refused under reject, and otherwise sent on with
   * its own addresses, ports and family.
   */
  lemma ClaimOfAnyVersion(cfg: Config, r: Detected, remote: NetAddr, local: NetAddr)
    requires r.Found? && OneFamily(r.srcIP, r.dstIP) && Trusts(cfg.trust, RemoteIP(remote))
    ensures ReadHeader(r).Read? && ReadHeader(r).src == if r.version == 2 then V2 else V1
    ensures var o := Outgoing(cfg, r, remote, local);
      && (o.None? <==> cfg.policy == Reject)
      && (o.Some? ==>
            && To16(o.value.srcIP) == To16(r.srcIP) && To16(o.value.dstIP) == To16(r.dstIP)
            && (IsV4(r.srcIP) ==> |Raw(o.value.srcIP)| == |Raw(o.value.dstIP)| == 4)
            && o.value.srcPort == r.srcPort && o.value.dstPort == r.dstPort
            && o.value.family == if IsV4(r.srcIP) then TCP4 else TCP6)
  {
    NormalForms(r.srcIP);
    NormalForms(r.dstIP);
    GuardExact(ReadHeader(r).hdr);
  }

  /** Exactly who gets through to the downstream, when no two families are mixed. */
  lemma WhoGetsThrough(cfg: Config, r: Detected, remote: NetAddr, local: NetAddr)
    requires remote.TCPAddr? && local.TCPAddr? && (IsV4(remote.ip) || (IsV6(remote.ip) && IsV6(local.ip)))
    requires r.Found? ==> OneFamily(r.srcIP, r.dstIP)
    ensures Outgoing(cfg, r, remote, local).Some? <==>
      match r
      case LibraryError => false
      case NonTCP => false
      case NoProxy => cfg.policy != Require
      case DetectTimeout => cfg.policy != Require
      case Found(_, _, _, _, _) =>
        if Trusts(cfg.trust, remote.ip) then cfg.policy != Reject
        else cfg.untrusted == UntrustedStrip && cfg.policy != Require
  {
    GuardExact(ReadHeader(NoProxy).hdr);
    RebuiltHeader(remote, local);
    GuardExact(HeaderFromAddrs(remote, local));
    if r.Found? {
      GuardOnReaderOutput(r);
    }
  }

  /** Under legacy the family guard is off: whatever Decide lets through is written. */
  lemma LegacyIsUnguarded(cfg: Config, r: Detected, remote: NetAddr, local: NetAddr)
    requires cfg.mixed == MismatchLegacy && ReadHeader(r).Read?
    ensures var read := ReadHeader(r);
      var d := Decide(cfg.policy, cfg.trust, cfg.untrusted, read.src, read.hdr, RemoteIP(remote), remote, local);
      Outgoing(cfg, r, remote, local) == if d.allow then Some(d.hdr) else None
  {}

  // ---------------------------------------------------------------- the wire, version 2

  // LOCAL command, AF_UNSPEC, length zero.
  const ADDRESS_LESS: seq<byte> := Datagram.SIG_V2 + [0x20, 0x00, 0x00, 0x00]

  /** writer.go in version 2, for the headers that reach it under `reject` and `unknown`. */
  function WireHeader(h: Header): seq<byte>
    requires h == ZERO_HEADER || Consistent(h)
  {
    if h == ZERO_HEADER then ADDRESS_LESS
    else
      Datagram.CanonSized(h);
      Datagram.Frame(Canon(h), [], [])
  }

  /**
   * For the address-less header the writer sends what section 2.2 of the standard calls LOCAL:
   * sixteen bytes, no addresses. A datagram parser refuses it.
   */
  lemma AddressLessFrame(body: seq<byte>)
    ensures var w := WireHeader(ZERO_HEADER);
      && |w| == 16 && w[..12] == Datagram.SIG_V2
      && w[12] / 16 == 2 && w[12] % 16 == 0
      && w[13] == w[14] == w[15] == 0
      && Datagram.ParseDatagram(w + body) == Datagram.Malformed(Datagram.BadCommand)
  {
    var d := ADDRESS_LESS + body;
    assert d[..12] == Datagram.SIG_V2;
    assert d[0] == 0x0d && d[12] == 0x20 && d[13] == d[14] == d[15] == 0;
  }

  /**
   * A library that follows section 2.2 of the standard on TCP frames: it reads the addresses
   * and consumes the header, TLVs included, and nothing else. Where it finds no header it has
   * only peeked.
   */
  ghost predicate Reads(stream: seq<byte>, r: Detected, rest: seq<byte>) {
    && (CarriesTCP(stream) ==>
          var p := Datagram.ParseDatagram(stream);
          r == Found(2, p.hdr.srcIP, p.hdr.srcPort, p.hdr.dstIP, p.hdr.dstPort) && rest == p.payload)
    && (r.NoProxy? || r.DetectTimeout? ==> rest == stream)
  }

  // The stream starts with a version 2 frame of a TCP family.
  predicate CarriesTCP(stream: seq<byte>) {
    var p := Datagram.ParseDatagram(stream);
    p.Parsed? && p.src == V2 && (p.hdr.family == TCP4 || p.hdr.family == TCP6)
  }

  lemma WireParses(h: Header, body: seq<byte>)
    requires Consistent(h) && (h.family == TCP4 || h.family == TCP6)
    ensures Datagram.ParseDatagram(WireHeader(h) + body) == Datagram.Parsed(Canon(h), body, V2)
  {
    Datagram.CanonSized(h);
    assert WireHeader(h) + body == Datagram.Frame(Canon(h), [], body);
    hide Datagram.Frame, Datagram.ParseDatagram;
    Datagram.ParseFrame(Canon(h), [], body);
  }

  /** Encoded and read again, a consistent header is itself, and the stream behind it is untouched. */
  lemma WriteThenRead(h: Header, body: seq<byte>, r: Detected, rest: seq<byte>)
    requires Consistent(h) && (h.family == TCP4 || h.family == TCP6)
    requires Reads(WireHeader(h) + body, r, rest)
    ensures ReadHeader(r) == Read(Canon(h), V2) && rest == body
  {
    hide WireHeader, Datagram.ParseDatagram;
    WireParses(h, body);
    NormalForms(h.srcIP);
    NormalForms(h.dstIP);
  }

  /** A second gateway that trusts the first (policy use or require) sends the very same header on. */
  lemma SecondGatewayIsTransparent(cfg: Config, h: Header, body: seq<byte>, r: Detected, rest: seq<byte>,
                                   remote: NetAddr, local: NetAddr)
    requires Consistent(h) && (h.family == TCP4 || h.family == TCP6)
    requires cfg.policy != Reject && Trusts(cfg.trust, RemoteIP(remote))
    requires Reads(WireHeader(h) + body, r, rest)
    ensures Outgoing(cfg, r, remote, local) == Some(Canon(h))
    ensures Consistent(Canon(h)) && WireHeader(Canon(h)) + rest == WireHeader(h) + body
  {
    WriteThenRead(h, body, r, rest);
    Datagram.CanonSized(h);
    GuardExact(Canon(h));
  }

  // ---------------------------------------------------------------- end to end

  /** What handle puts on the downstream connection before the pipe starts. */
  function OnTheWire(cfg: Config, r: Detected, remote: NetAddr, local: NetAddr): Option<seq<byte>>
    requires cfg.mixed != MismatchLegacy && remote.TCPAddr? && local.TCPAddr?
  {
    match Outgoing(cfg, r, remote, local)
    case None => None
    case Some(h) =>
      WriterNeverContradicted(cfg, r, remote, local);
      Some(WireHeader(h))
  }

  // The up loop of the pipe as handle starts it: detection left `rest` to copy, part of it peeked.
  predicate StartsWith(st: Pipe.State, rest: seq<byte>) {
    Pipe.Starting(st) && Pipe.Input(st, Pipe.UpSide) == rest
  }

  /** A trusted peer's consistent header leaves handle as it came, and its frame alone is consumed. */
  lemma ClaimGoesThrough(cfg: Config, stream: seq<byte>, r: Detected, rest: seq<byte>, remote: NetAddr, local: NetAddr)
    requires Reads(stream, r, rest) && CarriesTCP(stream) && Consistent(Datagram.ParseDatagram(stream).hdr)
    requires cfg.policy != Reject && Trusts(cfg.trust, RemoteIP(remote))
    ensures var p := Datagram.ParseDatagram(stream);
      Outgoing(cfg, r, remote, local) == Some(p.hdr) && Canon(p.hdr) == p.hdr && rest == p.payload
  {
    var p := Datagram.ParseDatagram(stream);
    Datagram.ParseIsLossless(stream);
    hide Datagram.ParseDatagram;
    Datagram.WireSizedIsCanon(p.hdr);
    GuardExact(p.hdr);
  }

  // The peer's own address and port, and the port it connected to; as are the addresses if they match in family.
  predicate OfSocket(h: Header, remote: NetAddr, local: NetAddr)
    requires remote.TCPAddr? && local.TCPAddr?
  {
    && To16(h.srcIP) == To16(remote.ip)
    && (IsV4(remote.ip) == IsV4(local.ip) ==> To16(h.dstIP) == To16(local.ip))
    && (0 <= remote.port < 0x1_0000 ==> h.srcPort == remote.port)
    && (0 <= local.port < 0x1_0000 ==> h.dstPort == local.port)
    && h.family == if IsV4(remote.ip) then TCP4 else TCP6
  }

  lemma CanonOfSocket(h: Header, remote: NetAddr, local: NetAddr)
    requires remote.TCPAddr? && local.TCPAddr? && Consistent(h) && OfSocket(h, remote, local)
    ensures OfSocket(Canon(h), remote, local)
  {
    Datagram.CanonSized(h);
  }

  /** A peer that claims nothing, or whose claim is stripped, goes under its own address. */
  lemma SocketGoesThrough(cfg: Config, r: Detected, remote: NetAddr, local: NetAddr)
    requires remote.TCPAddr? && local.TCPAddr? && Outgoing(cfg, r, remote, local).Some?
    requires !r.Found? || !Trusts(cfg.trust, remote.ip)
    requires IsV4(remote.ip) || (IsV6(remote.ip) && IsV6(local.ip))
    ensures Outgoing(cfg, r, remote, local) == Some(HeaderFromAddrs(remote, local))
    ensures Consistent(HeaderFromAddrs(remote, local)) && OfSocket(HeaderFromAddrs(remote, local), remote, local)
  {
    RebuiltHeader(remote, local);
    GuardExact(HeaderFromAddrs(remote, local));
  }

  lemma AfterTheHeader(h: Header, body: seq<byte>, r: Detected, rest: seq<byte>)
    requires h == ZERO_HEADER || ((h.family == TCP4 || h.family == TCP6) && Consistent(h))
    requires Reads(WireHeader(h) + body, r, rest)
    ensures h != ZERO_HEADER ==> ReadHeader(r) == Read(Canon(h), V2) && rest == body
  {
    hide WireHeader, Reads;
    if h != ZERO_HEADER {
      WriteThenRead(h, body, r, rest);
    }
  }

  /**
   * From the client's stream to the downstream's: behind the header the downstream gets a
   * prefix of what the client sent behind its own, all of it after a clean end. A downstream
   * that reads the result finds, for a trusted peer, the very header that the client sent, and
   * otherwise the peer's socket address, unless addresses of two families are in play.
   */
  lemma EndToEnd(cfg: Config, stream: seq<byte>, r: Detected, rest: seq<byte>, remote: NetAddr, local: NetAddr,
                 timeout: int, st: Pipe.State, acts: seq<Pipe.Action>, q: Detected, after: seq<byte>)
    requires cfg.mixed != MismatchLegacy && remote.TCPAddr? && local.TCPAddr?
    requires Reads(stream, r, rest) && OnTheWire(cfg, r, remote, local).Some?
    requires StartsWith(st, rest) && Pipe.Exec(timeout, st, acts).Some?
    requires Reads(OnTheWire(cfg, r, remote, local).value + Pipe.Exec(timeout, st, acts).value.upstream.delivered,
                   q, after)
    ensures var st' := Pipe.Exec(timeout, st, acts).value;
      && st'.upstream.delivered <= rest
      && (Pipe.Finished(st'.up) && st'.up.phase.clean ==> st'.upstream.delivered == rest)
      && (Outgoing(cfg, r, remote, local) != Some(ZERO_HEADER) ==> after == st'.upstream.delivered)
    ensures CarriesTCP(stream) && Consistent(Datagram.ParseDatagram(stream).hdr)
            && cfg.policy != Reject && Trusts(cfg.trust, remote.ip) ==>
      var p := Datagram.ParseDatagram(stream); ReadHeader(q) == Read(p.hdr, V2) && after <= p.payload
    ensures (!r.Found? || !Trusts(cfg.trust, remote.ip)) && (IsV4(remote.ip) || (IsV6(remote.ip) && IsV6(local.ip))) ==>
      ReadHeader(q).Read? && ReadHeader(q).src == V2 && OfSocket(ReadHeader(q).hdr, remote, local)
  {
    hide Pipe.Exec, Pipe.Starting, Pipe.Finished;
    var h, body := Outgoing(cfg, r, remote, local).value, Pipe.Exec(timeout, st, acts).value.upstream.delivered;
    Pipe.PrefixSafety(timeout, st, acts, Pipe.UpSide);
    WriterNeverContradicted(cfg, r, remote, local);
    AfterTheHeader(h, body, q, after);
    hide Reads, ReadHeader, WireHeader, Outgoing, HeaderFromAddrs, Consistent, OfSocket;
    hide Datagram.ParseDatagram, CarriesTCP;
    if CarriesTCP(stream) && Consistent(Datagram.ParseDatagram(stream).hdr)
       && cfg.policy != Reject && Trusts(cfg.trust, remote.ip)
    {
      ClaimGoesThrough(cfg, stream, r, rest, remote, local);
    }
    if (!r.Found? || !Trusts(cfg.trust, remote.ip)) && (IsV4(remote.ip) || (IsV6(remote.ip) && IsV6(local.ip))) {
      SocketGoesThrough(cfg, r, remote, local);
      CanonOfSocket(HeaderFromAddrs(remote, local), remote, local);
    }
  }
}
