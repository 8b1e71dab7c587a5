/** Which header a headerless datagram goes out under, and the one race that decides otherwise. */
module UdpClaims {
  import opened Basics
  import opened Net
  import opened ProxyProto
  import opened Trust
  import opened Deciding
  import opened Datagram
  import opened SessionKey
  import opened UdpFlow
  import opened UdpHistory

  /** The first PROXY header accepted in the incarnation, or the socket's if there is none. */
  function Promised(cfg: Config, before: seq<Rec>, r: Rec): Header {
    match FirstClaim(before, r.id)
    case Some(h) => h
    case None => HeaderFromAddrs(r.peer, cfg.local)
  }

  lemma RecAt(cfg: Config, evs: seq<Event>, j: nat)
    requires Sound(evs) && j < |Exec(cfg, START, evs).recs|
    ensures var recs := Exec(cfg, START, evs).recs;
      AllExplained(cfg, recs) && RecExplained(cfg, recs[..j], recs[j])
  {
    StartExplained(cfg);
    StateRefinesHistory(cfg, START, evs);
  }

  /**
   * In every run from the start a headerless datagram gets the promised header if and only if
   * the stored source is not cleared between the check of done and its lookup, or the two
   * headers are the same. If it is cleared there, the datagram gets the socket's header.
   */
  lemma HeaderlessUsesFirstClaim(cfg: Config, evs: seq<Event>, j: nat)
    requires Sound(evs) && j < |Exec(cfg, START, evs).recs| && Exec(cfg, START, evs).recs[j].claim.None?
    ensures var recs := Exec(cfg, START, evs).recs;
      var r, socket := recs[j], HeaderFromAddrs(recs[j].peer, cfg.local);
      && (r.hdr == Promised(cfg, recs[..j], r) <==> !r.wiped || Promised(cfg, recs[..j], r) == socket)
      && (r.wiped ==> r.hdr == socket)
  {
    RecAt(cfg, evs, j);
  }

  lemma ClaimMeansNotReject(cfg: Config, recs: seq<Rec>, id: nat)
    requires AllExplained(cfg, recs) && FirstClaim(recs, id).Some?
    ensures cfg.policy != Reject && Used(recs, id)
  {
    FirstClaimIsFirst(recs, id);
    var i :| 0 <= i < |recs| && Claims(recs[i], id);
    assert RecExplained(cfg, recs[..i], recs[i]);
  }

  lemma PrefixExplained(cfg: Config, recs: seq<Rec>, j: nat)
    requires AllExplained(cfg, recs) && j <= |recs|
    ensures AllExplained(cfg, recs[..j])
  {
    forall i | 0 <= i < j ensures RecExplained(cfg, recs[..j][..i], recs[..j][i]) {
      assert recs[..j][..i] == recs[..i];
    }
  }

  /** It takes policy use, and happens at most once in an incarnation: to its last datagram. */
  lemma OtherHeaderIsTheLast(cfg: Config, evs: seq<Event>, j: nat)
    requires Sound(evs) && j < |Exec(cfg, START, evs).recs| && Exec(cfg, START, evs).recs[j].claim.None?
    requires var recs := Exec(cfg, START, evs).recs; recs[j].hdr != Promised(cfg, recs[..j], recs[j])
    ensures var recs := Exec(cfg, START, evs).recs;
      cfg.policy == Use && recs[j].wiped && forall i :: j < i < |recs| ==> recs[i].id != recs[j].id
  {
    RecAt(cfg, evs, j);
    var recs := Exec(cfg, START, evs).recs;
    PrefixExplained(cfg, recs, j);
    ClaimMeansNotReject(cfg, recs[..j], recs[j].id);
    hide DueHeader;
    forall i | j < i < |recs| ensures recs[i].id != recs[j].id {
      assert RecExplained(cfg, recs[..i], recs[i]) && recs[..i][j] == recs[j];
    }
  }

  /**
   * What the upstream is sent for a headerless datagram is what the promised header calls for,
   * if and only if the stored source was not cleared first, or the socket was closed in time as
   * well, or the header is not on the wire (first_datagram has sent it), or it makes no
   * difference to the frame.
   */
  lemma SentAsPromised(cfg: Config, evs: seq<Event>, j: nat)
    requires Sound(evs) && j < |Exec(cfg, START, evs).recs| && Exec(cfg, START, evs).recs[j].claim.None?
    ensures var recs := Exec(cfg, START, evs).recs;
      var r, promised := recs[j], Promised(cfg, recs[..j], recs[j]);
      Emitted(cfg, recs[..j], r) == Emitted(cfg, recs[..j], r.(hdr := promised)) <==>
        || !r.wiped || r.shut || cfg.mode.FirstDatagram?
        || FormatDatagram(cfg.coerce, HeaderFromAddrs(r.peer, cfg.local), r.payload)
           == FormatDatagram(cfg.coerce, promised, r.payload)
  {
    HeaderlessUsesFirstClaim(cfg, evs, j);
    RecAt(cfg, evs, j);
    var recs := Exec(cfg, START, evs).recs;
    PrefixExplained(cfg, recs, j);
    if FirstClaim(recs[..j], recs[j].id).Some? {
      ClaimMeansNotReject(cfg, recs[..j], recs[j].id);
    }
    hide FormatDatagram, RecExplained, Exec;
  }

  /** Under require and under reject, and in first_datagram, every datagram is sent as promised. */
  lemma PromiseKept(cfg: Config, evs: seq<Event>, j: nat)
    requires Sound(evs) && j < |Exec(cfg, START, evs).recs| && Exec(cfg, START, evs).recs[j].claim.None?
    requires cfg.policy != Use || cfg.mode.FirstDatagram?
    ensures var recs := Exec(cfg, START, evs).recs;
      Emitted(cfg, recs[..j], recs[j]) == Emitted(cfg, recs[..j], recs[j].(hdr := Promised(cfg, recs[..j], recs[j])))
  {
    SentAsPromised(cfg, evs, j);
    var recs := Exec(cfg, START, evs).recs;
    if recs[j].hdr != Promised(cfg, recs[..j], recs[j]) {
      OtherHeaderIsTheLast(cfg, evs, j);
    }
  }

  // ---------------------------------------------------------------- the race

  // expire() clears the source after the check of done, and closes the socket after the write.
  const CLEARED_TOO_SOON: Hit := Hit(CLEARED, CLEARED, CLEARED, CLEARED, CLOSED)

  // A trusted peer with an IPv4 address, a header it may claim, and a datagram without a header.
  predicate Setting(cfg: Config, h: Header, second: seq<byte>, peer: Peer) {
    && cfg.policy == Use && cfg.mode == EveryDatagram && cfg.maxDatagram <= 0
    && cfg.local.UDPAddr? && IsV4(peer.ip) && Trusts(cfg.trust, peer.ip)
    && WireSized(h) && Consistent(h) && |AddrBlock(h)| < 0x1_0000
    && ParseDatagram(second) == Parsed(ZERO_HEADER, second, Direct)
  }

  function ClaimArrival(h: Header, first: seq<byte>, peer: Peer, now: int): Arrival
    requires |AddrBlock(h)| < 0x1_0000
  {
    Arrival(Frame(h, [], first), peer, now, true, NO_HIT)
  }

  function BareArrival(second: seq<byte>, peer: Peer, now: int): Arrival {
    Arrival(second, peer, now, true, CLEARED_TOO_SOON)
  }

  function ClaimThenBare(h: Header, first: seq<byte>, second: seq<byte>, peer: Peer, now: int): seq<Event>
    requires |AddrBlock(h)| < 0x1_0000
  {
    [Arrive(ClaimArrival(h, first, peer, now)), Arrive(BareArrival(second, peer, now))]
  }

  lemma ClaimEnters(cfg: Config, a: Arrival, h: Header, first: seq<byte>, second: seq<byte>)
    requires Setting(cfg, h, second, a.peer) && a.hit == NO_HIT && a.dialOk
    requires ParseDatagram(a.data) == Parsed(h, first, V2)
    ensures Forwards(cfg, START.st, a) && Verdict(cfg, START.st, a) == Decision(h, V2, true, NoReason)
    ensures Entered(cfg, START.st, a).sessions ==
            map[KeyOf(a.peer) := Session(0, ALIVE, None, false, a.now + cfg.idle)]
  {
    hide ParseDatagram, KeyOf, HeaderFromAddrs, Consistent;
  }

  lemma SocketHeaderFits(cfg: Config, peer: Peer, payload: seq<byte>)
    requires IsV4(peer.ip) && cfg.local.UDPAddr?
    ensures var socket := HeaderFromAddrs(peer, cfg.local);
      Consistent(socket) && FormatDatagram(cfg.coerce, socket, payload).Some?
  {
    RebuiltHeader(peer, cfg.local);
    FormatThenParse(cfg.coerce, HeaderFromAddrs(peer, cfg.local), payload);
  }

  lemma SettingMeans(cfg: Config, h: Header, second: seq<byte>, peer: Peer)
    requires Setting(cfg, h, second, peer)
    ensures |AddrBlock(h)| < 0x1_0000 && FormatDatagram(cfg.coerce, HeaderFromAddrs(peer, cfg.local), second).Some?
  {
    hide ParseDatagram;
    SocketHeaderFits(cfg, peer, second);
  }

  lemma ClaimParses(cfg: Config, h: Header, first: seq<byte>, second: seq<byte>, peer: Peer, now: int)
    requires Setting(cfg, h, second, peer)
    ensures |AddrBlock(h)| < 0x1_0000
    ensures ParseDatagram(ClaimArrival(h, first, peer, now).data) == Parsed(h, first, V2)
  {
    hide ParseDatagram, Frame, AddrBlock, WireSized;
    ParseFrame(h, [], first);
  }

  lemma ClaimServed(cfg: Config, a: Arrival, h: Header, first: seq<byte>, second: seq<byte>)
    requires Setting(cfg, h, second, a.peer) && a.hit == NO_HIT && a.data == Frame(h, [], first)
    ensures var s := Session(0, ALIVE, None, false, a.now + cfg.idle);
      var d, p := Decision(h, V2, true, NoReason), Parsed(h, first, V2);
      && Served(cfg, s, a, d, p) == s.(input := Some(Stored(h, V2)))
      && Sending(cfg, s, a, d, p) == Some(Write(0, a.data))
  {
    WireSizedIsCanon(h);
    hide ParseDatagram, Frame, HeaderFromAddrs, Canon;
  }

  lemma ClaimHandled(cfg: Config, a: Arrival, h: Header, first: seq<byte>, second: seq<byte>)
    requires Setting(cfg, h, second, a.peer) && a.hit == NO_HIT && a.dialOk
    requires ParseDatagram(a.data) == Parsed(h, first, V2)
    ensures var s := Session(0, ALIVE, None, false, a.now + cfg.idle);
      var d, p, o := Decision(h, V2, true, NoReason), Parsed(h, first, V2), Handle(cfg, START.st, a);
      o.st.sessions == map[KeyOf(a.peer) := Served(cfg, s, a, d, p)] && o.write == Sending(cfg, s, a, d, p)
  {
    hide Setting, Handle, Forwards, Entered, Verdict, ParseDatagram, KeyOf, Served, Sending, RecordFor;
    ClaimEnters(cfg, a, h, first, second);
    HandleForwards(cfg, START.st, a);
  }

  lemma ClaimStored(cfg: Config, a: Arrival, h: Header, first: seq<byte>, second: seq<byte>)
    requires Setting(cfg, h, second, a.peer) && a.hit == NO_HIT && a.dialOk && a.data == Frame(h, [], first)
    requires ParseDatagram(a.data) == Parsed(h, first, V2)
    ensures var o := Handle(cfg, START.st, a);
      && o.st.sessions == map[KeyOf(a.peer) := Session(0, ALIVE, Some(Stored(h, V2)), false, a.now + cfg.idle)]
      && o.write == Some(Write(0, a.data))
  {
    hide Setting, ParseDatagram, Frame, KeyOf, AddrBlock, Handle, Served, Sending;
    ClaimHandled(cfg, a, h, first, second);
    ClaimServed(cfg, a, h, first, second);
  }

  lemma ClaimSent(cfg: Config, h: Header, first: seq<byte>, second: seq<byte>, peer: Peer, now: int)
    requires Setting(cfg, h, second, peer)
    ensures |AddrBlock(h)| < 0x1_0000
    ensures var o := Handle(cfg, START.st, ClaimArrival(h, first, peer, now));
      && o.st.sessions == map[KeyOf(peer) := Session(0, ALIVE, Some(Stored(h, V2)), false, now + cfg.idle)]
      && o.write == Some(Write(0, Frame(h, [], first)))
  {
    hide Setting, Handle, ParseDatagram, KeyOf, AddrBlock, Frame;
    ClaimParses(cfg, h, first, second, peer, now);
    ClaimStored(cfg, ClaimArrival(h, first, peer, now), h, first, second);
  }

  lemma BareAfterClearing(cfg: Config, st: State, h: Header, second: seq<byte>, peer: Peer, now: int)
    requires Setting(cfg, h, second, peer)
    requires st.sessions == map[KeyOf(peer) := Session(0, ALIVE, Some(Stored(h, V2)), false, now + cfg.idle)]
    ensures var o := Handle(cfg, st, BareArrival(second, peer, now));
      o.write == match FormatDatagram(cfg.coerce, HeaderFromAddrs(peer, cfg.local), second)
                 case Some(b) => Some(Write(0, b))
                 case None => None
  {
    var a := BareArrival(second, peer, now);
    hide ParseDatagram, FormatDatagram, KeyOf, HeaderFromAddrs;
    HandleForwards(cfg, st, a);
  }

  lemma WritesOfTwo(cfg: Config, a: Arrival, b: Arrival)
    ensures var o := Handle(cfg, START.st, a);
      Exec(cfg, START, [Arrive(a), Arrive(b)]).writes == ToSeq(o.write) + ToSeq(Handle(cfg, o.st, b).write)
  {
    hide Handle;
    var e, f := Arrive(a), Arrive(b);
    assert [e, f][1..] == [f] && [f][1..] == [];
    assert Exec(cfg, Advance(cfg, START, e), [f]) == Exec(cfg, Advance(cfg, Advance(cfg, START, e), f), []);
    assert START.writes + ToSeq(Handle(cfg, START.st, a).write) == ToSeq(Handle(cfg, START.st, a).write);
  }

  /**
   * The race exists: a trusted peer claims h, then sends a headerless datagram that meets the
   * expiry, and the upstream gets a frame with the peer's own socket address on the same socket.
   */
  lemma SocketHeaderAfterClaim(cfg: Config, h: Header, first: seq<byte>, second: seq<byte>, peer: Peer, now: int)
    requires Setting(cfg, h, second, peer)
    ensures var socket := HeaderFromAddrs(peer, cfg.local);
      && FormatDatagram(cfg.coerce, socket, second).Some?
      && Exec(cfg, START, ClaimThenBare(h, first, second, peer, now)).writes ==
         [Write(0, Frame(h, [], first)), Write(0, FormatDatagram(cfg.coerce, socket, second).value)]
  {
    SettingMeans(cfg, h, second, peer);
    hide Setting, Handle, Frame, AddrBlock, KeyOf, HeaderFromAddrs, ParseDatagram, Exec;
    hide Consistent, FormatDatagram, IsV4;
    var a := ClaimArrival(h, first, peer, now);
    ClaimSent(cfg, h, first, second, peer, now);
    WritesOfTwo(cfg, a, BareArrival(second, peer, now));
    BareAfterClearing(cfg, Handle(cfg, START.st, a).st, h, second, peer, now);
  }
}
