/**
 * internal/udp: the datagram pipeline as a transducer. One handler runs at a time (the
 * Serve loop); sessions expire step by step at any moment, in between or in the middle of a
 * datagram.
 */
module UdpFlow {
  import opened Basics
  import opened Net
  import opened ProxyProto
  import opened Trust
  import opened Deciding
  import opened Datagram
  import opened SessionKey

  // ---------------------------------------------------------------- data

  datatype OutputMode = EveryDatagram | FirstDatagram

  datatype Config = Config(
    policy: Policy,
    trust: TrustChecker,
    untrusted: UntrustedAction,
    mode: OutputMode,
    maxSessions: int,
    maxDatagram: int,
    idle: int,
    local: Peer,
    coerce: Coercion)

  // inputSource and inputSrcKind.
  datatype Stored = Stored(hdr: Header, src: Source)

  // How far expire() has run: not at all, done closed, stored source cleared, socket closed.
  type Phase = p: nat | p <= 3
  const ALIVE: Phase := 0
  const DONE: Phase := 1
  const CLEARED: Phase := 2
  const CLOSED: Phase := 3

  // id names the incarnation and its upstream socket.
  datatype Session = Session(id: nat, phase: Phase, input: Option<Stored>, headerSent: bool, deadline: int)

  datatype State = State(sessions: map<Key, Session>, count: int, next: nat)

  // How far the expire() of the session in use has run, at the latest, by five points of one
  // datagram: the load of the stored source, the check after Create, the store, the write, and
  // the refresh of the timer.
  datatype Hit = Hit(recover: Phase, create: Phase, store: Phase, write: Phase, refresh: Phase)
  const NO_HIT: Hit := Hit(ALIVE, ALIVE, ALIVE, ALIVE, ALIVE)

  datatype Arrival = Arrival(data: seq<byte>, peer: Peer, now: int, dialOk: bool, hit: Hit)

  datatype Event =
    | Arrive(a: Arrival)
    | Respond(key: Key, now: int) // the reader forwards one upstream datagram
    | Expire(key: Key, to: Phase) // expire() runs up to this phase
    | ExpireDelete(key: Key)      // sessions.Delete
    | ExpireSettle                // count.Add(-1)

  // A datagram that was accepted and given a session; claim is its own PROXY header. wiped: the
  // stored source was cleared before it was looked up. shut: the socket was closed before the
  // write. dead: the session was done when the datagram was.
  datatype Rec = Rec(id: nat, key: Key, peer: Peer, claim: Option<Header>, hdr: Header, src: Source,
                     payload: seq<byte>, wiped: bool, shut: bool, dead: bool)

  datatype Write = Write(id: nat, data: seq<byte>)

  datatype Outcome = Outcome(st: State, rec: Option<Rec>, write: Option<Write>)

  // ---------------------------------------------------------------- session state

  predicate Done(s: Session) {
    s.phase >= DONE
  }

  predicate Live(st: State, key: Key) {
    key in st.sessions && !Done(st.sessions[key])
  }

  /** Lets expire() run up to phase p, unless it has got there. What is stored later is not cleared. */
  function Raise(s: Session, p: Phase): Session {
    if p <= s.phase then s
    else s.(phase := p, input := if s.phase < CLEARED <= p then None else s.input)
  }

  function Put(st: State, key: Key, s: Session): State {
    st.(sessions := st.sessions[key := s])
  }

  function Strike(st: State, key: Key, p: Phase): State {
    if key in st.sessions then Put(st, key, Raise(st.sessions[key], p)) else st
  }

  function Delete(st: State, key: Key): State {
    if key in st.sessions && st.sessions[key].phase == CLOSED then st.(sessions := st.sessions - {key}) else st
  }

  function Settle(st: State): State {
    if st.count > |st.sessions| then st.(count := st.count - 1) else st
  }

  function Refresh(cfg: Config, st: State, key: Key, now: int): State {
    if Live(st, key) then Put(st, key, st.sessions[key].(deadline := now + cfg.idle)) else st
  }

  predicate AtCapacity(cfg: Config, st: State) {
    cfg.maxSessions > 0 && st.count >= cfg.maxSessions
  }

  function Insert(cfg: Config, st: State, key: Key, now: int): State {
    State(st.sessions[key := Session(st.next, ALIVE, None, false, now + cfg.idle)], st.count + 1, st.next + 1)
  }

  // cloneHeader: an address of length zero becomes nil.
  function CloneIP(ip: IP): IP { if Raw(ip) == [] then NilIP else ip }
  function CloneHeader(h: Header): Header {
    h.(srcIP := CloneIP(h.srcIP), dstIP := CloneIP(h.dstIP))
  }

  // ---------------------------------------------------------------- handleDatagram

  predicate Oversized(cfg: Config, a: Arrival) {
    cfg.maxDatagram > 0 && |a.data| > cfg.maxDatagram
  }

  // Steps 2 and 3: the state and the header and source that Decide is asked about.
  function Looked(st: State, a: Arrival): State {
    if Live(st, KeyOf(a.peer)) then Strike(st, KeyOf(a.peer), a.hit.recover) else st
  }

  function Recovered(st: State, a: Arrival): Stored
    requires ParseDatagram(a.data).Parsed?
  {
    var p, key := ParseDatagram(a.data), KeyOf(a.peer);
    if Live(st, key) && p.src == Direct && Looked(st, a).sessions[key].input.Some? then
      Looked(st, a).sessions[key].input.value
    else Stored(p.hdr, p.src)
  }

  // Step 4.
  function Verdict(cfg: Config, st: State, a: Arrival): Decision
    requires ParseDatagram(a.data).Parsed?
  {
    var r := Recovered(st, a);
    Decide(cfg.policy, cfg.trust, cfg.untrusted, r.src, r.hdr, RemoteIP(a.peer), a.peer, cfg.local)
  }

  // Step 6 without a live session: no slot, no socket, or an entry that is being deleted.
  predicate NoSession(cfg: Config, st: State, a: Arrival) {
    var key := KeyOf(a.peer);
    !Live(st, key) && (!a.dialOk || AtCapacity(cfg, st) || key in st.sessions)
  }

  function Handle(cfg: Config, st: State, a: Arrival): Outcome {
    var p, key := ParseDatagram(a.data), KeyOf(a.peer);
    if Oversized(cfg, a) || p.Malformed? then Outcome(st, None, None)
    else
      var d, st1 := Verdict(cfg, st, a), Looked(st, a);
      if !d.allow || NoSession(cfg, st, a) then Outcome(st1, None, None)
      else if Live(st, key) then Forward(cfg, st1, a, d, p)
      else
        var st2 := Strike(Insert(cfg, st1, key, a.now), key, a.hit.create);
        if Done(st2.sessions[key]) then Outcome(st2, None, None)
        else Forward(cfg, st2, a, d, p)
  }

  // Steps 7 to 10, on the session s.
  function Forward(cfg: Config, st: State, a: Arrival, d: Decision, p: ParseResult): Outcome
    requires KeyOf(a.peer) in st.sessions && p.Parsed?
  {
    var key := KeyOf(a.peer);
    var s := st.sessions[key];
    Outcome(Put(st, key, Served(cfg, s, a, d, p)), Some(RecordFor(cfg, s, a, d, p)), Sending(cfg, s, a, d, p))
  }

  // The session when its socket is written to: its source stored, its header flag set.
  function Prepared(cfg: Config, s: Session, a: Arrival, d: Decision): Session {
    var t := Raise(s, a.hit.store);
    var input := if d.src != Direct && t.input.None? then Some(Stored(CloneHeader(d.hdr), d.src)) else t.input;
    Raise(t.(input := input, headerSent := t.headerSent || cfg.mode.FirstDatagram?), a.hit.write)
  }

  function Served(cfg: Config, s: Session, a: Arrival, d: Decision, p: ParseResult): Session
    requires p.Parsed?
  {
    var t := Raise(Prepared(cfg, s, a, d), a.hit.refresh);
    if Done(t) || Encode(cfg, s.headerSent, d.hdr, p.payload).None? then t else t.(deadline := a.now + cfg.idle)
  }

  function RecordFor(cfg: Config, s: Session, a: Arrival, d: Decision, p: ParseResult): Rec
    requires p.Parsed?
  {
    var claim := if p.src == Direct then None else Some(p.hdr);
    Rec(s.id, KeyOf(a.peer), a.peer, claim, d.hdr, d.src, p.payload,
        s.phase >= CLEARED, Prepared(cfg, s, a, d).phase == CLOSED, Done(Served(cfg, s, a, d, p)))
  }

  // A done session still writes while its socket is open; a write to a closed one fails.
  function Sending(cfg: Config, s: Session, a: Arrival, d: Decision, p: ParseResult): Option<Write>
    requires p.Parsed?
  {
    if Prepared(cfg, s, a, d).phase == CLOSED then None
    else
      match Encode(cfg, s.headerSent, d.hdr, p.payload)
      case Some(b) => Some(Write(s.id, b))
      case None => None
  }

  function Encode(cfg: Config, headerSent: bool, hdr: Header, payload: seq<byte>): Option<seq<byte>> {
    if cfg.mode.FirstDatagram? && headerSent then Some(payload) else FormatDatagram(cfg.coerce, hdr, payload)
  }

  // ---------------------------------------------------------------- runs

  function Step(cfg: Config, st: State, e: Event): Outcome {
    match e
    case Arrive(a) => Handle(cfg, st, a)
    case Respond(key, now) => Outcome(Refresh(cfg, st, key, now), None, None)
    case Expire(key, p) => Outcome(Strike(st, key, p), None, None)
    case ExpireDelete(key) => Outcome(Delete(st, key), None, None)
    case ExpireSettle => Outcome(Settle(st), None, None)
  }

  // A state together with everything that led to it.
  datatype Run = Run(st: State, recs: seq<Rec>, writes: seq<Write>)

  const START: Run := Run(State(map[], 0, 0), [], [])

  function ToSeq<T>(o: Option<T>): seq<T> {
    if o.Some? then [o.value] else []
  }

  function Advance(cfg: Config, r: Run, e: Event): Run {
    var o := Step(cfg, r.st, e);
    Run(o.st, r.recs + ToSeq(o.rec), r.writes + ToSeq(o.write))
  }

  function Exec(cfg: Config, r: Run, evs: seq<Event>): Run
    decreases |evs|
  {
    if evs == [] then r else Exec(cfg, Advance(cfg, r, evs[0]), evs[1..])
  }

  // ReadFromUDP yields peers with a 4- or 16-byte address.
  predicate Sound(evs: seq<Event>) {
    forall i :: 0 <= i < |evs| && evs[i].Arrive? ==> IsValid(evs[i].a.peer.ip)
  }
}
