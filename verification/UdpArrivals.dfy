/** The records of a run are its accepted datagrams, read off the events alone. */
module UdpArrivals {
  import opened Basics
  import opened ProxyProto
  import opened Deciding
  import opened Datagram
  import opened SessionKey
  import opened UdpFlow
  import opened UdpHistory

  // A datagram that is accepted and given a session: the incarnation that took it, the header
  // and source that Decide settled on, and how far the expiry of that session had come by the
  // lookup of the stored source, by the write, and by the end.
  datatype Accepted = Accepted(id: nat, a: Arrival, hdr: Header, src: Source, wiped: bool, shut: bool, dead: bool)

  function Max(p: Phase, q: Phase): Phase {
    if p < q then q else p
  }

  // The phase that the session in use reaches by the write, and by the end of the datagram.
  function PhaseAtWrite(st: State, a: Arrival): Phase {
    Max(Max(if Live(st, KeyOf(a.peer)) then a.hit.recover else a.hit.create, a.hit.store), a.hit.write)
  }

  function PhaseAtEnd(st: State, a: Arrival): Phase {
    Max(PhaseAtWrite(st, a), a.hit.refresh)
  }

  function PayloadOf(x: Accepted): seq<byte>
    requires ParseDatagram(x.a.data).Parsed?
  {
    ParseDatagram(x.a.data).payload
  }

  predicate AllParsed(hs: seq<Accepted>) {
    forall i :: 0 <= i < |hs| ==> ParseDatagram(hs[i].a.data).Parsed?
  }

  function AcceptedAt(st: State, a: Arrival, d: Decision): Accepted {
    Accepted(NextId(st, KeyOf(a.peer)), a, d.hdr, d.src,
             Wiped(st, a), PhaseAtWrite(st, a) == CLOSED, PhaseAtEnd(st, a) >= DONE)
  }

  /** The datagrams among the events that are accepted and given a session, in order. */
  function Handled(cfg: Config, st: State, evs: seq<Event>): (hs: seq<Accepted>)
    ensures AllParsed(hs)
    decreases |evs|
  {
    if evs == [] then []
    else
      var e, rest := evs[0], Handled(cfg, Step(cfg, st, evs[0]).st, evs[1..]);
      if e.Arrive? && Forwards(cfg, st, e.a) then
        var d := Verdict(cfg, st, e.a);
        [AcceptedAt(st, e.a, d)] + rest
      else rest
  }

  function RecordOf(x: Accepted): Rec
    requires ParseDatagram(x.a.data).Parsed?
  {
    var p := ParseDatagram(x.a.data);
    Rec(x.id, KeyOf(x.a.peer), x.a.peer, if p.src == Direct then None else Some(p.hdr), x.hdr, x.src,
        p.payload, x.wiped, x.shut, x.dead)
  }

  function Records(hs: seq<Accepted>): (rs: seq<Rec>)
    requires AllParsed(hs)
    ensures |rs| == |hs| && forall i :: 0 <= i < |hs| ==> rs[i] == RecordOf(hs[i])
  {
    seq(|hs|, i requires 0 <= i < |hs| => RecordOf(hs[i]))
  }

  lemma PhasesOfServed(cfg: Config, s: Session, a: Arrival, d: Decision, p: ParseResult)
    requires p.Parsed?
    ensures Prepared(cfg, s, a, d).phase == Max(Max(s.phase, a.hit.store), a.hit.write)
    ensures Served(cfg, s, a, d, p).phase == Max(Prepared(cfg, s, a, d).phase, a.hit.refresh)
  {
    hide Encode, CloneHeader;
  }

  lemma EnteredPhase(cfg: Config, st: State, a: Arrival)
    requires Forwards(cfg, st, a)
    ensures KeyOf(a.peer) in Entered(cfg, st, a).sessions
    ensures var s, live := Entered(cfg, st, a).sessions[KeyOf(a.peer)], Live(st, KeyOf(a.peer));
      && s.id == NextId(st, KeyOf(a.peer))
      && s.phase == (if live then a.hit.recover else a.hit.create)
      && (s.phase >= CLEARED <==> Wiped(st, a))
  {
    hide ParseDatagram, Verdict;
  }

  lemma StepRecord(cfg: Config, st: State, a: Arrival)
    requires Forwards(cfg, st, a)
    ensures Handle(cfg, st, a).rec == Some(RecordOf(AcceptedAt(st, a, Verdict(cfg, st, a))))
  {
    HandleForwards(cfg, st, a);
    EnteredPhase(cfg, st, a);
    var s, d, p := Entered(cfg, st, a).sessions[KeyOf(a.peer)], Verdict(cfg, st, a), ParseDatagram(a.data);
    PhasesOfServed(cfg, s, a, d, p);
    hide ParseDatagram, Verdict, Handle, Entered, Served, Prepared, Forwards, Sending;
  }

  /**
   * A run adds one record for each datagram that was accepted and given a session, in order,
   * with its own peer, key, claim and payload; and no others.
   */
  lemma {:induction false} RecordsAreArrivals(cfg: Config, r: Run, evs: seq<Event>)
    ensures Exec(cfg, r, evs).recs == r.recs + Records(Handled(cfg, r.st, evs))
    decreases |evs|
  {
    hide Handle, Forwards, Verdict, ParseDatagram, AcceptedAt;
    if evs == [] {
      assert r.recs + Records([]) == r.recs;
    } else {
      var e := evs[0];
      RecordsAreArrivals(cfg, Advance(cfg, r, e), evs[1..]);
      if e.Arrive? && Forwards(cfg, r.st, e.a) {
        StepRecord(cfg, r.st, e.a);
      } else if e.Arrive? {
        DropShape(cfg, r.st, e.a);
      }
    }
  }

  // ---------------------------------------------------------------- one incarnation

  /** The accepted datagrams of incarnation id that found its socket open. */
  function Of(hs: seq<Accepted>, id: nat): (fs: seq<Accepted>)
    requires AllParsed(hs)
    ensures AllParsed(fs)
  {
    if hs == [] then []
    else Of(Init(hs), id) + (if Last(hs).id == id && !Last(hs).shut then [Last(hs)] else [])
  }

  /** The accepted datagrams that found the socket of incarnation id open, in a run from the start. */
  function Flow(cfg: Config, evs: seq<Event>, id: nat): (fs: seq<Accepted>)
    ensures AllParsed(fs)
  {
    Of(Handled(cfg, START.st, evs), id)
  }

  /** The header and the payload that the upstream is meant to get. */
  function Meant(fs: seq<Accepted>): seq<(Header, seq<byte>)>
    requires AllParsed(fs)
  {
    seq(|fs|, i requires 0 <= i < |fs| => (Canon(fs[i].hdr), PayloadOf(fs[i])))
  }

  function Payloads(fs: seq<Accepted>): (ps: seq<seq<byte>>)
    requires AllParsed(fs)
    ensures |ps| == |fs| && forall i :: 0 <= i < |fs| ==> ps[i] == PayloadOf(fs[i])
  {
    seq(|fs|, i requires 0 <= i < |fs| => PayloadOf(fs[i]))
  }

  predicate AllConsistent(fs: seq<Accepted>) {
    forall i :: 0 <= i < |fs| ==> Consistent(fs[i].hdr)
  }
}
