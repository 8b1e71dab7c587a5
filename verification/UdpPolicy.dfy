/** Trust and policy of the UDP gateway over whole runs. */
module UdpPolicy {
  import opened Basics
  import opened Net
  import opened ProxyProto
  import opened Trust
  import opened Deciding
  import opened Datagram
  import opened SessionKey
  import opened UdpFlow
  import opened UdpHistory

  // ---------------------------------------------------------------- what sessions may hold

  /** No session, live or expired, holds a source that an untrusted peer could have planted. */
  ghost predicate TrustedInputs(cfg: Config, st: State) {
    forall k :: k in st.sessions && st.sessions[k].input.Some? ==> Trusts(cfg.trust, Addr(k.ip))
  }

  /** Under `require` every live session has a stored source; under `reject` none ever does. */
  ghost predicate PolicyHolds(cfg: Config, st: State) {
    && (cfg.policy == Require ==> forall k :: Live(st, k) ==> st.sessions[k].input.Some?)
    && (cfg.policy == Reject ==> forall k :: k in st.sessions ==> st.sessions[k].input.None?)
  }

  lemma ForwardKeepsPolicy(cfg: Config, st: State, a: Arrival, d: Decision)
    requires KeyOf(a.peer) in st.sessions && ParseDatagram(a.data).Parsed? && IsValid(a.peer.ip)
    requires TrustedInputs(cfg, st)
    requires cfg.policy == Require ==> forall k :: Live(st, k) && k != KeyOf(a.peer) ==> st.sessions[k].input.Some?
    requires cfg.policy == Reject ==> forall k :: k in st.sessions ==> st.sessions[k].input.None?
    requires d.src != Direct ==> Trusts(cfg.trust, a.peer.ip) && cfg.policy != Reject
    requires d.src == Direct ==> cfg.policy != Require
    ensures var st' := Forward(cfg, st, a, d, ParseDatagram(a.data)).st;
      TrustedInputs(cfg, st') && PolicyHolds(cfg, st')
  {
    KeyTrust(cfg.trust, a.peer);
    ServedInput(cfg, st.sessions[KeyOf(a.peer)], a, d, ParseDatagram(a.data));
    hide Served, ParseDatagram;
  }

  /** Nothing but a claim that Decide let through gets stored, and a live session stores it. */
  lemma ServedInput(cfg: Config, s: Session, a: Arrival, d: Decision, p: ParseResult)
    requires p.Parsed?
    ensures var t := Served(cfg, s, a, d, p);
      && (t.input.Some? ==> s.input.Some? || d.src != Direct)
      && (!Done(t) ==> !Done(s) && (t.input.Some? <==> s.input.Some? || d.src != Direct))
  {
    hide Encode, CloneHeader;
  }

  lemma ForwardedKeepsPolicy(cfg: Config, st: State, a: Arrival)
    requires TrustedInputs(cfg, st) && PolicyHolds(cfg, st) && IsValid(a.peer.ip) && Forwards(cfg, st, a)
    ensures var st' := Handle(cfg, st, a).st; TrustedInputs(cfg, st') && PolicyHolds(cfg, st')
  {
    hide ParseDatagram, KeyOf;
    var d, st' := Verdict(cfg, st, a), Entered(cfg, st, a);
    var r := Recovered(st, a);
    DecideExact(cfg.policy, cfg.trust, cfg.untrusted, r.src, r.hdr, a.peer.ip, a.peer, cfg.local);
    HandleForwards(cfg, st, a);
    hide Handle, Decide;
    ForwardKeepsPolicy(cfg, st', a, d);
  }

  lemma DroppedKeepsPolicy(cfg: Config, st: State, a: Arrival)
    requires TrustedInputs(cfg, st) && PolicyHolds(cfg, st) && !Forwards(cfg, st, a)
    ensures var st' := Handle(cfg, st, a).st; TrustedInputs(cfg, st') && PolicyHolds(cfg, st')
  {
    DropShape(cfg, st, a);
    hide Handle, Forwards, KeyOf;
  }

  lemma StepKeepsPolicy(cfg: Config, st: State, e: Event)
    requires TrustedInputs(cfg, st) && PolicyHolds(cfg, st) && (e.Arrive? ==> IsValid(e.a.peer.ip))
    ensures var st' := Step(cfg, st, e).st; TrustedInputs(cfg, st') && PolicyHolds(cfg, st')
  {
    if e.Arrive? {
      hide Handle, TrustedInputs, PolicyHolds;
      if Forwards(cfg, st, e.a) {
        ForwardedKeepsPolicy(cfg, st, e.a);
      } else {
        DroppedKeepsPolicy(cfg, st, e.a);
      }
    }
  }

  lemma {:induction false} PolicyOverRuns(cfg: Config, r: Run, evs: seq<Event>)
    requires TrustedInputs(cfg, r.st) && PolicyHolds(cfg, r.st) && Sound(evs)
    ensures var st' := Exec(cfg, r, evs).st; TrustedInputs(cfg, st') && PolicyHolds(cfg, st')
    decreases |evs|
  {
    if evs == [] {
    } else {
      StepKeepsPolicy(cfg, r.st, evs[0]);
      PolicyOverRuns(cfg, Advance(cfg, r, evs[0]), evs[1..]);
    }
  }

  /**
   * Under `require` a headerless datagram of a live session is accepted, under its stored
   * source, if and only if that source is not cleared before it is looked up.
   */
  lemma HeaderlessAccepted(cfg: Config, st: State, a: Arrival)
    requires cfg.policy == Require && IsValid(a.peer.ip) && Live(st, KeyOf(a.peer))
    requires st.sessions[KeyOf(a.peer)].input.Some? && st.sessions[KeyOf(a.peer)].input.value.src == V2
    requires Trusts(cfg.trust, a.peer.ip) && !Oversized(cfg, a)
    requires ParseDatagram(a.data) == Parsed(ZERO_HEADER, a.data, Direct)
    ensures var o := Handle(cfg, st, a);
      && (o.rec.Some? <==> a.hit.recover < CLEARED)
      && (o.rec.Some? ==> o.rec.value.hdr == st.sessions[KeyOf(a.peer)].input.value.hdr)
  {
    hide ParseDatagram;
    var r := Recovered(st, a);
    DecideExact(cfg.policy, cfg.trust, cfg.untrusted, r.src, r.hdr, a.peer.ip, a.peer, cfg.local);
    if a.hit.recover < CLEARED {
      assert Forwards(cfg, st, a);
      HandleForwards(cfg, st, a);
    } else {
      DropShape(cfg, st, a);
    }
  }

  /**
   * In every run from the start: a peer outside the trusted networks never has a stored
   * source; under `reject` nobody has; under `require` the next headerless datagram of a live
   * session, if not oversized, is accepted under the source stored for it, exactly if that is
   * not cleared while the datagram waits to look it up.
   */
  lemma PolicyFromStart(cfg: Config, evs: seq<Event>, a: Arrival)
    requires Sound(evs) && IsValid(a.peer.ip)
    ensures var st, key := Exec(cfg, START, evs).st, KeyOf(a.peer);
      && (key in st.sessions && st.sessions[key].input.Some? ==> Trusts(cfg.trust, a.peer.ip) && cfg.policy != Reject)
      && (cfg.policy == Require && Live(st, key) && !Oversized(cfg, a)
          && ParseDatagram(a.data) == Parsed(ZERO_HEADER, a.data, Direct)
          ==> st.sessions[key].input.Some?
              && var rec := Handle(cfg, st, a).rec;
                 && (rec.Some? <==> a.hit.recover < CLEARED)
                 && (rec.Some? ==> rec.value.hdr == st.sessions[key].input.value.hdr))
  {
    PolicyOverRuns(cfg, START, evs);
    StartExplained(cfg);
    StateRefinesHistory(cfg, START, evs);
    KeyTrust(cfg.trust, a.peer);
    hide Exec, Handle, ParseDatagram;
    var st, key := Exec(cfg, START, evs).st, KeyOf(a.peer);
    if cfg.policy == Require && Live(st, key) && !Oversized(cfg, a)
       && ParseDatagram(a.data) == Parsed(ZERO_HEADER, a.data, Direct)
    {
      assert SessionExplained(cfg, Exec(cfg, START, evs).recs, key, st.sessions[key]);
      HeaderlessAccepted(cfg, st, a);
    }
  }

  // ---------------------------------------------------------------- non-interference

  /** The same events, except for what untrusted peers claim inside their PROXY headers. */
  ghost predicate SameButClaims(cfg: Config, e: Event, f: Event) {
    || e == f
    || (&& e.Arrive? && f.Arrive? && f.a == e.a.(data := f.a.data)
        && !Trusts(cfg.trust, e.a.peer.ip) && SameButClaim(e.a.data, f.a.data))
  }

  function Unclaimed(r: Rec): Rec { r.(claim := None) }

  ghost predicate SameRecs(rs: seq<Rec>, qs: seq<Rec>) {
    |rs| == |qs| && forall i :: 0 <= i < |rs| ==> Unclaimed(rs[i]) == Unclaimed(qs[i])
  }

  lemma VerdictIgnoresClaims(cfg: Config, st: State, a: Arrival, data: seq<byte>)
    requires !Trusts(cfg.trust, a.peer.ip) && SameButClaim(a.data, data) && ParseDatagram(a.data).Parsed?
    ensures ParseDatagram(data).Parsed?
    ensures var d, e := Verdict(cfg, st, a), Verdict(cfg, st, a.(data := data));
      d.allow == e.allow && (d.allow ==> d == e)
  {
    ClaimOnlyChangesHeader(a.data, data);
    var p := ParseDatagram(a.data);
    if p.src == V2 {
      var other := ParseDatagram(data).hdr;
      ClaimsUnread(cfg.policy, cfg.trust, cfg.untrusted, V2, p.hdr, other, a.peer.ip, a.peer, cfg.local);
    }
  }

  lemma ForwardIgnoresClaims(cfg: Config, st: State, a: Arrival, data: seq<byte>, d: Decision)
    requires KeyOf(a.peer) in st.sessions && ParseDatagram(a.data).Parsed? && SameButClaim(a.data, data)
    ensures ParseDatagram(data).Parsed?
    ensures var o := Forward(cfg, st, a, d, ParseDatagram(a.data));
      var q := Forward(cfg, st, a.(data := data), d, ParseDatagram(data));
      && o.st == q.st && o.write == q.write
      && o.rec.Some? && q.rec.Some? && Unclaimed(o.rec.value) == Unclaimed(q.rec.value)
  {
    ClaimOnlyChangesHeader(a.data, data);
    hide ParseDatagram, SameButClaim, KeyOf, Raise, Encode, CloneHeader;
  }

  lemma HandleIgnoresClaims(cfg: Config, st: State, a: Arrival, data: seq<byte>)
    requires !Trusts(cfg.trust, a.peer.ip) && SameButClaim(a.data, data)
    ensures var o, q := Handle(cfg, st, a), Handle(cfg, st, a.(data := data));
      && o.st == q.st && o.write == q.write
      && o.rec.Some? == q.rec.Some? && (o.rec.Some? ==> Unclaimed(o.rec.value) == Unclaimed(q.rec.value))
  {
    var b := a.(data := data);
    ClaimOnlyChangesHeader(a.data, data);
    if ParseDatagram(a.data).Parsed? {
      VerdictIgnoresClaims(cfg, st, a, data);
      if Forwards(cfg, st, a) {
        var d, st' := Verdict(cfg, st, a), Entered(cfg, st, a);
        HandleForwards(cfg, st, a);
        HandleForwards(cfg, st, b);
        ForwardIgnoresClaims(cfg, st', a, data, d);
      }
    }
  }

  /**
   * Two runs that differ only in the addresses claimed by peers outside the trusted networks
   * accept and drop the same datagrams, hold the same sessions and make the same writes.
   */
  lemma {:induction false} UntrustedClaimsDoNotInterfere(cfg: Config, r: Run, q: Run, evs: seq<Event>, fvs: seq<Event>)
    requires r.st == q.st && r.writes == q.writes && SameRecs(r.recs, q.recs)
    requires |evs| == |fvs| && forall i :: 0 <= i < |evs| ==> SameButClaims(cfg, evs[i], fvs[i])
    ensures var r', q' := Exec(cfg, r, evs), Exec(cfg, q, fvs);
      r'.st == q'.st && r'.writes == q'.writes && SameRecs(r'.recs, q'.recs)
    decreases |evs|
  {
    if evs == [] {
    } else {
      var e, f := evs[0], fvs[0];
      assert SameButClaims(cfg, e, f);
      if e != f {
        HandleIgnoresClaims(cfg, r.st, e.a, f.a.data);
      }
      UntrustedClaimsDoNotInterfere(cfg, Advance(cfg, r, e), Advance(cfg, q, f), evs[1..], fvs[1..]);
    }
  }
}
