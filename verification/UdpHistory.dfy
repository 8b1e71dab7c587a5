/** The stored state of the UDP gateway is a function of its history. */
module UdpHistory {
  import opened Basics
  import opened Net
  import opened ProxyProto
  import opened Trust
  import opened Deciding
  import opened Datagram
  import opened SessionKey
  import opened UdpFlow

  // ---------------------------------------------------------------- reading the history

  function Init<T>(s: seq<T>): seq<T>
    requires s != []
  {
    s[..|s| - 1]
  }

  function Last<T>(s: seq<T>): T
    requires s != []
  {
    s[|s| - 1]
  }

  lemma Snoc<T>(s: seq<T>, x: T)
    ensures Init(s + [x]) == s && Last(s + [x]) == x
  {}

  // An accepted PROXY datagram of incarnation id that was not stripped.
  predicate Claims(r: Rec, id: nat) {
    r.id == id && r.claim.Some? && r.src != Direct
  }

  /** The header of the first PROXY datagram accepted in incarnation id. */
  function FirstClaim(recs: seq<Rec>, id: nat): Option<Header> {
    if recs == [] then None
    else
      var earlier := FirstClaim(Init(recs), id);
      if earlier.Some? then earlier
      else if Claims(Last(recs), id) then Last(recs).claim
      else None
  }

  predicate Used(recs: seq<Rec>, id: nat) {
    exists i :: 0 <= i < |recs| && recs[i].id == id
  }

  /** FirstClaim is what it says: the claim at the least index that has one. */
  lemma {:induction false} FirstClaimIsFirst(recs: seq<Rec>, id: nat)
    ensures FirstClaim(recs, id).None? <==> forall i :: 0 <= i < |recs| ==> !Claims(recs[i], id)
    ensures FirstClaim(recs, id).Some? ==>
      exists i :: 0 <= i < |recs| && Claims(recs[i], id) && FirstClaim(recs, id) == recs[i].claim
                  && forall j :: 0 <= j < i ==> !Claims(recs[j], id)
  {
    if recs == [] {
    } else {
      FirstClaimIsFirst(Init(recs), id);
      forall i | 0 <= i < |recs| - 1 ensures recs[i] == Init(recs)[i] {}
    }
  }

  // ---------------------------------------------------------------- what the state means

  function AsStored(claim: Option<Header>): Option<Stored> {
    if claim.Some? then Some(Stored(claim.value, V2)) else None
  }

  /** A live session is a cache of the records of its incarnation. */
  ghost predicate Cached(cfg: Config, recs: seq<Rec>, k: Key, id: nat, input: Option<Stored>, sent: bool) {
    && input == AsStored(FirstClaim(recs, id))
    && (FirstClaim(recs, id).Some? ==> Trusts(cfg.trust, Addr(k.ip)))
    && (sent <==> cfg.mode.FirstDatagram? && Used(recs, id))
    && (forall i :: 0 <= i < |recs| && recs[i].id == id ==> recs[i].key == k && !recs[i].dead)
  }

  ghost predicate SessionExplained(cfg: Config, recs: seq<Rec>, k: Key, s: Session) {
    Cached(cfg, recs, k, s.id, s.input, s.headerSent)
  }

  ghost predicate Explained(cfg: Config, st: State, recs: seq<Rec>) {
    && |st.sessions| <= st.count
    && (forall k :: k in st.sessions ==> st.sessions[k].id < st.next)
    && (forall k, l :: k in st.sessions && l in st.sessions && st.sessions[k].id == st.sessions[l].id ==> k == l)
    && (forall i :: 0 <= i < |recs| ==> recs[i].id < st.next)
    && (forall k :: k in st.sessions && !Done(st.sessions[k]) ==> SessionExplained(cfg, recs, k, st.sessions[k]))
  }

  /**
   * The header that history dictates for a datagram: its own if vouched for; the first one, if
   * that was still stored when it was looked up; or the socket's.
   */
  function DueHeader(cfg: Config, before: seq<Rec>, r: Rec): Stored {
    var first := FirstClaim(before, r.id);
    if r.claim.Some? && Trusts(cfg.trust, r.peer.ip) then Stored(r.claim.value, V2)
    else if r.claim.None? && !r.wiped && first.Some? then Stored(first.value, V2)
    else Stored(HeaderFromAddrs(r.peer, cfg.local), Direct)
  }

  ghost predicate RecExplained(cfg: Config, before: seq<Rec>, r: Rec) {
    && Stored(r.hdr, r.src) == DueHeader(cfg, before, r)
    && r.key == KeyOf(r.peer) && IsValid(r.peer.ip)
    && (r.wiped || r.shut ==> r.dead)
    && cfg.policy != (if r.src == Direct then Require else Reject)
    && forall i :: 0 <= i < |before| && before[i].id == r.id ==> before[i].key == r.key && !before[i].dead
  }

  // The incarnation that will handle the next datagram from this key.
  function NextId(st: State, key: Key): nat {
    if Live(st, key) then st.sessions[key].id else st.next
  }

  lemma {:induction false} UnusedHasNoClaim(recs: seq<Rec>, id: nat)
    requires !Used(recs, id)
    ensures FirstClaim(recs, id).None?
  {
    FirstClaimIsFirst(recs, id);
  }

  // The source that a datagram of st looks up has just been cleared.
  predicate Wiped(st: State, a: Arrival) {
    Live(st, KeyOf(a.peer)) && a.hit.recover >= CLEARED
  }

  // The record of a datagram that is forwarded; whether its session lasts is not decided yet.
  function RecOf(st: State, a: Arrival, d: Decision, shut: bool, dead: bool): Rec
    requires ParseDatagram(a.data).Parsed?
  {
    var p, key := ParseDatagram(a.data), KeyOf(a.peer);
    var claim := if p.src == Direct then None else Some(p.hdr);
    Rec(NextId(st, key), key, a.peer, claim, d.hdr, d.src, p.payload, Wiped(st, a), shut, dead)
  }

  lemma VerdictExplained(cfg: Config, st: State, recs: seq<Rec>, a: Arrival, shut: bool, dead: bool)
    requires Explained(cfg, st, recs) && IsValid(a.peer.ip)
    requires ParseDatagram(a.data).Parsed? && Verdict(cfg, st, a).allow
    requires Wiped(st, a) || shut ==> dead
    ensures RecExplained(cfg, recs, RecOf(st, a, Verdict(cfg, st, a), shut, dead))
  {
    var p, key, d := ParseDatagram(a.data), KeyOf(a.peer), Verdict(cfg, st, a);
    var r := Recovered(st, a);
    ClassifyExactly(a.data);
    DecideExact(cfg.policy, cfg.trust, cfg.untrusted, r.src, r.hdr, a.peer.ip, a.peer, cfg.local);
    KeyTrust(cfg.trust, a.peer);
    if !Live(st, key) {
      UnusedHasNoClaim(recs, st.next);
    }
  }

  // ---------------------------------------------------------------- what every step keeps

  /** Replacing a session by the same incarnation, finished or still explained. */
  lemma PutKeeps(cfg: Config, st: State, recs: seq<Rec>, key: Key, s: Session)
    requires Explained(cfg, st, recs) && key in st.sessions && s.id == st.sessions[key].id
    requires Done(s) || SessionExplained(cfg, recs, key, s)
    ensures Explained(cfg, Put(st, key, s), recs)
  {
    assert Put(st, key, s).sessions.Keys == st.sessions.Keys;
    assert |Put(st, key, s).sessions| == |st.sessions.Keys|;
  }

  lemma StrikeKeeps(cfg: Config, st: State, recs: seq<Rec>, key: Key, p: Phase)
    requires Explained(cfg, st, recs)
    ensures Explained(cfg, Strike(st, key, p), recs)
  {
    hide SessionExplained, Explained;
    if key in st.sessions {
      if !Done(Raise(st.sessions[key], p)) {
        LiveExplained(cfg, st, recs, key);
      }
      SameIdKeeps(cfg, st, recs, key, Raise(st.sessions[key], p));
    }
  }

  // Stated so that Explained need not be opened at the call.
  lemma SameIdKeeps(cfg: Config, st: State, recs: seq<Rec>, key: Key, s: Session)
    requires Explained(cfg, st, recs) && key in st.sessions && s.id == st.sessions[key].id
    requires Done(s) || SessionExplained(cfg, recs, key, s)
    ensures Explained(cfg, Put(st, key, s), recs)
  {
    hide SessionExplained;
    PutKeeps(cfg, st, recs, key, s);
  }

  lemma RefreshKeeps(cfg: Config, st: State, recs: seq<Rec>, key: Key, now: int)
    requires Explained(cfg, st, recs)
    ensures Explained(cfg, Refresh(cfg, st, key, now), recs)
  {
    hide Explained, SessionExplained;
    if Live(st, key) {
      LiveExplained(cfg, st, recs, key);
      DeadlineDoesNotMatter(cfg, recs, key, st.sessions[key], now + cfg.idle);
      PutKeeps(cfg, st, recs, key, st.sessions[key].(deadline := now + cfg.idle));
    }
  }

  lemma LiveExplained(cfg: Config, st: State, recs: seq<Rec>, key: Key)
    requires Explained(cfg, st, recs) && Live(st, key)
    ensures SessionExplained(cfg, recs, key, st.sessions[key])
  {
    hide SessionExplained;
  }

  lemma DeadlineDoesNotMatter(cfg: Config, recs: seq<Rec>, key: Key, s: Session, deadline: int)
    requires SessionExplained(cfg, recs, key, s)
    ensures SessionExplained(cfg, recs, key, s.(deadline := deadline))
  {
    hide Cached;
  }

  lemma DeleteKeeps(cfg: Config, st: State, recs: seq<Rec>, key: Key)
    requires Explained(cfg, st, recs)
    ensures Explained(cfg, Delete(st, key), recs)
  {
    if key in st.sessions {
      assert (st.sessions - {key}).Keys == st.sessions.Keys - {key};
      assert |st.sessions.Keys - {key}| <= |st.sessions.Keys|;
      assert |(st.sessions - {key}).Keys| == |st.sessions - {key}|;
    }
  }

  lemma SizeAfterInsert<K, V>(m: map<K, V>, k: K, v: V)
    requires k !in m
    ensures |m[k := v]| == |m| + 1
  {
    assert m[k := v].Keys == m.Keys + {k};
    assert |m[k := v]| == |m[k := v].Keys| && |m| == |m.Keys|;
  }

  lemma InsertKeeps(cfg: Config, st: State, recs: seq<Rec>, key: Key, now: int)
    requires Explained(cfg, st, recs) && key !in st.sessions
    ensures Explained(cfg, Insert(cfg, st, key, now), recs)
  {
    SizeAfterInsert(st.sessions, key, Session(st.next, ALIVE, None, false, now + cfg.idle));
    FreshExplained(cfg, st, recs, key, now);
  }

  lemma FreshExplained(cfg: Config, st: State, recs: seq<Rec>, key: Key, now: int)
    requires Explained(cfg, st, recs)
    ensures SessionExplained(cfg, recs, key, Session(st.next, ALIVE, None, false, now + cfg.idle))
  {
    UnusedHasNoClaim(recs, st.next);
  }

  /** Appending a record only concerns its own incarnation. */
  lemma RecKeepsOthers(cfg: Config, recs: seq<Rec>, r: Rec, k: Key, s: Session)
    requires SessionExplained(cfg, recs, k, s) && s.id != r.id
    ensures SessionExplained(cfg, recs + [r], k, s)
  {
    Snoc(recs, r);
    assert Used(recs + [r], s.id) <==> Used(recs, s.id) by {
      assert forall i :: 0 <= i < |recs| ==> (recs + [r])[i] == recs[i];
    }
  }

  lemma RecKeepsOwn(cfg: Config, recs: seq<Rec>, r: Rec, s: Session, s': Session)
    requires SessionExplained(cfg, recs, r.key, s) && s.id == s'.id == r.id && !r.dead
    requires RecExplained(cfg, recs, r)
    requires r.src != Direct ==> Trusts(cfg.trust, Addr(r.key.ip))
    requires s'.input == if r.src != Direct && s.input.None? then Some(Stored(r.hdr, r.src)) else s.input
    requires s'.headerSent == (s.headerSent || cfg.mode.FirstDatagram?)
    ensures SessionExplained(cfg, recs + [r], r.key, s')
  {
    Snoc(recs, r);
    assert (recs + [r])[|recs|] == r;
  }

  lemma AppendKeeps(cfg: Config, st: State, recs: seq<Rec>, r: Rec, s: Session)
    requires Explained(cfg, st, recs) && r.key in st.sessions
    requires s.id == r.id == st.sessions[r.key].id
    requires Done(s) || SessionExplained(cfg, recs + [r], r.key, s)
    ensures Explained(cfg, Put(st, r.key, s), recs + [r])
  {
    var st' := Put(st, r.key, s);
    assert st'.sessions.Keys == st.sessions.Keys;
    assert |st'.sessions| == |st.sessions.Keys|;
    forall k | k in st'.sessions && !Done(st'.sessions[k])
      ensures SessionExplained(cfg, recs + [r], k, st'.sessions[k])
    {
      if k != r.key {
        RecKeepsOthers(cfg, recs, r, k, st.sessions[k]);
      }
    }
  }

  lemma CloneOfParsed(d: seq<byte>)
    requires ParseDatagram(d).Parsed? && ParseDatagram(d).src == V2
    ensures CloneHeader(ParseDatagram(d).hdr) == ParseDatagram(d).hdr
  {
    ParseIsLossless(d);
  }

  /** Steps 7 to 10 never bring a session back, and a session that is still live was not struck. */
  lemma ServedShape(cfg: Config, s: Session, a: Arrival, d: Decision, p: ParseResult)
    requires p.Parsed?
    ensures var t, r := Served(cfg, s, a, d, p), RecordFor(cfg, s, a, d, p);
      && t.id == s.id == r.id && s.phase <= t.phase
      && r.dead == Done(t) && (r.wiped || r.shut ==> r.dead)
      && (!Done(t) ==>
            && t.input == (if d.src != Direct && s.input.None? then Some(Stored(CloneHeader(d.hdr), d.src))
                           else s.input)
            && t.headerSent == (s.headerSent || cfg.mode.FirstDatagram?))
  {
    hide Encode, CloneHeader;
  }

  /** Steps 7 to 10 keep the meaning of every session and emit an explained record. */
  lemma ForwardKeeps(cfg: Config, st: State, recs: seq<Rec>, a: Arrival, d: Decision)
    requires Explained(cfg, st, recs) && ParseDatagram(a.data).Parsed? && IsValid(a.peer.ip)
    requires KeyOf(a.peer) in st.sessions
    requires RecExplained(cfg, recs, RecordFor(cfg, st.sessions[KeyOf(a.peer)], a, d, ParseDatagram(a.data)))
    requires d.src != Direct ==> Trusts(cfg.trust, a.peer.ip)
    ensures var o := Forward(cfg, st, a, d, ParseDatagram(a.data));
      o.rec.Some? && Explained(cfg, o.st, recs + [o.rec.value])
  {
    var p, key := ParseDatagram(a.data), KeyOf(a.peer);
    var s := st.sessions[key];
    var t, rec := Served(cfg, s, a, d, p), RecordFor(cfg, s, a, d, p);
    ServedShape(cfg, s, a, d, p);
    ClassifyExactly(a.data);
    if p.src == V2 { CloneOfParsed(a.data); }
    KeyTrust(cfg.trust, a.peer);
    hide Served, Prepared, ParseDatagram, Explained;
    if !Done(t) {
      LiveExplained(cfg, st, recs, key);
      RecKeepsOwn(cfg, recs, rec, s, t);
    }
    hide SessionExplained;
    AppendKeeps(cfg, st, recs, rec, t);
  }

  /** What one record puts on its socket: nothing once closed, a bare payload after the first in first_datagram. */
  function Emitted(cfg: Config, before: seq<Rec>, r: Rec): Option<Write> {
    if r.shut then None
    else
      match Encode(cfg, Used(before, r.id), r.hdr, r.payload)
      case Some(b) => Some(Write(r.id, b))
      case None => None
  }

  // The header flag of the session that a datagram gets.
  lemma EnteredFlag(cfg: Config, st: State, recs: seq<Rec>, a: Arrival)
    requires Explained(cfg, st, recs) && !NoSession(cfg, st, a)
    ensures KeyOf(a.peer) in Entered(cfg, st, a).sessions
    ensures var s := Entered(cfg, st, a).sessions[KeyOf(a.peer)];
      s.headerSent <==> cfg.mode.FirstDatagram? && Used(recs, s.id)
  {
    if Live(st, KeyOf(a.peer)) {
      LiveExplained(cfg, st, recs, KeyOf(a.peer));
    }
  }

  lemma ForwardEmits(cfg: Config, st: State, recs: seq<Rec>, a: Arrival, d: Decision)
    requires ParseDatagram(a.data).Parsed? && KeyOf(a.peer) in st.sessions
    requires var s := st.sessions[KeyOf(a.peer)]; s.headerSent <==> cfg.mode.FirstDatagram? && Used(recs, s.id)
    ensures var o := Forward(cfg, st, a, d, ParseDatagram(a.data));
      o.rec.Some? && o.write == Emitted(cfg, recs, o.rec.value)
  {
    hide ParseDatagram, FormatDatagram;
  }

  // The datagram reaches step 7.
  predicate Forwards(cfg: Config, st: State, a: Arrival) {
    && !Oversized(cfg, a)
    && ParseDatagram(a.data).Parsed?
    && Verdict(cfg, st, a).allow
    && !NoSession(cfg, st, a)
    && (Live(st, KeyOf(a.peer)) || a.hit.create < DONE)
  }

  // The state after step 6.
  function Entered(cfg: Config, st: State, a: Arrival): State {
    if Live(st, KeyOf(a.peer)) then Looked(st, a)
    else Strike(Insert(cfg, st, KeyOf(a.peer), a.now), KeyOf(a.peer), a.hit.create)
  }

  lemma HandleForwards(cfg: Config, st: State, a: Arrival)
    requires Forwards(cfg, st, a)
    ensures KeyOf(a.peer) in Entered(cfg, st, a).sessions
    ensures Handle(cfg, st, a) == Forward(cfg, Entered(cfg, st, a), a, Verdict(cfg, st, a), ParseDatagram(a.data))
  {}

  lemma EnteredKeeps(cfg: Config, st: State, recs: seq<Rec>, a: Arrival)
    requires Explained(cfg, st, recs) && !NoSession(cfg, st, a)
    ensures var st' := Entered(cfg, st, a);
      && Explained(cfg, st', recs) && KeyOf(a.peer) in st'.sessions
      && st'.sessions[KeyOf(a.peer)].id == NextId(st, KeyOf(a.peer))
  {
    var key := KeyOf(a.peer);
    if Live(st, key) {
      StrikeKeeps(cfg, st, recs, key, a.hit.recover);
    } else {
      InsertKeeps(cfg, st, recs, key, a.now);
      StrikeKeeps(cfg, Insert(cfg, st, key, a.now), recs, key, a.hit.create);
    }
  }

  lemma HandleKeeps(cfg: Config, st: State, recs: seq<Rec>, a: Arrival)
    requires Explained(cfg, st, recs) && IsValid(a.peer.ip)
    ensures var o := Handle(cfg, st, a);
      && Explained(cfg, o.st, recs + ToSeq(o.rec))
      && (o.rec.None? ==> o.write.None?)
      && (o.rec.Some? ==> RecExplained(cfg, recs, o.rec.value) && o.write == Emitted(cfg, recs, o.rec.value))
  {
    hide Explained;
    var o := Handle(cfg, st, a);
    if Forwards(cfg, st, a) {
      ForwardedKeeps(cfg, st, recs, a);
    } else {
      assert recs + ToSeq(o.rec) == recs by { DropShape(cfg, st, a); }
      DropKeeps(cfg, st, recs, a);
    }
  }

  lemma ForwardedKeeps(cfg: Config, st: State, recs: seq<Rec>, a: Arrival)
    requires Explained(cfg, st, recs) && IsValid(a.peer.ip) && Forwards(cfg, st, a)
    ensures var o := Handle(cfg, st, a);
      && o.rec.Some? && Explained(cfg, o.st, recs + [o.rec.value])
      && RecExplained(cfg, recs, o.rec.value) && o.write == Emitted(cfg, recs, o.rec.value)
  {
    hide Explained, ParseDatagram, RecExplained, Served, Prepared, Sending;
    var p, d, st' := ParseDatagram(a.data), Verdict(cfg, st, a), Entered(cfg, st, a);
    EnteredKeeps(cfg, st, recs, a);
    HandleForwards(cfg, st, a);
    RecordIsRecOf(cfg, st, recs, a);
    var rec := RecordFor(cfg, st'.sessions[KeyOf(a.peer)], a, d, p);
    VerdictExplained(cfg, st, recs, a, rec.shut, rec.dead);
    TrustOfVerdict(cfg, st, recs, a);
    EnteredFlag(cfg, st, recs, a);
    hide Verdict, Handle, Forwards, Entered;
    ForwardKeeps(cfg, st', recs, a, d);
    ForwardEmits(cfg, st', recs, a, d);
  }

  lemma RecordIsRecOf(cfg: Config, st: State, recs: seq<Rec>, a: Arrival)
    requires Forwards(cfg, st, a) && KeyOf(a.peer) in Entered(cfg, st, a).sessions
    requires Entered(cfg, st, a).sessions[KeyOf(a.peer)].id == NextId(st, KeyOf(a.peer))
    ensures var p, d := ParseDatagram(a.data), Verdict(cfg, st, a);
      var r := RecordFor(cfg, Entered(cfg, st, a).sessions[KeyOf(a.peer)], a, d, p);
      r == RecOf(st, a, d, r.shut, r.dead) && (Wiped(st, a) || r.shut ==> r.dead)
  {
    var p, d := ParseDatagram(a.data), Verdict(cfg, st, a);
    ServedShape(cfg, Entered(cfg, st, a).sessions[KeyOf(a.peer)], a, d, p);
    hide ParseDatagram, Verdict, Served, Prepared;
  }

  lemma TrustOfVerdict(cfg: Config, st: State, recs: seq<Rec>, a: Arrival)
    requires ParseDatagram(a.data).Parsed? && Verdict(cfg, st, a).allow
    ensures Verdict(cfg, st, a).src != Direct ==> Trusts(cfg.trust, a.peer.ip)
  {}

  /** A datagram that does not reach step 7 leaves at most a step of an expiry behind. */
  lemma DropShape(cfg: Config, st: State, a: Arrival)
    requires !Forwards(cfg, st, a)
    ensures var o, key := Handle(cfg, st, a), KeyOf(a.peer);
      && o.rec.None? && o.write.None?
      && (o.st == st || o.st == Looked(st, a)
          || (key !in st.sessions && o.st == Strike(Insert(cfg, st, key, a.now), key, a.hit.create)
              && a.hit.create >= DONE))
  {}

  lemma DropKeeps(cfg: Config, st: State, recs: seq<Rec>, a: Arrival)
    requires Explained(cfg, st, recs) && !Forwards(cfg, st, a)
    ensures var o := Handle(cfg, st, a); Explained(cfg, o.st, recs) && o.rec.None? && o.write.None?
  {
    hide Explained, Insert, ParseDatagram;
    var key := KeyOf(a.peer);
    DropShape(cfg, st, a);
    StrikeKeeps(cfg, st, recs, key, a.hit.recover);
    if key !in st.sessions {
      InsertKeeps(cfg, st, recs, key, a.now);
      StrikeKeeps(cfg, Insert(cfg, st, key, a.now), recs, key, a.hit.create);
    }
    hide Handle, Forwards;
  }

  lemma StepKeeps(cfg: Config, st: State, recs: seq<Rec>, e: Event)
    requires Explained(cfg, st, recs) && (e.Arrive? ==> IsValid(e.a.peer.ip))
    ensures var o := Step(cfg, st, e);
      && Explained(cfg, o.st, recs + ToSeq(o.rec))
      && (o.rec.None? ==> o.write.None?)
      && (o.rec.Some? ==> RecExplained(cfg, recs, o.rec.value) && o.write == Emitted(cfg, recs, o.rec.value))
  {
    assert recs + [] == recs;
    match e
    case Arrive(a) => HandleKeeps(cfg, st, recs, a);
    case Respond(key, now) => RefreshKeeps(cfg, st, recs, key, now);
    case Expire(key, p) => StrikeKeeps(cfg, st, recs, key, p);
    case ExpireDelete(key) => DeleteKeeps(cfg, st, recs, key);
    case ExpireSettle =>
  }

  // ---------------------------------------------------------------- whole runs

  ghost predicate AllExplained(cfg: Config, recs: seq<Rec>) {
    forall i :: 0 <= i < |recs| ==> RecExplained(cfg, recs[..i], recs[i])
  }

  /** The upstream writes that a history of records amounts to. */
  function EmittedBy(cfg: Config, recs: seq<Rec>): seq<Write> {
    if recs == [] then []
    else EmittedBy(cfg, Init(recs)) + ToSeq(Emitted(cfg, Init(recs), Last(recs)))
  }

  ghost predicate RunExplained(cfg: Config, r: Run) {
    && Explained(cfg, r.st, r.recs)
    && AllExplained(cfg, r.recs)
    && r.writes == EmittedBy(cfg, r.recs)
  }

  lemma AllExplainedAppend(cfg: Config, recs: seq<Rec>, r: Rec)
    requires AllExplained(cfg, recs) && RecExplained(cfg, recs, r)
    ensures AllExplained(cfg, recs + [r])
  {
    hide RecExplained;
    forall i | 0 <= i < |recs + [r]| ensures RecExplained(cfg, (recs + [r])[..i], (recs + [r])[i]) {
      assert (recs + [r])[..i] == if i < |recs| then recs[..i] else recs;
    }
  }

  lemma AdvanceKeeps(cfg: Config, r: Run, e: Event)
    requires RunExplained(cfg, r) && (e.Arrive? ==> IsValid(e.a.peer.ip))
    ensures RunExplained(cfg, Advance(cfg, r, e))
  {
    hide Explained, Step, Emitted, RecExplained;
    StepKeeps(cfg, r.st, r.recs, e);
    var o := Step(cfg, r.st, e);
    var recs' := r.recs + ToSeq(o.rec);
    if o.rec.Some? {
      Snoc(r.recs, o.rec.value);
      AllExplainedAppend(cfg, r.recs, o.rec.value);
      hide AllExplained;
    } else {
      assert recs' == r.recs && r.writes + ToSeq(o.write) == r.writes;
    }
  }

  /**
   * State refines history. After any events: live sessions cache exactly the first accepted
   * claim of their incarnation, every datagram went out under the header its history dictates,
   * no incarnation is used after it expired, and the writes are a function of the records.
   */
  lemma {:induction false} StateRefinesHistory(cfg: Config, r: Run, evs: seq<Event>)
    requires RunExplained(cfg, r) && Sound(evs)
    ensures RunExplained(cfg, Exec(cfg, r, evs))
    decreases |evs|
  {
    if evs == [] {
    } else {
      AdvanceKeeps(cfg, r, evs[0]);
      StateRefinesHistory(cfg, Advance(cfg, r, evs[0]), evs[1..]);
    }
  }

  lemma {:induction false} ExecSnoc(cfg: Config, r: Run, evs: seq<Event>, e: Event)
    ensures Exec(cfg, r, evs + [e]) == Advance(cfg, Exec(cfg, r, evs), e)
    decreases |evs|
  {
    if evs == [] {
      assert Exec(cfg, Advance(cfg, r, e), []) == Advance(cfg, r, e);
    } else {
      ExecSnoc(cfg, Advance(cfg, r, evs[0]), evs[1..], e);
      assert (evs + [e])[1..] == evs[1..] + [e];
    }
  }

  lemma StartExplained(cfg: Config)
    ensures RunExplained(cfg, START)
  {}

  // ---------------------------------------------------------------- expiry is final

  /** Incarnation id was created and is not live any more. */
  ghost predicate Retired(st: State, id: nat) {
    id < st.next && forall k :: k in st.sessions && st.sessions[k].id == id ==> Done(st.sessions[k])
  }

  lemma ExpiryRetires(cfg: Config, st: State, recs: seq<Rec>, key: Key, p: Phase)
    requires Explained(cfg, st, recs) && key in st.sessions && p >= DONE
    ensures Retired(Strike(st, key, p), st.sessions[key].id)
  {}

  lemma ForwardStaysRetired(cfg: Config, st: State, a: Arrival, d: Decision, p: ParseResult, id: nat)
    requires KeyOf(a.peer) in st.sessions && p.Parsed? && Retired(st, id)
    ensures Retired(Forward(cfg, st, a, d, p).st, id)
  {
    ServedShape(cfg, st.sessions[KeyOf(a.peer)], a, d, p);
    hide Served;
  }

  lemma StepStaysRetired(cfg: Config, st: State, e: Event, id: nat)
    requires Retired(st, id)
    ensures var o := Step(cfg, st, e);
      && Retired(o.st, id)
      && (o.rec.Some? ==> o.rec.value.id != id)
      && (o.write.Some? ==> o.write.value.id != id)
  {
    if e.Arrive? {
      var a := e.a;
      if Forwards(cfg, st, a) {
        var d, st' := Verdict(cfg, st, a), Entered(cfg, st, a);
        HandleForwards(cfg, st, a);
        ForwardStaysRetired(cfg, st', a, d, ParseDatagram(a.data), id);
      } else {
        DropShape(cfg, st, a);
      }
    }
  }

  /** Once expired, an incarnation never sees another datagram: whatever was stored in it is never used. */
  lemma {:induction false} RetiredForever(cfg: Config, r: Run, evs: seq<Event>, id: nat)
    requires Retired(r.st, id)
    ensures var r' := Exec(cfg, r, evs);
      && Retired(r'.st, id)
      && r.recs <= r'.recs && r.writes <= r'.writes
      && (forall i :: |r.recs| <= i < |r'.recs| ==> r'.recs[i].id != id)
      && (forall i :: |r.writes| <= i < |r'.writes| ==> r'.writes[i].id != id)
    decreases |evs|
  {
    if evs == [] {
    } else {
      StepStaysRetired(cfg, r.st, evs[0], id);
      RetiredForever(cfg, Advance(cfg, r, evs[0]), evs[1..], id);
    }
  }
}
