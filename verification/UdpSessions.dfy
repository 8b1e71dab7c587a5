/** What a session is to its client: whose it is, what it accepts, and how long it stays. */
module UdpSessions {
  import opened Net
  import opened Deciding
  import opened Datagram
  import opened SessionKey
  import opened UdpFlow
  import opened UdpHistory
  import opened UdpClaims

  // ---------------------------------------------------------------- one client each

  /** In every run from the start, peers that differ in address, port or zone never share an incarnation. */
  lemma OneClientPerIncarnation(cfg: Config, evs: seq<Event>, i: nat, j: nat)
    requires Sound(evs) && i < |Exec(cfg, START, evs).recs| && j < |Exec(cfg, START, evs).recs|
    requires var recs := Exec(cfg, START, evs).recs;
      PortInRange(recs[i].peer) && PortInRange(recs[j].peer) && recs[i].id == recs[j].id
    ensures var p, q := Exec(cfg, START, evs).recs[i].peer, Exec(cfg, START, evs).recs[j].peer;
      To16(p.ip) == To16(q.ip) && p.port == q.port && p.zone == q.zone
  {
    RecAt(cfg, evs, i);
    RecAt(cfg, evs, j);
    var recs := Exec(cfg, START, evs).recs;
    hide Exec, DueHeader, KeyOf;
    if i < j {
      assert recs[..j][i] == recs[i];
    } else if j < i {
      assert recs[..i][j] == recs[j];
    }
    KeyExact(recs[i].peer, recs[j].peer);
  }

  // ---------------------------------------------------------------- what is accepted

  /**
   * Exactly when a datagram is accepted and given a session. One that is as long as the limit
   * is not too long, and a limit of zero is none, for datagrams and for sessions.
   */
  lemma AcceptedExactly(cfg: Config, st: State, a: Arrival)
    ensures Handle(cfg, st, a).rec.Some? <==>
      && (cfg.maxDatagram <= 0 || |a.data| <= cfg.maxDatagram)
      && ParseDatagram(a.data).Parsed?
      && Verdict(cfg, st, a).allow
      && var key := KeyOf(a.peer);
         || (key in st.sessions && st.sessions[key].phase == 0)
         || (&& key !in st.sessions && a.dialOk && a.hit.create == 0
             && (cfg.maxSessions <= 0 || st.count < cfg.maxSessions))
  {
    hide ParseDatagram, Verdict, KeyOf;
  }

  // ---------------------------------------------------------------- idle deadlines

  lemma DeadlineOfServed(cfg: Config, s: Session, a: Arrival, d: Decision, p: ParseResult)
    requires p.Parsed?
    ensures var t := Served(cfg, s, a, d, p);
      t.deadline == if !Done(t) && Sending(cfg, s, a, d, p).Some? then a.now + cfg.idle else s.deadline
  {
    hide Encode, CloneHeader;
  }

  lemma ForwardedDeadlines(cfg: Config, st: State, a: Arrival)
    requires Forwards(cfg, st, a)
    ensures var o, key := Handle(cfg, st, a), KeyOf(a.peer);
      && key in o.st.sessions
      && (forall k :: k != key ==> (k in o.st.sessions <==> k in st.sessions))
      && (forall k :: k != key && k in st.sessions ==> o.st.sessions[k] == st.sessions[k])
      && var was := if Live(st, key) then st.sessions[key].deadline else a.now + cfg.idle;
         o.st.sessions[key].deadline ==
         if !Done(o.st.sessions[key]) && o.write.Some? then a.now + cfg.idle else was
  {
    hide ParseDatagram, Verdict, KeyOf;
    HandleForwards(cfg, st, a);
    var st1 := Entered(cfg, st, a);
    DeadlineOfServed(cfg, st1.sessions[KeyOf(a.peer)], a, Verdict(cfg, st, a), ParseDatagram(a.data));
    hide Handle, Served, Sending, RecordFor;
  }

  /**
   * The idle timer. A datagram sets the deadline of its session, and of no other, to a full
   * idle time from now, if something could be sent for it and the session is not done; a new
   * session starts with that deadline; a dropped datagram moves no deadline.
   */
  lemma DatagramKeepsAlive(cfg: Config, st: State, a: Arrival, k: Key)
    requires k in Handle(cfg, st, a).st.sessions
    ensures var o, key := Handle(cfg, st, a), KeyOf(a.peer);
      var now := o.st.sessions[k].deadline;
      && (k != key ==> k in st.sessions && o.st.sessions[k] == st.sessions[k])
      && (k == key && k !in st.sessions ==> now == a.now + cfg.idle)
      && (k == key && k in st.sessions && !Done(o.st.sessions[k]) && o.write.Some? ==> now == a.now + cfg.idle)
      && (k in st.sessions && (Done(o.st.sessions[k]) || o.write.None?) ==> now == st.sessions[k].deadline)
  {
    hide ParseDatagram, Verdict, KeyOf;
    if Forwards(cfg, st, a) {
      ForwardedDeadlines(cfg, st, a);
      HandleForwards(cfg, st, a);
    } else {
      DropShape(cfg, st, a);
    }
    hide Handle, Served, Sending, RecordFor;
  }

  /** A response does the same, for a live session; the steps of an expiry move no deadline. */
  lemma ResponseKeepsAlive(cfg: Config, st: State, e: Event, k: Key)
    requires !e.Arrive? && k in Step(cfg, st, e).st.sessions
    ensures k in st.sessions
    ensures Step(cfg, st, e).st.sessions[k].deadline ==
            if e.Respond? && e.key == k && st.sessions[k].phase == 0 then e.now + cfg.idle else st.sessions[k].deadline
  {}

  /** An entry leaves the map only by the deletion of its own expiry, and only once its socket is closed. */
  lemma EntryGoesLast(cfg: Config, st: State, e: Event, k: Key)
    requires k in st.sessions
    ensures k !in Step(cfg, st, e).st.sessions <==> e == ExpireDelete(k) && st.sessions[k].phase == 3
  {
    if e.Arrive? {
      hide ParseDatagram, Verdict, KeyOf;
      if Forwards(cfg, st, e.a) {
        ForwardedDeadlines(cfg, st, e.a);
      } else {
        DropShape(cfg, st, e.a);
      }
      hide Handle;
    }
  }

  /**
   * The stored source goes at one moment of an expiry, when it passes the clearing; a source
   * that is stored later, or was there when done was closed, is not touched by the rest.
   */
  lemma ClearedOnce(st: State, key: Key, k: Key, p: Phase)
    requires k in st.sessions
    ensures k in Strike(st, key, p).sessions
    ensures var s, t := st.sessions[k], Strike(st, key, p).sessions[k];
      && t.id == s.id && t.headerSent == s.headerSent && t.deadline == s.deadline
      && (t.input != s.input ==> k == key && s.phase < 2 && t.phase >= 2 && t.input.None?)
      && (k == key && s.phase < 2 && p >= 2 ==> t.input.None?)
      && (k == key ==> t.phase == if s.phase < p then p else s.phase)
      && (k != key ==> t == s)
  {}

  // Event e puts a full idle time on the session of key k.
  predicate Uses(cfg: Config, st: State, e: Event, k: Key, now: int) {
    match e
    case Arrive(a) => KeyOf(a.peer) == k && a.now == now
                      && (Handle(cfg, st, a).write.Some? || k !in st.sessions)
    case Respond(key, t) => key == k && t == now && Live(st, k)
    case _ => false
  }

  lemma StillLive(cfg: Config, st: State, e: Event, k: Key)
    requires Live(Step(cfg, st, e).st, k)
    ensures k in st.sessions ==> Live(st, k)
    ensures k !in st.sessions ==> e.Arrive? && KeyOf(e.a.peer) == k && Uses(cfg, st, e, k, e.a.now)
  {
    if e.Arrive? {
      hide ParseDatagram, Verdict, KeyOf, Encode, CloneHeader;
      if Forwards(cfg, st, e.a) {
        HandleForwards(cfg, st, e.a);
        var s, d := Entered(cfg, st, e.a).sessions[KeyOf(e.a.peer)], Verdict(cfg, st, e.a);
        ServedShape(cfg, s, e.a, d, ParseDatagram(e.a.data));
      } else {
        DropShape(cfg, st, e.a);
      }
      hide Handle, Served, Sending;
    }
  }

  lemma UseSets(cfg: Config, st: State, e: Event, k: Key, now: int)
    requires Live(Step(cfg, st, e).st, k) && Uses(cfg, st, e, k, now)
    ensures Step(cfg, st, e).st.sessions[k].deadline == now + cfg.idle
  {
    if e.Arrive? {
      DatagramKeepsAlive(cfg, st, e.a, k);
      hide Handle, KeyOf;
    }
  }

  lemma NoUseKeeps(cfg: Config, st: State, e: Event, k: Key)
    requires Live(Step(cfg, st, e).st, k) && forall now :: !Uses(cfg, st, e, k, now)
    ensures Live(st, k) && Step(cfg, st, e).st.sessions[k].deadline == st.sessions[k].deadline
  {
    StillLive(cfg, st, e, k);
    if e.Arrive? {
      DatagramKeepsAlive(cfg, st, e.a, k);
      assert !Uses(cfg, st, e, k, e.a.now);
      hide Handle, KeyOf;
    } else if e.Respond? {
      assert !Uses(cfg, st, e, k, e.now);
    }
  }

  // Event i is the last of a run from the start that uses k.
  ghost predicate LastUse(cfg: Config, evs: seq<Event>, k: Key, i: nat, now: int) {
    && i < |evs| && Uses(cfg, Exec(cfg, START, evs[..i]).st, evs[i], k, now)
    && forall j, t :: i < j < |evs| ==> !Uses(cfg, Exec(cfg, START, evs[..j]).st, evs[j], k, t)
  }

  lemma LastUseStays(cfg: Config, evs: seq<Event>, e: Event, k: Key, i: nat, now: int)
    requires LastUse(cfg, evs, k, i, now) && forall t :: !Uses(cfg, Exec(cfg, START, evs).st, e, k, t)
    ensures LastUse(cfg, evs + [e], k, i, now)
  {
    hide Exec, Uses;
    var all := evs + [e];
    assert all[..|evs|] == evs;
    assert forall j :: 0 <= j < |evs| ==> all[..j] == evs[..j] && all[j] == evs[j];
  }

  lemma NewUseIsLast(cfg: Config, evs: seq<Event>, e: Event, k: Key, now: int)
    requires Uses(cfg, Exec(cfg, START, evs).st, e, k, now)
    ensures LastUse(cfg, evs + [e], k, |evs|, now)
  {
    hide Exec, Uses;
    assert (evs + [e])[..|evs|] == evs;
  }

  lemma NothingAtTheStart(cfg: Config, k: Key)
    ensures !Live(Exec(cfg, START, []).st, k)
  {}

  /** In every run from the start the deadline of a live session is a full idle time after its last use. */
  lemma {:induction false} DeadlineFollowsLastUse(cfg: Config, evs: seq<Event>, k: Key)
    requires Live(Exec(cfg, START, evs).st, k)
    ensures exists i: nat, now ::
      LastUse(cfg, evs, k, i, now) && Exec(cfg, START, evs).st.sessions[k].deadline == now + cfg.idle
    decreases |evs|
  {
    hide Exec, Uses, Step, LastUse;
    if evs == [] {
      NothingAtTheStart(cfg, k);
    } else {
      var before, e := Init(evs), Last(evs);
      var st := Exec(cfg, START, before).st;
      assert evs == before + [e];
      ExecSnoc(cfg, START, before, e);
      StillLive(cfg, st, e, k);
      if now :| Uses(cfg, st, e, k, now) {
        UseSets(cfg, st, e, k, now);
        NewUseIsLast(cfg, before, e, k, now);
      } else {
        NoUseKeeps(cfg, st, e, k);
        DeadlineFollowsLastUse(cfg, before, k);
        var i: nat, now :| LastUse(cfg, before, k, i, now) && st.sessions[k].deadline == now + cfg.idle;
        LastUseStays(cfg, before, e, k, i, now);
      }
    }
  }
}
