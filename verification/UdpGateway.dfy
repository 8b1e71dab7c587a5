/**
 * internal/udp as objects updated in place: session, manager and gateway. Each method is
 * proved against the transducer of UdpFlow. What other goroutines do to the session in use,
 * in the middle of a datagram, appears as calls to Strike; UdpInterleaving shows that the five
 * points of these calls are enough.
 */
module UdpGateway {
  import opened Basics
  import opened ProxyProto
  import opened Deciding
  import opened Datagram
  import opened SessionKey
  import opened UdpFlow
  import opened UdpHistory

  // expire() run without interruption.
  function Expired(st: State, key: Key): State {
    if Live(st, key) then State(st.sessions - {key}, st.count - 1, st.next) else st
  }

  /** Uninterrupted, the parts of an expiry remove the entry and its slot. */
  lemma ExpireInOneGo(st: State, key: Key)
    requires |st.sessions| <= st.count
    ensures Live(st, key) ==> Expired(st, key) == Settle(Delete(Strike(st, key, CLOSED), key))
  {
    if Live(st, key) {
      var m := Strike(st, key, CLOSED).sessions;
      assert m.Keys == st.sessions.Keys && |m| == |m.Keys| && |st.sessions| == |st.sessions.Keys|;
      assert (m - {key}).Keys == m.Keys - {key} && |m - {key}| == |(m - {key}).Keys|;
      assert m - {key} == st.sessions - {key};
    }
  }

  class UDPSession {
    const id: nat
    const key: Key
    var phase: Phase // done, the source's clearing and the socket, as far as expire() has got
    var inputSource: Option<Stored>
    var headerSent: bool
    var deadline: int

    function Value(): Session
      reads this
    {
      Session(id, phase, inputSource, headerSent, deadline)
    }

    predicate IsDone()
      reads this
    {
      phase >= DONE
    }

    constructor (id: nat, key: Key, deadline: int)
      ensures this.key == key && Value() == Session(id, ALIVE, None, false, deadline)
    {
      this.id := id;
      this.key := key;
      this.phase := ALIVE;
      this.inputSource := None;
      this.headerSent := false;
      this.deadline := deadline;
    }

    // A done session is never re-armed.
    method Refresh(now: int, idle: int)
      modifies this`deadline
      ensures Value() == if IsDone() then old(Value()) else old(Value()).(deadline := now + idle)
    {
      if IsDone() {
        return;
      }
      deadline := now + idle;
    }

    method StoreInputSource(hdr: Header, src: Source)
      modifies this`inputSource
      ensures inputSource == Some(Stored(CloneHeader(hdr), src))
    {
      inputSource := Some(Stored(CloneHeader(hdr), src));
    }

    /** The once block of expire(), as far as phase p, each of its steps at most once. */
    method Strike(p: Phase)
      modifies this`phase, this`inputSource
      ensures Value() == Raise(old(Value()), p)
    {
      if phase < DONE <= p {
        phase := DONE;
      }
      if phase < CLEARED <= p {
        inputSource := None;
        phase := CLEARED;
      }
      if phase < CLOSED <= p {
        phase := CLOSED;
      }
    }

    // headerSent.Swap(true)
    method SwapHeaderSent() returns (was: bool)
      modifies this`headerSent
      ensures was == old(headerSent) && headerSent
    {
      was := headerSent;
      headerSent := true;
    }
  }

  ghost function View(m: map<Key, UDPSession>): map<Key, Session>
    reads m.Values
  {
    map k | k in m :: m[k].Value()
  }

  lemma ViewPut(m: map<Key, UDPSession>, k: Key, s: UDPSession)
    ensures View(m[k := s]) == View(m)[k := s.Value()]
    ensures k !in m ==> |m[k := s]| == |m| + 1
  {
    assert m[k := s].Keys == m.Keys + {k};
    assert |m[k := s]| == |m[k := s].Keys| && |m| == |m.Keys|;
  }

  lemma ViewRemove(m: map<Key, UDPSession>, k: Key)
    ensures View(m - {k}) == View(m) - {k}
    ensures k in m ==> |m - {k}| == |m| - 1
  {
    assert (m - {k}).Keys == m.Keys - {k};
    assert |m - {k}| == |(m - {k}).Keys| && |m| == |m.Keys|;
  }

  lemma ViewSize(m: map<Key, UDPSession>)
    ensures View(m).Keys == m.Keys && |View(m)| == |m|
  {
    assert View(m).Keys == m.Keys;
    assert |View(m)| == |View(m).Keys| && |m| == |m.Keys|;
  }

  class UDPSessionManager {
    var sessions: map<Key, UDPSession>
    var count: int
    var next: nat // numbers the sockets that get a session
    const maxSessions: int

    ghost predicate Valid()
      reads this, sessions.Values
    {
      && (forall k :: k in sessions ==> sessions[k].key == k)
      && |sessions| <= count
    }

    ghost function Abs(): State
      reads this, sessions.Values
    {
      State(View(sessions), count, next)
    }

    constructor (maxSessions: int)
      ensures Valid() && Abs() == START.st && this.maxSessions == maxSessions && fresh(sessions.Values)
    {
      this.maxSessions := maxSessions;
      sessions := map[];
      count := 0;
      next := 0;
    }

    method Load(key: Key) returns (s: UDPSession?)
      ensures s == if key in sessions then sessions[key] else null
    {
      s := if key in sessions then sessions[key] else null;
    }

    /**
     * Null is ErrMaxSessions. A key that is still stored (its expiry is under way) yields
     * the stored session and changes nothing.
     */
    method Create(cfg: Config, key: Key, now: int) returns (s: UDPSession?)
      requires Valid() && cfg.maxSessions == maxSessions
      modifies this
      ensures Valid()
      ensures s == null <==> AtCapacity(cfg, old(Abs()))
      ensures s == null ==> sessions == old(sessions) && Abs() == old(Abs())
      ensures s != null && key in old(sessions) ==>
                sessions == old(sessions) && s == sessions[key] && Abs() == old(Abs())
      ensures s != null && key !in old(sessions) ==>
                fresh(s) && sessions == old(sessions)[key := s] && Abs() == Insert(cfg, old(Abs()), key, now)
    {
      var ok := TakeSlot();
      if !ok {
        return null;
      }
      var made := new UDPSession(next, key, now + cfg.idle);
      assert Valid() && View(sessions) == old(View(sessions));
      hide View, UDPSessionManager.Valid;
      s := Publish(made);
    }

    // count.Load and count.Add. Going past the limit in between takes a second creator;
    // SessionMachine has that branch.
    method TakeSlot() returns (ok: bool)
      modifies this`count
      ensures ok <==> maxSessions <= 0 || old(count) < maxSessions
      ensures count == old(count) + Indicator(ok)
    {
      if maxSessions > 0 {
        if count >= maxSessions {
          return false;
        }
      }
      count := count + 1;
      return true;
    }

    // LoadOrStore, and the slot given back by who comes too late.
    method Publish(made: UDPSession) returns (s: UDPSession)
      requires Valid() && |sessions| < count
      modifies this`sessions, this`next, this`count
      ensures Valid()
      ensures sessions == if made.key in old(sessions) then old(sessions) else old(sessions)[made.key := made]
      ensures made.key in sessions && s == sessions[made.key]
      ensures var st := old(Abs());
        Abs() == if made.key in old(sessions) then st.(count := st.count - 1)
                 else State(st.sessions[made.key := made.Value()], st.count, st.next + 1)
    {
      ViewPut(sessions, made.key, made);
      hide View;
      var loaded;
      s, loaded := LoadOrStore(made);
      if loaded {
        count := count - 1;
      }
    }

    /** sync.Map.LoadOrStore. */
    method LoadOrStore(made: UDPSession) returns (actual: UDPSession, loaded: bool)
      modifies this`sessions, this`next
      ensures loaded == (made.key in old(sessions))
      ensures sessions == if loaded then old(sessions) else old(sessions)[made.key := made]
      ensures next == if loaded then old(next) else old(next) + 1
      ensures made.key in sessions && actual == sessions[made.key]
    {
      if made.key in sessions {
        return sessions[made.key], true;
      }
      sessions := sessions[made.key := made];
      next := next + 1;
      return made, false;
    }

    /** expire(): at most once, and the entry and the slot go with it. */
    method Expire(s: UDPSession)
      requires Valid() && s.key in sessions && sessions[s.key] == s
      modifies this`sessions, this`count, s
      ensures Valid() && s.IsDone()
      ensures sessions == if old(s.IsDone()) then old(sessions) else old(sessions) - {s.key}
      ensures Abs() == Expired(old(Abs()), s.key)
    {
      if s.IsDone() {
        return;
      }
      ghost var view, rest := View(sessions), sessions - {s.key};
      ViewRemove(sessions, s.key);
      assert forall k :: k in rest ==> rest[k] == sessions[k] && sessions[k].key == k;
      assert s !in rest.Values;
      s.Strike(CLOSED);
      assert View(rest) == view - {s.key};
      hide View, Raise;
      Remove(s.key);
    }

    method Remove(key: Key)
      modifies this`sessions, this`count
      ensures sessions == old(sessions) - {key} && count == old(count) - 1
    {
      sessions := sessions - {key};
      count := count - 1;
    }

    // The body of the Range call in ExpireAll.
    method ExpireEntry(k: Key)
      requires Valid() && k in sessions
      modifies this`sessions, this`count, sessions[k]
      ensures Valid() && old(sessions)[k].IsDone()
      ensures sessions == if old(sessions[k].IsDone()) then old(sessions) else old(sessions) - {k}
      ensures count - |sessions| == old(count - |sessions|)
    {
      ViewRemove(sessions, k);
      Expire(sessions[k]);
    }

    // Where ExpireAll stands when `todo` is still to be visited.
    ghost predicate Ranging(all: map<Key, UDPSession>, was: map<Key, bool>, todo: set<Key>)
      reads this, sessions.Values, all.Values
    {
      && Valid() && was.Keys == all.Keys && todo <= sessions.Keys
      && (forall k :: k in sessions ==> k in all && sessions[k] == all[k])
      && (forall k :: k in all ==>
            all[k].IsDone() == (was[k] || k !in todo) && (k !in todo ==> (k in sessions <==> was[k])))
    }

    method ExpireNext(k: Key, todo: set<Key>, ghost all: map<Key, UDPSession>, ghost was: map<Key, bool>)
      requires Ranging(all, was, todo) && k in todo && all[k].key == k && forall l :: l in all ==> all[l].key == l
      modifies this`sessions, this`count, sessions[k]
      ensures Ranging(all, was, todo - {k})
      ensures count - |sessions| == old(count - |sessions|)
    {
      hide View, UDPSessionManager.Abs, UDPSessionManager.Valid, Expired;
      assert !all[k].IsDone() == !was[k];
      assert forall l :: l in all && l != k ==> all[l] != all[k];
      ExpireEntry(k);
    }

    /** Range over the map, expiring every entry that is not expiring already. */
    method ExpireAll()
      requires Valid()
      modifies this`sessions, this`count, sessions.Values
      ensures Valid()
      ensures forall k :: k in old(sessions) ==> old(sessions)[k].IsDone()
      ensures forall k :: k in sessions <==> k in old(sessions) && old(sessions[k].IsDone())
      ensures count - |sessions| == old(count - |sessions|)
    {
      ghost var all, was := sessions, map k | k in sessions :: sessions[k].IsDone();
      var todo := sessions.Keys;
      assert Ranging(all, was, todo);
      while todo != {}
        invariant Ranging(all, was, todo) && sessions.Values <= all.Values
        invariant count - |sessions| == old(count - |sessions|)
        decreases |todo|
      {
        hide Ranging;
        var k :| k in todo;
        ExpireNext(k, todo, all, was);
        todo := todo - {k};
      }
    }

    // ------------------------------------------------------------ what goroutines elsewhere do

    /** The reader of a session forwards a datagram. */
    method RefreshAt(cfg: Config, key: Key, now: int)
      requires Valid()
      modifies sessions.Values
      ensures Valid() && Abs() == UdpFlow.Refresh(cfg, old(Abs()), key, now)
    {
      ghost var view := View(sessions);
      var s := Load(key);
      if s != null {
        s.Refresh(now, cfg.idle);
        assert View(sessions) == view[key := s.Value()];
      }
    }

    /** An expire() gets as far as phase p. */
    method StrikeAt(key: Key, p: Phase)
      requires Valid()
      modifies sessions.Values
      ensures Valid() && Abs() == UdpFlow.Strike(old(Abs()), key, p)
    {
      hide Raise;
      ghost var view := View(sessions);
      var s := Load(key);
      if s != null {
        s.Strike(p);
        assert View(sessions) == view[key := s.Value()];
      }
    }

    /** It deletes its entry. */
    method DeleteAt(key: Key)
      requires Valid()
      modifies this`sessions
      ensures Valid() && Abs() == UdpFlow.Delete(old(Abs()), key) && sessions.Values <= old(sessions.Values)
    {
      ViewRemove(sessions, key);
      if key in sessions && sessions[key].phase == CLOSED {
        sessions := sessions - {key};
      }
    }

    /** And its slot. */
    method SettleOne()
      requires Valid()
      modifies this`count
      ensures Valid() && Abs() == Settle(old(Abs()))
    {
      ViewSize(sessions);
      if count > |sessions| {
        count := count - 1;
      }
    }
  }

  // ---------------------------------------------------------------- what the receive loop meets

  // A read, or something that another goroutine does between two reads.
  datatype Turn =
    | Packet(a: Arrival)
    | Elsewhere(e: Event)
    | TransientError
    | ListenerClosed
    | ReadError

  datatype Exit = StillReading | Clean | Failed

  predicate Stops(t: Turn) {
    t.ListenerClosed? || t.ReadError?
  }

  function EventOf(t: Turn): seq<Event> {
    match t
    case Packet(a) => [Arrive(a)]
    case Elsewhere(e) => [e]
    case _ => []
  }

  /** The events up to the error that ends the loop. */
  function EventsOf(ts: seq<Turn>): seq<Event> {
    if ts == [] || Stops(ts[0]) then [] else EventOf(ts[0]) + EventsOf(ts[1..])
  }

  lemma {:induction false} EventsSoFar(ts: seq<Turn>, i: nat)
    requires i <= |ts| && forall j :: 0 <= j < i ==> !Stops(ts[j])
    ensures i < |ts| && !Stops(ts[i]) ==> EventsOf(ts[..i + 1]) == EventsOf(ts[..i]) + EventOf(ts[i])
    ensures i == |ts| || Stops(ts[i]) ==> EventsOf(ts) == EventsOf(ts[..i])
  {
    if i == 0 {
      if ts != [] {
        assert ts[..1][1..] == [] && [] + EventOf(ts[0]) == EventOf(ts[0]) == EventOf(ts[0]) + [];
      }
    } else {
      EventsSoFar(ts[1..], i - 1);
      assert ts[..i][1..] == ts[1..][..i - 1];
      if i < |ts| && !Stops(ts[i]) {
        assert ts[..i + 1][1..] == ts[1..][..i];
        assert EventsOf(ts[..i + 1]) == EventOf(ts[0]) + (EventsOf(ts[1..][..i - 1]) + EventOf(ts[i]));
      }
    }
  }

  /** As long as nothing ends the loop, every datagram and every step of others counts, in order. */
  lemma {:induction false} TurnCounts(ts: seq<Turn>, t: Turn)
    requires forall i :: 0 <= i < |ts| ==> !ts[i].ListenerClosed? && !ts[i].ReadError?
    ensures t.Packet? ==> EventsOf(ts + [t]) == EventsOf(ts) + [Arrive(t.a)]
    ensures t.Elsewhere? ==> EventsOf(ts + [t]) == EventsOf(ts) + [t.e]
  {
    if ts == [] {
      assert [] + [t] == [t] && [t][1..] == [];
    } else {
      assert (ts + [t])[1..] == ts[1..] + [t];
      TurnCounts(ts[1..], t);
      assert t.Packet? ==>
        EventOf(ts[0]) + (EventsOf(ts[1..]) + [Arrive(t.a)]) == EventOf(ts[0]) + EventsOf(ts[1..]) + [Arrive(t.a)];
    }
  }

  /** A transient error is as if it had not been. */
  lemma {:induction false} TransientIsNothing(ts: seq<Turn>, us: seq<Turn>)
    ensures EventsOf(ts + [TransientError] + us) == EventsOf(ts + us)
  {
    if ts == [] {
      assert [] + [TransientError] + us == [TransientError] + us && ([TransientError] + us)[1..] == us;
      assert [] + us == us && [] + EventsOf(us) == EventsOf(us);
    } else {
      assert (ts + [TransientError] + us)[1..] == ts[1..] + [TransientError] + us;
      assert (ts + us)[1..] == ts[1..] + us;
      TransientIsNothing(ts[1..], us);
    }
  }

  /** Nothing is read after the listener is closed, or after an error that is not transient. */
  lemma {:induction false} NothingAfterTheEnd(ts: seq<Turn>, t: Turn, us: seq<Turn>)
    requires t == ListenerClosed || t == ReadError
    ensures EventsOf(ts + [t] + us) == EventsOf(ts)
  {
    if ts == [] {
      assert ([] + [t] + us)[0] == t;
    } else {
      assert (ts + [t] + us)[1..] == ts[1..] + [t] + us;
      NothingAfterTheEnd(ts[1..], t, us);
    }
  }

  // The run of the transducer over the events so far.
  ghost predicate Follows(cfg: Config, before: State, sent: seq<Write>, evs: seq<Event>,
                          after: State, written: seq<Write>) {
    var r := Exec(cfg, Run(before, [], sent), evs);
    r.st == after && r.writes == written
  }

  lemma FollowsNone(cfg: Config, st: State, writes: seq<Write>)
    ensures Follows(cfg, st, writes, [], st, writes)
  {}

  lemma FollowsOne(cfg: Config, before: State, sent: seq<Write>, evs: seq<Event>, e: Event,
                   after: State, written: seq<Write>)
    requires Follows(cfg, before, sent, evs, after, written)
    ensures var o := Step(cfg, after, e);
      Follows(cfg, before, sent, evs + [e], o.st, written + ToSeq(o.write))
  {
    ExecSnoc(cfg, Run(before, [], sent), evs, e);
  }

  lemma FreshStruck(cfg: Config, st: State, key: Key, now: int, p: Phase)
    ensures key in Insert(cfg, st, key, now).sessions && Live(Insert(cfg, st, key, now), key)
    ensures Live(Strike(Insert(cfg, st, key, now), key, p), key) <==> p < DONE
  {}

  lemma EntryCases(cfg: Config, st: State, a: Arrival)
    requires !Live(st, KeyOf(a.peer))
    ensures NoSession(cfg, st, a) <==> !a.dialOk || AtCapacity(cfg, st) || KeyOf(a.peer) in st.sessions
    ensures Entered(cfg, st, a) == Strike(Insert(cfg, st, KeyOf(a.peer), a.now), KeyOf(a.peer), a.hit.create)
  {}

  /** A datagram that parses: dropped, given a session that expires at once, or forwarded. */
  lemma HandleShape(cfg: Config, st: State, a: Arrival)
    requires !Oversized(cfg, a) && ParseDatagram(a.data).Parsed?
    ensures var o, p, d := Handle(cfg, st, a), ParseDatagram(a.data), Verdict(cfg, st, a);
      if !d.allow || NoSession(cfg, st, a) then o == Outcome(Looked(st, a), None, None)
      else if !Live(st, KeyOf(a.peer)) && a.hit.create >= DONE then o == Outcome(Entered(cfg, st, a), None, None)
      else KeyOf(a.peer) in Entered(cfg, st, a).sessions && o == UdpFlow.Forward(cfg, Entered(cfg, st, a), a, d, p)
    ensures !Live(st, KeyOf(a.peer)) ==> Looked(st, a) == st
    ensures Live(st, KeyOf(a.peer)) ==> !NoSession(cfg, st, a) && Entered(cfg, st, a) == Looked(st, a)
  {
    if Forwards(cfg, st, a) {
      HandleForwards(cfg, st, a);
    }
    hide ParseDatagram, Verdict, UdpFlow.Forward;
  }

  class UDPGateway {
    const cfg: Config
    const manager: UDPSessionManager
    var writes: seq<Write> // what the upstream sockets were given, in order

    ghost predicate Valid()
      reads this, manager, manager.sessions.Values
    {
      manager.Valid() && cfg.maxSessions == manager.maxSessions
    }

    ghost function Footprint(): set<object>
      reads manager
    {
      {this, manager} + manager.sessions.Values
    }

    constructor (cfg: Config)
      ensures Valid() && fresh(Footprint()) && this.cfg == cfg && writes == [] && manager.Abs() == START.st
    {
      this.cfg := cfg;
      manager := new UDPSessionManager(cfg.maxSessions);
      writes := [];
    }

    /** Step 7: the source of a session that has none. */
    method StoreSource(sess: UDPSession, a: Arrival, d: Decision)
      modifies sess
      ensures var t := Raise(old(sess.Value()), a.hit.store);
        sess.Value() ==
        t.(input := if d.src != Direct && t.input.None? then Some(Stored(CloneHeader(d.hdr), d.src)) else t.input)
    {
      sess.Strike(a.hit.store);
      hide Raise, CloneHeader;
      if d.src != Direct && sess.inputSource.None? {
        sess.StoreInputSource(d.hdr, d.src);
      }
    }

    /** Step 8. */
    method EncodeFor(sess: UDPSession, d: Decision, p: ParseResult) returns (encoded: Option<seq<byte>>)
      requires p.Parsed?
      modifies sess`headerSent
      ensures encoded == Encode(cfg, old(sess.headerSent), d.hdr, p.payload)
      ensures sess.Value() ==
              old(sess.Value()).(headerSent := old(sess.headerSent) || cfg.mode.FirstDatagram?)
    {
      if cfg.mode.EveryDatagram? {
        encoded := FormatDatagram(cfg.coerce, d.hdr, p.payload);
      } else {
        var was := sess.SwapHeaderSent();
        if was {
          encoded := Some(p.payload);
        } else {
          encoded := FormatDatagram(cfg.coerce, d.hdr, p.payload);
        }
      }
    }

    /** Steps 7 to 10 on the session that steps 2 to 6 came up with. */
    method Forward(sess: UDPSession, a: Arrival, d: Decision, p: ParseResult)
      requires p.Parsed?
      modifies sess, this`writes
      ensures sess.Value() == Served(cfg, old(sess.Value()), a, d, p)
      ensures writes == old(writes) + ToSeq(Sending(cfg, old(sess.Value()), a, d, p))
    {
      hide Encode, CloneHeader;
      StoreSource(sess, a, d);
      var encoded := EncodeFor(sess, d, p);
      sess.Strike(a.hit.write);
      if encoded.Some? && sess.phase < CLOSED {
        writes := writes + [Write(sess.id, encoded.value)];
      }
      sess.Strike(a.hit.refresh);
      if encoded.Some? {
        sess.Refresh(a.now, cfg.idle);
      }
    }

    /** The same, seen from the manager. */
    method ForwardInPlace(sess: UDPSession, a: Arrival, d: Decision, p: ParseResult)
      requires Valid() && p.Parsed? && KeyOf(a.peer) in manager.sessions && manager.sessions[KeyOf(a.peer)] == sess
      modifies sess, this`writes
      ensures Valid()
      ensures var o := UdpFlow.Forward(cfg, old(manager.Abs()), a, d, p);
        manager.Abs() == o.st && writes == old(writes) + ToSeq(o.write)
    {
      ghost var st, key := manager.Abs(), KeyOf(a.peer);
      hide Served, Sending, RecordFor;
      Forward(sess, a, d, p);
      assert View(manager.sessions) == st.sessions[key := sess.Value()];
    }

    /** Steps 2 to 4: the live session of the peer, if any, and the verdict. */
    method Look(a: Arrival, p: ParseResult) returns (sess: UDPSession?, d: Decision)
      requires Valid() && p == ParseDatagram(a.data) && p.Parsed?
      modifies manager.sessions.Values
      ensures Valid() && manager.Abs() == Looked(old(manager.Abs()), a)
      ensures d == Verdict(cfg, old(manager.Abs()), a)
      ensures sess != null <==> Live(old(manager.Abs()), KeyOf(a.peer))
      ensures sess != null ==> KeyOf(a.peer) in manager.sessions && manager.sessions[KeyOf(a.peer)] == sess
    {
      hide ParseDatagram, Decide;
      sess := manager.Load(KeyOf(a.peer));
      if sess != null && sess.IsDone() {
        sess := null;
      }
      if sess != null {
        manager.StrikeAt(KeyOf(a.peer), a.hit.recover);
      }
      var hdr, src := p.hdr, p.src;
      if sess != null && src == Direct && sess.inputSource.Some? {
        hdr, src := sess.inputSource.value.hdr, sess.inputSource.value.src;
      }
      d := Decide(cfg.policy, cfg.trust, cfg.untrusted, src, hdr, RemoteIP(a.peer), a.peer, cfg.local);
    }

    /** Step 6: a session for a peer that has none, unless it expires at once. */
    method Enter(a: Arrival) returns (sess: UDPSession?)
      requires Valid() && !Live(manager.Abs(), KeyOf(a.peer))
      modifies manager, manager.sessions.Values
      ensures Valid() && fresh(Footprint() - old(Footprint()))
      ensures sess == null <==> NoSession(cfg, old(manager.Abs()), a) || a.hit.create >= DONE
      ensures manager.Abs() == if NoSession(cfg, old(manager.Abs()), a) then old(manager.Abs())
                               else Entered(cfg, old(manager.Abs()), a)
      ensures sess != null ==>
        KeyOf(a.peer) in manager.sessions && manager.sessions[KeyOf(a.peer)] == sess && fresh(sess)
    {
      EntryCases(cfg, manager.Abs(), a);
      hide NoSession, Entered, AtCapacity, KeyOf;
      if !a.dialOk {
        return null;
      }
      sess := CreateLive(KeyOf(a.peer), a.now, a.hit.create);
    }

    // Create, and the check of the session that it returned.
    method CreateLive(key: Key, now: int, p: Phase) returns (sess: UDPSession?)
      requires Valid() && !Live(manager.Abs(), key)
      modifies manager, manager.sessions.Values
      ensures Valid() && fresh(Footprint() - old(Footprint()))
      ensures var st := old(manager.Abs());
        && (sess == null <==> AtCapacity(cfg, st) || key in st.sessions || p >= DONE)
        && manager.Abs() == if AtCapacity(cfg, st) || key in st.sessions then st
                            else Strike(Insert(cfg, st, key, now), key, p)
      ensures sess != null ==> key in manager.sessions && manager.sessions[key] == sess && fresh(sess)
    {
      FreshStruck(cfg, manager.Abs(), key, now, p);
      assert key in manager.sessions <==> key in manager.Abs().sessions;
      hide View, UDPSessionManager.Abs, UDPSessionManager.Valid, Insert, Strike, AtCapacity;
      ghost var was := manager.sessions;
      sess := manager.Create(cfg, key, now);
      assert sess != null ==> manager.sessions.Values <= was.Values + {sess};
      if sess != null {
        sess := StillLive(sess, key, p);
      }
    }

    // The check of a session that Create returned.
    method StillLive(created: UDPSession, key: Key, p: Phase) returns (sess: UDPSession?)
      requires Valid() && key in manager.sessions && manager.sessions[key] == created
      modifies manager.sessions.Values
      ensures Valid()
      ensures var st := old(manager.Abs()); manager.Abs() == if Live(st, key) then UdpFlow.Strike(st, key, p) else st
      ensures sess == if Live(manager.Abs(), key) then created else null
    {
      if !created.IsDone() {
        manager.StrikeAt(key, p);
      }
      sess := if created.IsDone() then null else created;
      assert manager.Abs().sessions[key] == created.Value();
    }

    /** Step by step, one datagram of acceptable size. */
    method HandleDatagram(a: Arrival)
      requires Valid() && !Oversized(cfg, a)
      modifies Footprint()
      ensures Valid() && fresh(Footprint() - old(Footprint()))
      ensures var o := Handle(cfg, old(manager.Abs()), a);
        manager.Abs() == o.st && writes == old(writes) + ToSeq(o.write)
    {
      var p := ParseDatagram(a.data);
      if p.Malformed? {
        return;
      }
      HandleShape(cfg, manager.Abs(), a);
      hide ParseDatagram, Verdict, Handle, UdpFlow.Forward, Looked, Entered, NoSession;
      var sess, d := Look(a, p);
      if !d.allow {
        return;
      }
      if sess == null {
        sess := Enter(a);
        if sess == null {
          return;
        }
      }
      ForwardInPlace(sess, a, d, p);
    }

    // ReadFromUDP: the datagram, or what of it fits the buffer.
    static method ReadFromUDP(datagram: seq<byte>, buf: array<byte>) returns (n: nat)
      modifies buf
      ensures n == (if |datagram| <= buf.Length then |datagram| else buf.Length)
      ensures buf[..n] == datagram[..n]
    {
      n := if |datagram| <= buf.Length then |datagram| else buf.Length;
      forall i | 0 <= i < n {
        buf[i] := datagram[i];
      }
    }

    /** One datagram through the shared buffer: handled as it was sent, or dropped whole. */
    method Receive(a: Arrival, buf: array<byte>)
      requires Valid() && buf !in Footprint()
      requires if cfg.maxDatagram > 0 then buf.Length == cfg.maxDatagram + 1 else buf.Length >= |a.data|
      modifies Footprint(), buf
      ensures Valid() && fresh(Footprint() - old(Footprint()))
      ensures var o := Handle(cfg, old(manager.Abs()), a);
        manager.Abs() == o.st && writes == old(writes) + ToSeq(o.write)
    {
      var n := ReadFromUDP(a.data, buf);
      if cfg.maxDatagram > 0 && n > cfg.maxDatagram {
        return;
      }
      var data := buf[..n];
      assert data == a.data;
      hide Handle;
      HandleDatagram(a.(data := data));
    }

    // What a session's reader or its expire() does between two reads of the loop.
    method Yield(e: Event)
      requires Valid() && !e.Arrive?
      modifies Footprint()
      ensures Valid() && Footprint() <= old(Footprint())
      ensures manager.Abs() == Step(cfg, old(manager.Abs()), e).st && writes == old(writes)
    {
      match e
      case Respond(key, now) => manager.RefreshAt(cfg, key, now);
      case Expire(key, p) => manager.StrikeAt(key, p);
      case ExpireDelete(key) => manager.DeleteAt(key);
      case ExpireSettle => manager.SettleOne();
    }

    /** One turn of the loop extends the transducer's run. */
    method TakeTurn(t: Turn, buf: array<byte>, ghost before: State, ghost sent: seq<Write>, ghost evs: seq<Event>)
      requires Valid() && buf !in Footprint() && !Stops(t)
      requires t.Packet? ==> if cfg.maxDatagram > 0 then buf.Length == cfg.maxDatagram + 1 else buf.Length >= |t.a.data|
      requires t.Elsewhere? ==> !t.e.Arrive?
      requires Follows(cfg, before, sent, evs, manager.Abs(), writes)
      modifies Footprint(), buf
      ensures Valid() && fresh(Footprint() - old(Footprint()))
      ensures Follows(cfg, before, sent, evs + EventOf(t), manager.Abs(), writes)
    {
      hide Follows, Handle;
      assert evs + [] == evs && writes + [] == writes;
      match t
      case Packet(a) =>
        FollowsOne(cfg, before, sent, evs, Arrive(a), manager.Abs(), writes);
        Receive(a, buf);
      case Elsewhere(e) =>
        FollowsOne(cfg, before, sent, evs, e, manager.Abs(), writes);
        Yield(e);
      case _ =>
    }

    /**
     * The receive loop over one reused buffer, whatever other goroutines do between and inside
     * its datagrams: it handles exactly the datagrams that were sent, whole, drops the oversized
     * ones, carries on after a transient error, and ends at the first other one.
     */
    method Serve(turns: seq<Turn>) returns (exit: Exit)
      requires Valid()
      requires forall i :: 0 <= i < |turns| ==>
        (turns[i].Packet? ==> |turns[i].a.data| <= 65535) && (turns[i].Elsewhere? ==> !turns[i].e.Arrive?)
      modifies Footprint()
      ensures Valid() && fresh(Footprint() - old(Footprint()))
      ensures Follows(cfg, old(manager.Abs()), old(writes), EventsOf(turns), manager.Abs(), writes)
      ensures exit == StillReading <==>
        forall i :: 0 <= i < |turns| ==> !turns[i].ListenerClosed? && !turns[i].ReadError?
      ensures exit == Clean <==>
        exists i :: 0 <= i < |turns| && turns[i].ListenerClosed? &&
          forall j :: 0 <= j < i ==> !turns[j].ListenerClosed? && !turns[j].ReadError?
    {
      hide Follows, UDPSessionManager.Valid, UDPSessionManager.Abs;
      ghost var before, sent := manager.Abs(), writes;
      FollowsNone(cfg, before, sent);
      var buf := new byte[if cfg.maxDatagram > 0 then cfg.maxDatagram + 1 else 65535];
      assert turns[..0] == [] && manager.Abs() == before;
      for i := 0 to |turns|
        invariant Valid() && buf !in Footprint() && fresh(Footprint() - old(Footprint()))
        invariant forall j :: 0 <= j < i ==> !Stops(turns[j])
        invariant Follows(cfg, before, sent, EventsOf(turns[..i]), manager.Abs(), writes)
      {
        EventsSoFar(turns, i);
        if turns[i].ListenerClosed? {
          return Clean;
        }
        if turns[i].ReadError? {
          return Failed;
        }
        TakeTurn(turns[i], buf, before, sent, EventsOf(turns[..i]));
      }
      EventsSoFar(turns, |turns|);
      return StillReading;
    }
  }
}
