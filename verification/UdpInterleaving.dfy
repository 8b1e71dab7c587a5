/**
 * Why a datagram may be handled whole: handleDatagram and Create operation by operation, with
 * the steps of any number of expiries in every gap, do what the transducer does with the same
 * datagram, the same steps before or after it, and five phases for the session in use.
 */
module UdpInterleaving {
  import opened Basics
  import opened ProxyProto
  import opened Deciding
  import opened Datagram
  import opened SessionKey
  import opened UdpFlow

  // ---------------------------------------------------------------- what other goroutines do

  predicate OfExpiry(e: Event) {
    e.Expire? || e.ExpireDelete? || e.ExpireSettle?
  }

  function OtherStep(st: State, e: Event): State {
    match e
    case Expire(key, p) => Strike(st, key, p)
    case ExpireDelete(key) => Delete(st, key)
    case ExpireSettle => Settle(st)
    case _ => st
  }

  function Others(st: State, es: seq<Event>): State
    decreases |es|
  {
    if es == [] then st else Others(OtherStep(st, es[0]), es[1..])
  }

  /** expire() deletes its entry once the socket is closed, and gives back a slot only for a deleted entry. */
  predicate Timely(st: State, held: nat, e: Event) {
    match e
    case Expire(_, _) => true
    case ExpireDelete(key) => key in st.sessions && st.sessions[key].phase == CLOSED
    case ExpireSettle => st.count - held > |st.sessions|
    case _ => false
  }

  // The datagram in hand has a session: mine is that session once its entry is deleted.
  datatype World = World(st: State, mine: Option<Session>)

  // What happened in a gap: the steps whose turn it was, in order.
  datatype Gap<S> = Gap(now: S, done: seq<Event>)

  /** A gap while no session is in hand and `held` slots are reserved. */
  function Pass(st: State, held: nat, es: seq<Event>): Gap<State>
    decreases |es|
  {
    if es == [] then Gap(st, [])
    else if Timely(st, held, es[0]) then
      var g := Pass(OtherStep(st, es[0]), held, es[1..]);
      Gap(g.now, [es[0]] + g.done)
    else Pass(st, held, es[1..])
  }

  function HeldStep(key: Key, w: World, e: Event): World {
    var mine := if e == ExpireDelete(key) && key in w.st.sessions then Some(w.st.sessions[key]) else w.mine;
    World(OtherStep(w.st, e), mine)
  }

  /** A gap while the session of `key` is in hand. */
  function PassHeld(key: Key, w: World, es: seq<Event>): Gap<World>
    decreases |es|
  {
    if es == [] then Gap(w, [])
    else if Timely(w.st, 0, es[0]) then
      var g := PassHeld(key, HeldStep(key, w, es[0]), es[1..]);
      Gap(g.now, [es[0]] + g.done)
    else PassHeld(key, w, es[1..])
  }

  predicate InHand(key: Key, w: World) {
    (w.mine.Some? <==> key !in w.st.sessions) && (w.mine.Some? ==> w.mine.value.phase == CLOSED)
  }

  function Mine(key: Key, w: World): Session
    requires InHand(key, w)
  {
    if w.mine.Some? then w.mine.value else w.st.sessions[key]
  }

  function SetMine(key: Key, w: World, s: Session): World {
    if w.mine.Some? then World(w.st, Some(s)) else World(Put(w.st, key, s), None)
  }

  lemma {:induction false} StaysInHand(key: Key, w: World, es: seq<Event>)
    requires InHand(key, w)
    ensures InHand(key, PassHeld(key, w, es).now)
    decreases |es|
  {
    if es == [] {
    } else if Timely(w.st, 0, es[0]) {
      StaysInHand(key, HeldStep(key, w, es[0]), es[1..]);
    } else {
      StaysInHand(key, w, es[1..]);
    }
  }

  // ---------------------------------------------------------------- handleDatagram, operation by operation

  // What others do between the check of done (or of the map) and the load of the stored source;
  // before count.Load, count.Add, LoadOrStore and the check after Create; before the store, the
  // swap of the header flag, the write and the refresh.
  datatype Gaps = Gaps(recover: seq<Event>, load: seq<Event>, add: seq<Event>, publish: seq<Event>,
                       check: seq<Event>, store: seq<Event>, swap: seq<Event>, write: seq<Event>, refresh: seq<Event>)

  datatype Result = Result(st: State, rec: Option<Rec>, write: Option<Write>, done: seq<Event>)

  // StoreInputSource, unless something is stored.
  function WithSource(s: Session, d: Decision): Session {
    s.(input := if d.src != Direct && s.input.None? then Some(Stored(CloneHeader(d.hdr), d.src)) else s.input)
  }

  // headerSent.Swap(true), in first_datagram.
  function Flagged(cfg: Config, s: Session): Session {
    s.(headerSent := s.headerSent || cfg.mode.FirstDatagram?)
  }

  function Refreshed(cfg: Config, s: Session, now: int): Session {
    if Done(s) then s else s.(deadline := now + cfg.idle)
  }

  // A gap, and then a change of the session in hand.
  function PassThen(key: Key, w: World, es: seq<Event>, change: Session -> Session): Gap<World>
    requires InHand(key, w)
  {
    var g := PassHeld(key, w, es);
    StaysInHand(key, w, es);
    Gap(SetMine(key, g.now, change(Mine(key, g.now))), g.done)
  }

  lemma PassThenInHand(key: Key, w: World, es: seq<Event>, change: Session -> Session)
    requires InHand(key, w) && forall s :: change(s).phase == s.phase
    ensures InHand(key, PassThen(key, w, es, change).now)
  {
    StaysInHand(key, w, es);
  }

  // The worlds after step 7, after the swap of step 8, at the write, and after step 10.
  datatype Stations = Stations(stored: Gap<World>, flagged: Gap<World>, atWrite: Gap<World>, refreshed: Gap<World>)

  function Travel(cfg: Config, w: World, a: Arrival, d: Decision, p: ParseResult, g: Gaps): (t: Stations)
    requires p.Parsed? && InHand(KeyOf(a.peer), w)
    ensures var key := KeyOf(a.peer);
      && InHand(key, t.stored.now) && InHand(key, t.flagged.now)
      && InHand(key, t.atWrite.now) && InHand(key, t.refreshed.now)
  {
    var key := KeyOf(a.peer);
    var stored := PassThen(key, w, g.store, s => WithSource(s, d));
    PassThenInHand(key, w, g.store, s => WithSource(s, d));
    var flagged := PassThen(key, stored.now, g.swap, s => Flagged(cfg, s));
    PassThenInHand(key, stored.now, g.swap, s => Flagged(cfg, s));
    var encoded := Encode(cfg, Mine(key, stored.now).headerSent, d.hdr, p.payload);
    var atWrite := PassHeld(key, flagged.now, g.write);
    StaysInHand(key, flagged.now, g.write);
    var refresh := (s: Session) => if encoded.None? then s else Refreshed(cfg, s, a.now);
    PassThenInHand(key, atWrite.now, g.refresh, refresh);
    Stations(stored, flagged, atWrite, PassThen(key, atWrite.now, g.refresh, refresh))
  }

  /** Steps 7 to 10 with the session of the peer's key in hand; `earlier` has happened before. */
  function Deliver(cfg: Config, w: World, a: Arrival, d: Decision, p: ParseResult, g: Gaps, wiped: bool,
                   earlier: seq<Event>): Result
    requires p.Parsed? && InHand(KeyOf(a.peer), w)
  {
    var key, t := KeyOf(a.peer), Travel(cfg, w, a, d, p, g);
    var encoded := Encode(cfg, Mine(key, t.stored.now).headerSent, d.hdr, p.payload);
    var id, shut := Mine(key, t.atWrite.now).id, Mine(key, t.atWrite.now).phase == CLOSED;
    var write := if encoded.None? || shut then None else Some(Write(id, encoded.value));
    var claim := if p.src == Direct then None else Some(p.hdr);
    var rec := Rec(id, key, a.peer, claim, d.hdr, d.src, p.payload, wiped, shut, Done(Mine(key, t.refreshed.now)));
    Result(t.refreshed.now.st, Some(rec), write,
           earlier + (t.stored.done + t.flagged.done + t.atWrite.done + t.refreshed.done))
  }

  // Steps 3 to 10 for a session that was found live.
  function WithSession(cfg: Config, st: State, a: Arrival, p: ParseResult, g: Gaps): Result
    requires p.Parsed? && Live(st, KeyOf(a.peer))
  {
    var key := KeyOf(a.peer);
    var g0 := PassHeld(key, World(st, None), g.recover);
    StaysInHand(key, World(st, None), g.recover);
    var s := Mine(key, g0.now);
    var r := if p.src == Direct && s.input.Some? then s.input.value else Stored(p.hdr, p.src);
    var d := Decide(cfg.policy, cfg.trust, cfg.untrusted, r.src, r.hdr, RemoteIP(a.peer), a.peer, cfg.local);
    if !d.allow then Result(g0.now.st, None, None, g0.done)
    else Deliver(cfg, g0.now, a, d, p, g, s.phase >= CLEARED, g0.done)
  }

  // Steps 3 to 10 without one.
  function WithoutSession(cfg: Config, st: State, a: Arrival, p: ParseResult, g: Gaps): Result
    requires p.Parsed?
  {
    var d := Decide(cfg.policy, cfg.trust, cfg.untrusted, p.src, p.hdr, RemoteIP(a.peer), a.peer, cfg.local);
    var g0 := Pass(st, 0, g.recover);
    if !d.allow || !a.dialOk then Result(g0.now, None, None, g0.done)
    else
      // count.Load
      var g1 := Pass(g0.now, 0, g.load);
      if AtCapacity(cfg, g1.now) then Result(g1.now, None, None, g0.done + g1.done)
      else Admit(cfg, g1.now, a, d, p, g, g0.done + g1.done)
  }

  // count.Add, and what follows.
  function Admit(cfg: Config, st: State, a: Arrival, d: Decision, p: ParseResult, g: Gaps,
                 earlier: seq<Event>): Result
    requires p.Parsed?
  {
    var g2 := Pass(st, 0, g.add);
    var taken := g2.now.(count := g2.now.count + 1);
    if cfg.maxSessions > 0 && taken.count > cfg.maxSessions then Result(g2.now, None, None, earlier + g2.done)
    else
      var g3 := Pass(taken, 1, g.publish);
      Publish(cfg, g3.now, a, d, p, g, earlier + g2.done + g3.done)
  }

  // LoadOrStore, and what follows.
  function Publish(cfg: Config, st: State, a: Arrival, d: Decision, p: ParseResult, g: Gaps,
                   earlier: seq<Event>): Result
    requires p.Parsed?
  {
    var key := KeyOf(a.peer);
    if key in st.sessions then
      // count.Add(-1), and the check of the session that was stored.
      var lost := Pass(st, 1, g.check);
      var back := lost.now.(count := lost.now.count - 1);
      if !Live(back, key) then Result(back, None, None, earlier + lost.done)
      else Deliver(cfg, World(back, None), a, d, p, g, false, earlier + lost.done)
    else
      var made := Session(st.next, ALIVE, None, false, a.now + cfg.idle);
      var w := World(State(st.sessions[key := made], st.count, st.next + 1), None);
      var won := PassHeld(key, w, g.check);
      StaysInHand(key, w, g.check);
      if Done(Mine(key, won.now)) then Result(won.now.st, None, None, earlier + won.done)
      else Deliver(cfg, won.now, a, d, p, g, false, earlier + won.done)
  }

  /** One datagram that is not oversized and parses, from the check of the peer's session on. */
  function Interleaved(cfg: Config, st: State, a: Arrival, g: Gaps): Result
    requires ParseDatagram(a.data).Parsed?
  {
    if Live(st, KeyOf(a.peer)) then WithSession(cfg, st, a, ParseDatagram(a.data), g)
    else WithoutSession(cfg, st, a, ParseDatagram(a.data), g)
  }

  // ---------------------------------------------------------------- the steps of others, moved

  predicate AllOfExpiry(es: seq<Event>) {
    forall i :: 0 <= i < |es| ==> OfExpiry(es[i])
  }

  lemma {:induction false} OthersAppend(st: State, es: seq<Event>, fs: seq<Event>)
    ensures Others(st, es + fs) == Others(Others(st, es), fs)
    decreases |es|
  {
    if es == [] {
      assert [] + fs == fs;
    } else {
      assert (es + fs)[1..] == es[1..] + fs;
      OthersAppend(OtherStep(st, es[0]), es[1..], fs);
    }
  }

  lemma HeldApart(st: State, held: nat, e: Event)
    requires Timely(st.(count := st.count + held), held, e)
    ensures var taken, next := st.(count := st.count + held), OtherStep(st, e);
      OfExpiry(e) && OtherStep(taken, e) == next.(count := next.count + held)
  {}

  /** With one slot held or none, a gap is the plain effect of what happened in it. */
  lemma {:induction false} PassIsOthers(st: State, held: nat, es: seq<Event>)
    ensures AllOfExpiry(Pass(st.(count := st.count + held), held, es).done)
    ensures var g := Pass(st.(count := st.count + held), held, es);
      Others(st, g.done) == g.now.(count := g.now.count - held)
    decreases |es|
  {
    hide Timely, OtherStep;
    var taken := st.(count := st.count + held);
    if es == [] {
    } else if Timely(taken, held, es[0]) {
      HeldApart(st, held, es[0]);
      var rest := Pass(OtherStep(taken, es[0]), held, es[1..]);
      PassIsOthers(OtherStep(st, es[0]), held, es[1..]);
      assert ([es[0]] + rest.done)[1..] == rest.done;
    } else {
      PassIsOthers(st, held, es[1..]);
    }
  }

  /** Others bring no session to life and raise no counter. */
  lemma {:induction false} PassOnlyTakes(st: State, held: nat, es: seq<Event>, key: Key)
    ensures var st' := Pass(st, held, es).now;
      (!Live(st, key) ==> !Live(st', key)) && st'.count <= st.count && st'.next == st.next
    decreases |es|
  {
    if es == [] {
    } else if Timely(st, held, es[0]) {
      PassOnlyTakes(OtherStep(st, es[0]), held, es[1..], key);
    } else {
      PassOnlyTakes(st, held, es[1..], key);
    }
  }

  // The phase that steps es of others bring the session of a key to.
  function PhaseIn(es: seq<Event>, key: Key): Phase {
    if es == [] then ALIVE
    else
      var rest := PhaseIn(es[1..], key);
      if es[0].Expire? && es[0].key == key && es[0].to > rest then es[0].to else rest
  }

  /** The steps es have nothing left to do to s, except to delete its entry if it is closed. */
  predicate Absorbed(es: seq<Event>, key: Key, s: Session) {
    && AllOfExpiry(es)
    && (forall i :: 0 <= i < |es| && es[i].Expire? && es[i].key == key ==> es[i].to <= s.phase)
    && (ExpireDelete(key) in es ==> s.phase == CLOSED)
  }

  // Two states that differ at most in what they have under one key.
  predicate SameBut(key: Key, s: Session, t: Session, f: State, h: State) {
    if key in f.sessions then f.sessions[key] == s && h == Put(f, key, t) else f == h
  }

  lemma StepSameBut(key: Key, s: Session, t: Session, f: State, h: State, e: Event)
    requires SameBut(key, s, t, f, h) && Absorbed([e], key, s) && Absorbed([e], key, t)
    ensures SameBut(key, s, t, OtherStep(f, e), OtherStep(h, e))
  {
    assert [e][0] == e;
    assert e in [e];
    if key in f.sessions {
      assert h.sessions.Keys == f.sessions.Keys;
      assert |h.sessions| == |h.sessions.Keys| && |f.sessions| == |f.sessions.Keys|;
      if e.ExpireDelete? && e.key != key && e.key in f.sessions {
        assert h.sessions - {e.key} == (f.sessions - {e.key})[key := t];
      } else if e.ExpireDelete? && e.key == key {
        assert h.sessions - {key} == f.sessions - {key};
      }
    }
  }

  lemma {:induction false} OthersSameBut(key: Key, s: Session, t: Session, f: State, h: State, es: seq<Event>)
    requires SameBut(key, s, t, f, h) && Absorbed(es, key, s) && Absorbed(es, key, t)
    ensures SameBut(key, s, t, Others(f, es), Others(h, es))
    decreases |es|
  {
    if es == [] {
    } else {
      assert es[0] in es;
      StepSameBut(key, s, t, f, h, es[0]);
      OthersSameBut(key, s, t, OtherStep(f, es[0]), OtherStep(h, es[0]), es[1..]);
    }
  }

  /**
   * The world of a datagram with its session in hand is the state st, with that session as it
   * is now, followed by all that others have done since.
   */
  ghost predicate Since(key: Key, st: State, es: seq<Event>, w: World) {
    && key in st.sessions && InHand(key, w)
    && Absorbed(es, key, Mine(key, w))
    && w.st == Others(Put(st, key, Mine(key, w)), es)
  }

  lemma SinceStart(key: Key, st: State)
    requires key in st.sessions
    ensures Since(key, st, [], World(st, None))
  {
    assert Put(st, key, st.sessions[key]) == st;
  }

  /** Replacing the session in hand by one no less far in its expiry. */
  lemma SinceSet(key: Key, st: State, es: seq<Event>, w: World, s: Session)
    requires Since(key, st, es, w) && s.phase >= Mine(key, w).phase
    ensures InHand(key, SetMine(key, w, s))
    ensures Since(key, st, es, SetMine(key, w, s)) && Mine(key, SetMine(key, w, s)) == s
  {
    var was := Mine(key, w);
    var f, h := Put(st, key, was), Put(st, key, s);
    assert h == Put(f, key, s);
    OthersSameBut(key, was, s, f, h, es);
  }

  lemma AbsorbedAppend(es: seq<Event>, fs: seq<Event>, key: Key, s: Session)
    requires Absorbed(es, key, s) && Absorbed(fs, key, s)
    ensures Absorbed(es + fs, key, s)
  {}

  /** One step of others, with the session in hand. */
  lemma SinceStep(key: Key, st: State, es: seq<Event>, w: World, e: Event)
    requires Since(key, st, es, w) && Timely(w.st, 0, e)
    ensures InHand(key, w) && InHand(key, HeldStep(key, w, e)) && Since(key, st, es + [e], HeldStep(key, w, e))
    ensures Mine(key, HeldStep(key, w, e)) == Raise(Mine(key, w), PhaseIn([e], key))
  {
    assert [e][1..] == [] && PhaseIn([], key) == ALIVE;
    var s := Raise(Mine(key, w), PhaseIn([e], key));
    SinceSet(key, st, es, w, s);
    AbsorbedOne(key, w, e, s);
    AbsorbedAppend(es, [e], key, s);
    OthersAppend(Put(st, key, s), es, [e]);
    var v := SetMine(key, w, s).st;
    assert Others(v, [e]) == OtherStep(v, e) by {
      assert Others(OtherStep(v, e), []) == OtherStep(v, e);
    }
    HeldStepIs(key, w, e, s);
  }

  lemma AbsorbedOne(key: Key, w: World, e: Event, s: Session)
    requires InHand(key, w) && Timely(w.st, 0, e) && s == Raise(Mine(key, w), PhaseIn([e], key))
    ensures Absorbed([e], key, s)
  {
    assert [e][1..] == [] && PhaseIn([], key) == ALIVE;
  }

  lemma HeldStepIs(key: Key, w: World, e: Event, s: Session)
    requires InHand(key, w) && Timely(w.st, 0, e) && s == Raise(Mine(key, w), PhaseIn([e], key))
    ensures HeldStep(key, w, e).st == OtherStep(SetMine(key, w, s).st, e)
    ensures InHand(key, HeldStep(key, w, e)) && Mine(key, HeldStep(key, w, e)) == s
  {
    assert [e][1..] == [] && PhaseIn([], key) == ALIVE;
  }

  lemma RaiseTwice(s: Session, p: Phase, q: Phase)
    ensures Raise(Raise(s, p), q) == Raise(s, if p < q then q else p)
  {}

  lemma PhaseOfCons(e: Event, es: seq<Event>, key: Key)
    ensures var p, q := PhaseIn([e], key), PhaseIn(es, key);
      PhaseIn([e] + es, key) == if p < q then q else p
  {
    assert ([e] + es)[1..] == es && [e][1..] == [];
  }

  /** A whole gap, with the session in hand. */
  lemma {:induction false} SincePass(key: Key, st: State, es: seq<Event>, w: World, fs: seq<Event>)
    requires Since(key, st, es, w)
    ensures var g := PassHeld(key, w, fs);
      && InHand(key, w) && InHand(key, g.now) && Since(key, st, es + g.done, g.now)
      && Mine(key, g.now) == Raise(Mine(key, w), PhaseIn(g.done, key))
    decreases |fs|
  {
    hide Since, PhaseIn, HeldStep, Timely;
    if fs == [] {
      assert es + [] == es;
      NothingRaises(key, st, es, w);
    } else if Timely(w.st, 0, fs[0]) {
      var e, w1 := fs[0], HeldStep(key, w, fs[0]);
      var rest := PassHeld(key, w1, fs[1..]);
      SinceStep(key, st, es, w, e);
      SincePass(key, st, es + [e], w1, fs[1..]);
      assert es + [e] + rest.done == es + ([e] + rest.done);
      RaisedAlong(key, st, es, w, w1, e, rest.done);
    } else {
      SincePass(key, st, es, w, fs[1..]);
    }
  }

  lemma NothingRaises(key: Key, st: State, es: seq<Event>, w: World)
    requires Since(key, st, es, w)
    ensures InHand(key, w) && Mine(key, w) == Raise(Mine(key, w), PhaseIn([], key))
  {}

  lemma RaisedAlong(key: Key, st: State, es: seq<Event>, w: World, w1: World, e: Event, rest: seq<Event>)
    requires InHand(key, w) && InHand(key, w1) && Mine(key, w1) == Raise(Mine(key, w), PhaseIn([e], key))
    ensures Raise(Mine(key, w1), PhaseIn(rest, key)) == Raise(Mine(key, w), PhaseIn([e] + rest, key))
  {
    RaiseTwice(Mine(key, w), PhaseIn([e], key), PhaseIn(rest, key));
    PhaseOfCons(e, rest, key);
  }

  // ---------------------------------------------------------------- steps 7 to 10

  lemma SinceThen(key: Key, st: State, es: seq<Event>, w: World, fs: seq<Event>, change: Session -> Session)
    requires Since(key, st, es, w) && forall s :: change(s).phase == s.phase
    ensures InHand(key, w)
    ensures var g := PassThen(key, w, fs, change);
      && InHand(key, g.now) && Since(key, st, es + g.done, g.now)
      && Mine(key, g.now) == change(Raise(Mine(key, w), PhaseIn(g.done, key)))
  {
    SincePass(key, st, es, w, fs);
    hide Since, PassHeld, PhaseIn, Raise;
    var g := PassHeld(key, w, fs);
    SinceSet(key, st, es + g.done, g.now, change(Mine(key, g.now)));
  }

  // The session through four gaps in which its expiry gets to p1, p2, p3 and p4.
  lemma ServedInSteps(cfg: Config, s: Session, a: Arrival, d: Decision, p: ParseResult, p2: Phase, p3: Phase)
    requires p.Parsed? && a.hit.write == if p2 < p3 then p3 else p2
    ensures var s1 := WithSource(Raise(s, a.hit.store), d);
      var s3 := Raise(Flagged(cfg, Raise(s1, p2)), p3);
      var s4 := Raise(s3, a.hit.refresh);
      && Prepared(cfg, s, a, d) == s3
      && Served(cfg, s, a, d, p) ==
         (if Encode(cfg, s1.headerSent, d.hdr, p.payload).None? then s4 else Refreshed(cfg, s4, a.now))
      && s3.id == s.id && s1.headerSent == s.headerSent
  {
    hide Encode, CloneHeader;
  }

  lemma PhaseOfSource(d: Decision)
    ensures forall s :: WithSource(s, d).phase == s.phase
  {}

  lemma PhaseOfFlag(cfg: Config)
    ensures forall s :: Flagged(cfg, s).phase == s.phase
  {}

  lemma PhaseOfRefresh(cfg: Config, now: int)
    ensures forall s :: Refreshed(cfg, s, now).phase == s.phase
  {}

  lemma SinceTravel(cfg: Config, st: State, es: seq<Event>, w: World, a: Arrival, d: Decision, p: ParseResult, g: Gaps)
    requires p.Parsed? && Since(KeyOf(a.peer), st, es, w)
    ensures InHand(KeyOf(a.peer), w)
    ensures var key, t := KeyOf(a.peer), Travel(cfg, w, a, d, p, g);
      && Since(key, st, es + (t.stored.done + t.flagged.done + t.atWrite.done + t.refreshed.done), t.refreshed.now)
      && var encoded := Encode(cfg, Mine(key, t.stored.now).headerSent, d.hdr, p.payload);
         var s4 := Raise(Mine(key, t.atWrite.now), PhaseIn(t.refreshed.done, key));
         && Mine(key, t.stored.now) == WithSource(Raise(Mine(key, w), PhaseIn(t.stored.done, key)), d)
         && Mine(key, t.flagged.now) == Flagged(cfg, Raise(Mine(key, t.stored.now), PhaseIn(t.flagged.done, key)))
         && Mine(key, t.atWrite.now) == Raise(Mine(key, t.flagged.now), PhaseIn(t.atWrite.done, key))
         && Mine(key, t.refreshed.now) == if encoded.None? then s4 else Refreshed(cfg, s4, a.now)
  {
    hide PassHeld, PassThen, Encode, Raise, PhaseIn, WithSource, Flagged, Refreshed;
    var key := KeyOf(a.peer);
    SinceMeans(key, st, es, w);
    hide Since, InHand, Mine;
    var t := Travel(cfg, w, a, d, p, g);
    PhaseOfSource(d);
    SinceThen(key, st, es, w, g.store, s => WithSource(s, d));
    PhaseOfFlag(cfg);
    SinceThen(key, st, es + t.stored.done, t.stored.now, g.swap, s => Flagged(cfg, s));
    SincePass(key, st, es + t.stored.done + t.flagged.done, t.flagged.now, g.write);
    var encoded := Encode(cfg, Mine(key, t.stored.now).headerSent, d.hdr, p.payload);
    PhaseOfRefresh(cfg, a.now);
    SinceThen(key, st, es + t.stored.done + t.flagged.done + t.atWrite.done, t.atWrite.now, g.refresh,
              s => if encoded.None? then s else Refreshed(cfg, s, a.now));
    assert es + t.stored.done + t.flagged.done + t.atWrite.done + t.refreshed.done
        == es + (t.stored.done + t.flagged.done + t.atWrite.done + t.refreshed.done);
  }

  /** Steps 7 to 10 do to the session in hand what the transducer does at once. */
  lemma DeliverIsForward(cfg: Config, st: State, es: seq<Event>, w: World, a: Arrival, d: Decision, p: ParseResult,
                         g: Gaps, wiped: bool, earlier: seq<Event>, recover: Phase, create: Phase)
    returns (hit: Hit, post: seq<Event>)
    requires p.Parsed? && Since(KeyOf(a.peer), st, es, w) && wiped == (Mine(KeyOf(a.peer), w).phase >= CLEARED)
    ensures hit.recover == recover && hit.create == create
    ensures var key, b := KeyOf(a.peer), a.(hit := hit);
      var r, s := Deliver(cfg, w, a, d, p, g, wiped, earlier), Mine(key, w);
      && r.done == earlier + post && AllOfExpiry(es + post)
      && r.st == Others(Put(st, key, Served(cfg, s, b, d, p)), es + post)
      && r.rec == Some(RecordFor(cfg, s, b, d, p))
      && r.write == Sending(cfg, s, b, d, p)
  {
    hide PassHeld, PassThen, Served, Prepared, Encode, Raise, PhaseIn, WithSource, Flagged, Refreshed;
    var key := KeyOf(a.peer);
    SinceTravel(cfg, st, es, w, a, d, p, g);
    var s, t := Mine(key, w), Travel(cfg, w, a, d, p, g);
    var p2, p3 := PhaseIn(t.flagged.done, key), PhaseIn(t.atWrite.done, key);
    hit := Hit(recover, create, PhaseIn(t.stored.done, key), if p2 < p3 then p3 else p2,
               PhaseIn(t.refreshed.done, key));
    post := t.stored.done + t.flagged.done + t.atWrite.done + t.refreshed.done;
    ServedInSteps(cfg, s, a.(hit := hit), d, p, p2, p3);
    SinceMeans(key, st, es + post, t.refreshed.now);
    hide Since, Mine, InHand;
  }

  lemma SinceMeans(key: Key, st: State, es: seq<Event>, w: World)
    requires Since(key, st, es, w)
    ensures InHand(key, w) && AllOfExpiry(es) && w.st == Others(Put(st, key, Mine(key, w)), es)
  {}

  // ---------------------------------------------------------------- the whole datagram

  /** What happens in the interleaving is: `before`, the datagram whole with these phases, `after`. */
  ghost predicate Whole(cfg: Config, st: State, a: Arrival, r: Result, before: seq<Event>, hit: Hit,
                        after: seq<Event>) {
    && r.done == before + after && AllOfExpiry(r.done)
    && var o := Handle(cfg, Others(st, before), a.(hit := hit));
       r.st == Others(o.st, after) && r.rec == o.rec && r.write == o.write
  }

  lemma PutTwice(st: State, key: Key, s: Session, t: Session)
    ensures Put(Put(st, key, s), key, t) == Put(st, key, t)
  {}

  // The datagram of a live session, seen by the transducer.
  lemma LiveHandled(cfg: Config, st: State, a: Arrival, s: Session)
    requires !Oversized(cfg, a) && ParseDatagram(a.data).Parsed? && Live(st, KeyOf(a.peer))
    requires s == Raise(st.sessions[KeyOf(a.peer)], a.hit.recover)
    ensures var p, key := ParseDatagram(a.data), KeyOf(a.peer);
      var r := if p.src == Direct && s.input.Some? then s.input.value else Stored(p.hdr, p.src);
      var d := Decide(cfg.policy, cfg.trust, cfg.untrusted, r.src, r.hdr, RemoteIP(a.peer), a.peer, cfg.local);
      Handle(cfg, st, a) ==
      if !d.allow then Outcome(Put(st, key, s), None, None)
      else Outcome(Put(st, key, Served(cfg, s, a, d, p)), Some(RecordFor(cfg, s, a, d, p)), Sending(cfg, s, a, d, p))
  {
    hide ParseDatagram, Decide, Served, RecordFor, Sending, Raise;
    var key := KeyOf(a.peer);
    assert Looked(st, a) == Put(st, key, s);
    forall t {
      PutTwice(st, key, s, t);
    }
  }

  lemma LiveInterleaving(cfg: Config, st: State, a: Arrival, g: Gaps)
    returns (before: seq<Event>, hit: Hit, after: seq<Event>)
    requires !Oversized(cfg, a) && ParseDatagram(a.data).Parsed? && Live(st, KeyOf(a.peer))
    ensures Whole(cfg, st, a, Interleaved(cfg, st, a, g), before, hit, after)
  {
    var p, key := ParseDatagram(a.data), KeyOf(a.peer);
    hide ParseDatagram, KeyOf, Served, RecordFor, Sending, Deliver, PassHeld, Since, PhaseIn, Decide, Raise, Handle;
    var w := World(st, None);
    SinceStart(key, st);
    SincePass(key, st, [], w, g.recover);
    var g0 := PassHeld(key, w, g.recover);
    assert [] + g0.done == g0.done;
    SinceMeans(key, st, g0.done, g0.now);
    var s := Mine(key, g0.now);
    var r := if p.src == Direct && s.input.Some? then s.input.value else Stored(p.hdr, p.src);
    var d := Decide(cfg.policy, cfg.trust, cfg.untrusted, r.src, r.hdr, RemoteIP(a.peer), a.peer, cfg.local);
    before, hit, after := [], Hit(PhaseIn(g0.done, key), ALIVE, ALIVE, ALIVE, ALIVE), g0.done;
    if d.allow {
      hit, after := DeliverIsForward(cfg, st, g0.done, g0.now, a, d, p, g, s.phase >= CLEARED, g0.done,
                                     hit.recover, ALIVE);
      after := g0.done + after;
    }
    LiveHandled(cfg, st, a.(hit := hit), s);
    assert [] + after == after;
  }

  // What Decide says of a datagram whose peer has no live session.
  function Own(cfg: Config, a: Arrival): Decision
    requires ParseDatagram(a.data).Parsed?
  {
    var p := ParseDatagram(a.data);
    Decide(cfg.policy, cfg.trust, cfg.untrusted, p.src, p.hdr, RemoteIP(a.peer), a.peer, cfg.local)
  }

  lemma DroppedHandled(cfg: Config, st: State, a: Arrival)
    requires !Oversized(cfg, a) && ParseDatagram(a.data).Parsed? && !Live(st, KeyOf(a.peer))
    requires !Own(cfg, a).allow || !a.dialOk || AtCapacity(cfg, st) || KeyOf(a.peer) in st.sessions
    ensures Handle(cfg, st, a) == Outcome(st, None, None)
  {
    hide ParseDatagram, Decide, KeyOf;
  }

  lemma FreshHandled(cfg: Config, st: State, a: Arrival)
    requires !Oversized(cfg, a) && ParseDatagram(a.data).Parsed? && KeyOf(a.peer) !in st.sessions
    requires Own(cfg, a).allow && a.dialOk && !AtCapacity(cfg, st)
    ensures var p, d, key := ParseDatagram(a.data), Own(cfg, a), KeyOf(a.peer);
      var st1 := Insert(cfg, st, key, a.now);
      var s := Raise(st1.sessions[key], a.hit.create);
      Handle(cfg, st, a) ==
      if Done(s) then Outcome(Put(st1, key, s), None, None)
      else Outcome(Put(st1, key, Served(cfg, s, a, d, p)), Some(RecordFor(cfg, s, a, d, p)), Sending(cfg, s, a, d, p))
  {
    hide ParseDatagram, Decide, KeyOf, Served, RecordFor, Sending;
    var key, st1 := KeyOf(a.peer), Insert(cfg, st, KeyOf(a.peer), a.now);
    var s := Raise(st1.sessions[key], a.hit.create);
    forall t {
      PutTwice(st1, key, s, t);
    }
  }

  // A gap after others.
  lemma ThenPass(st: State, before: seq<Event>, now: State, held: nat, es: seq<Event>)
    requires now == Others(st, before) && AllOfExpiry(before)
    ensures var g := Pass(now.(count := now.count + held), held, es);
      && AllOfExpiry(before + g.done)
      && Others(st, before + g.done) == g.now.(count := g.now.count - held)
  {
    PassIsOthers(now, held, es);
    OthersAppend(st, before, Pass(now.(count := now.count + held), held, es).done);
  }

  lemma PublishInterleaving(cfg: Config, st: State, a: Arrival, g: Gaps, before: seq<Event>, now: State)
    returns (hit: Hit, after: seq<Event>)
    requires !Oversized(cfg, a) && ParseDatagram(a.data).Parsed? && Own(cfg, a).allow && a.dialOk
    requires now == Others(st, before) && AllOfExpiry(before) && !Live(now, KeyOf(a.peer)) && !AtCapacity(cfg, now)
    ensures var r := Publish(cfg, now.(count := now.count + 1), a, Own(cfg, a), ParseDatagram(a.data), g, before);
      Whole(cfg, st, a, r, before, hit, after)
  {
    hide ParseDatagram, KeyOf, Decide, Handle, Deliver, Served, RecordFor, Sending;
    hide Since, PassHeld, Pass, PhaseIn, Raise;
    var key := KeyOf(a.peer);
    if key in now.sessions {
      hit := NO_HIT;
      var taken := now.(count := now.count + 1);
      after := Pass(taken, 1, g.check).done;
      PassIsOthers(now, 1, g.check);
      PassOnlyTakes(taken, 1, g.check, key);
      DroppedHandled(cfg, now, a.(hit := hit));
    } else {
      var st1 := Insert(cfg, now, key, a.now);
      SinceStart(key, st1);
      SincePass(key, st1, [], World(st1, None), g.check);
      var won := PassHeld(key, World(st1, None), g.check);
      assert [] + won.done == won.done;
      SinceMeans(key, st1, won.done, won.now);
      var s := Mine(key, won.now);
      hit, after := Hit(ALIVE, PhaseIn(won.done, key), ALIVE, ALIVE, ALIVE), won.done;
      if !Done(s) {
        hit, after := DeliverIsForward(cfg, st1, won.done, won.now, a, Own(cfg, a), ParseDatagram(a.data), g, false,
                                       before + won.done, ALIVE, hit.create);
        assert before + won.done + after == before + (won.done + after);
        after := won.done + after;
      }
      FreshHandled(cfg, now, a.(hit := hit));
    }
  }

  lemma AdmitInterleaving(cfg: Config, st: State, a: Arrival, g: Gaps, earlier: seq<Event>, now: State)
    returns (before: seq<Event>, hit: Hit, after: seq<Event>)
    requires !Oversized(cfg, a) && ParseDatagram(a.data).Parsed? && Own(cfg, a).allow && a.dialOk
    requires now == Others(st, earlier) && AllOfExpiry(earlier) && !Live(now, KeyOf(a.peer)) && !AtCapacity(cfg, now)
    ensures Whole(cfg, st, a, Admit(cfg, now, a, Own(cfg, a), ParseDatagram(a.data), g, earlier), before, hit, after)
  {
    hide ParseDatagram, KeyOf, Decide, Handle, Publish, Pass;
    var key := KeyOf(a.peer);
    var g2 := Pass(now, 0, g.add);
    PassOnlyTakes(now, 0, g.add, key);
    ThenPass(st, earlier, now, 0, g.add);
    var taken := g2.now.(count := g2.now.count + 1);
    var g3 := Pass(taken, 1, g.publish);
    PassOnlyTakes(taken, 1, g.publish, key);
    ThenPass(st, earlier + g2.done, g2.now, 1, g.publish);
    before := earlier + g2.done + g3.done;
    hide Whole, Own;
    hit, after := PublishInterleaving(cfg, st, a, g, before, g3.now.(count := g3.now.count - 1));
  }

  lemma FreshInterleaving(cfg: Config, st: State, a: Arrival, g: Gaps)
    returns (before: seq<Event>, hit: Hit, after: seq<Event>)
    requires !Oversized(cfg, a) && ParseDatagram(a.data).Parsed? && !Live(st, KeyOf(a.peer))
    ensures Whole(cfg, st, a, Interleaved(cfg, st, a, g), before, hit, after)
  {
    hide ParseDatagram, KeyOf, Decide, Handle, Admit, Pass;
    var key := KeyOf(a.peer);
    hit, after := NO_HIT, [];
    var g0 := Pass(st, 0, g.recover);
    PassOnlyTakes(st, 0, g.recover, key);
    ThenPass(st, [], st, 0, g.recover);
    before := g0.done;
    assert [] + before == before && before + [] == before;
    if !Own(cfg, a).allow || !a.dialOk {
      DroppedHandled(cfg, g0.now, a.(hit := hit));
    } else {
      var g1 := Pass(g0.now, 0, g.load);
      PassOnlyTakes(g0.now, 0, g.load, key);
      ThenPass(st, before, g0.now, 0, g.load);
      before := before + g1.done;
      assert before + [] == before;
      if AtCapacity(cfg, g1.now) {
        DroppedHandled(cfg, g1.now, a.(hit := hit));
      } else {
        before, hit, after := AdmitInterleaving(cfg, st, a, g, before, g1.now);
      }
    }
  }

  /**
   * Whatever other goroutines do to any session between the operations of a datagram, there are
   * five phases with which the transducer, handling the datagram whole, ends in the same state,
   * with the same record and the same write; what the others did keeps its order.
   */
  lemma InterleavingIsWhole(cfg: Config, st: State, a: Arrival, g: Gaps)
    returns (before: seq<Event>, hit: Hit, after: seq<Event>)
    requires !Oversized(cfg, a) && ParseDatagram(a.data).Parsed?
    ensures Whole(cfg, st, a, Interleaved(cfg, st, a, g), before, hit, after)
  {
    hide Whole, Interleaved, ParseDatagram, KeyOf;
    if Live(st, KeyOf(a.peer)) {
      before, hit, after := LiveInterleaving(cfg, st, a, g);
    } else {
      before, hit, after := FreshInterleaving(cfg, st, a, g);
    }
  }

  // ---------------------------------------------------------------- as a run

  lemma {:induction false} OthersIsExec(cfg: Config, r: Run, es: seq<Event>)
    requires AllOfExpiry(es)
    ensures Exec(cfg, r, es) == r.(st := Others(r.st, es))
    decreases |es|
  {
    if es == [] {
    } else {
      OthersIsExec(cfg, r.(st := OtherStep(r.st, es[0])), es[1..]);
      assert r.recs + [] == r.recs && r.writes + [] == r.writes;
    }
  }

  lemma {:induction false} ExecAppend(cfg: Config, r: Run, es: seq<Event>, fs: seq<Event>)
    ensures Exec(cfg, r, es + fs) == Exec(cfg, Exec(cfg, r, es), fs)
    decreases |es|
  {
    if es == [] {
      assert [] + fs == fs;
    } else {
      assert (es + fs)[1..] == es[1..] + fs;
      ExecAppend(cfg, Advance(cfg, r, es[0]), es[1..], fs);
    }
  }

  /** So every interleaved datagram is a run of the transducer. */
  lemma InterleavingIsRun(cfg: Config, r: Run, a: Arrival, g: Gaps)
    returns (before: seq<Event>, hit: Hit, after: seq<Event>)
    requires !Oversized(cfg, a) && ParseDatagram(a.data).Parsed?
    ensures before + after == Interleaved(cfg, r.st, a, g).done
    ensures var i := Interleaved(cfg, r.st, a, g);
      Exec(cfg, r, before + [Arrive(a.(hit := hit))] + after) ==
      Run(i.st, r.recs + ToSeq(i.rec), r.writes + ToSeq(i.write))
  {
    before, hit, after := InterleavingIsWhole(cfg, r.st, a, g);
    hide Interleaved, Handle, ParseDatagram;
    var e := Arrive(a.(hit := hit));
    assert forall i :: 0 <= i < |before| ==> (before + after)[i] == before[i];
    assert forall i :: 0 <= i < |after| ==> (before + after)[|before| + i] == after[i];
    OthersIsExec(cfg, r, before);
    var r1 := r.(st := Others(r.st, before));
    ExecAppend(cfg, r, before + [e], after);
    ExecAppend(cfg, r, before, [e]);
    assert Exec(cfg, r1, [e]) == Advance(cfg, r1, e) by {
      assert [e][1..] == [];
    }
    OthersIsExec(cfg, Advance(cfg, r1, e), after);
  }
}
