/** What holds in every interleaving of the UDP session machine. */
module SessionSafety {
  import opened Basics
  import opened SessionKey
  import opened SessionMachine

  // ---------------------------------------------------------------- one action on one attempt

  predicate OnAttempt(act: Action) {
    !(act.Dial? || act.ExpireAll? || act.Visit? || act.Visited? || act.RangeEnd? || act.WaitEnd?)
  }

  function StepOf(c: Config, st: State, act: Action): Effect
    requires OnAttempt(act) && Enabled(c, st, act)
  {
    EffectOf(c, st.count, st.sessions, act, act.a, st.att[act.a])
  }

  lemma LocalAt(c: Config, count: int, sessions: map<Key, nat>, act: Action, a: nat, x: Attempt)
    requires !c.early && OnAttempt(act) && EnabledAt(c, act, a, x) && Local(a, x)
    requires x.key in sessions && x.stage.Made? ==> sessions[x.key] != a
    ensures Local(a, EffectOf(c, count, sessions, act, a, x).x)
  {}

  function Held(x: Attempt): nat {
    Indicator(IsReserved(x)) + Indicator(IsLost(x)) + Indicator(IsDeleted(x))
  }

  function MapChange(op: MapOp): int {
    match op
    case Keep => 0
    case Store => 1
    case Remove => -1
  }

  /** The counter moves with the tickets; a ticket is only ever issued within the limit. */
  lemma Balanced(c: Config, count: int, sessions: map<Key, nat>, act: Action, a: nat, x: Attempt)
    requires !c.early && OnAttempt(act) && EnabledAt(c, act, a, x) && Local(a, x)
    ensures var e := EffectOf(c, count, sessions, act, a, x);
      var tickets := Held(e.x) - Held(x) + MapChange(e.op);
      && e.count == tickets + Indicator(IsOver(e.x)) - Indicator(IsOver(x))
      && (tickets > 0 && c.maxSessions > 0 ==> count + e.count <= c.maxSessions)
      && e.wg == Indicator(IsReading(e.x)) - Indicator(IsReading(x))
  {}

  lemma MapMoves(c: Config, st: State, act: Action)
    requires !c.early && OnAttempt(act) && Enabled(c, st, act) && Local(act.a, st.att[act.a])
    ensures var e := StepOf(c, st, act);
      var x := st.att[act.a];
      && e.x.key == x.key
      && (e.op == Keep ==> Listed(act.a, e.x) == Listed(act.a, x))
      && (e.op == Store ==> !Listed(act.a, x) && Listed(act.a, e.x) && x.key !in st.sessions)
      && (e.op == Remove ==> Listed(act.a, x) && !Listed(act.a, e.x))
  {}

  // ---------------------------------------------------------------- one action on the manager

  lemma OwnedAfter(st: State, a: nat, e: Effect)
    requires Owned(st) && a in st.att && e.x.key == st.att[a].key
    requires e.op == Keep ==> Listed(a, e.x) == Listed(a, st.att[a])
    requires e.op == Store ==> !Listed(a, st.att[a]) && Listed(a, e.x) && e.x.key !in st.sessions
    requires e.op == Remove ==> Listed(a, st.att[a]) && !Listed(a, e.x)
    ensures Owned(Affect(st, a, e))
  {}

  lemma SizeAfter(st: State, a: nat, e: Effect)
    requires Owned(st) && a in st.att && e.x.key == st.att[a].key
    requires e.op == Store ==> e.x.key !in st.sessions
    requires e.op == Remove ==> Listed(a, st.att[a])
    ensures |Affect(st, a, e).sessions| == |st.sessions| + MapChange(e.op)
  {
    var k, m := e.x.key, st.sessions;
    assert m[k := a].Keys == m.Keys + {k} && (m - {k}).Keys == m.Keys - {k};
    assert |m[k := a]| == |m[k := a].Keys| && |m| == |m.Keys| && |m - {k}| == |(m - {k}).Keys|;
  }

  /** All five tallies at once. */
  lemma TallyAll(m: map<nat, Attempt>, a: nat, x: Attempt)
    requires a in m
    ensures var m' := m[a := x];
      && Tally(m', IsReserved) + Tally(m', IsLost) + Tally(m', IsDeleted) ==
         Tally(m, IsReserved) + Tally(m, IsLost) + Tally(m, IsDeleted) + Held(x) - Held(m[a])
      && Tally(m', IsOver) == Tally(m, IsOver) - Indicator(IsOver(m[a])) + Indicator(IsOver(x))
      && Tally(m', IsReading) == Tally(m, IsReading) - Indicator(IsReading(m[a])) + Indicator(IsReading(x))
  {
    TallyPut(m, a, x, IsReserved);
    TallyPut(m, a, x, IsLost);
    TallyPut(m, a, x, IsDeleted);
    TallyPut(m, a, x, IsOver);
    TallyPut(m, a, x, IsReading);
  }

  // A session that LoadOrStore is about to offer is not stored yet.
  lemma NotYetStored(st: State, a: nat)
    requires Owned(st) && a in st.att && st.att[a].stage.Made?
    ensures st.att[a].key in st.sessions ==> st.sessions[st.att[a].key] != a
  {}

  lemma ActingStaysLocal(c: Config, st: State, act: Action)
    requires !c.early && Inv(c, st) && OnAttempt(act) && Enabled(c, st, act)
    ensures Local(act.a, StepOf(c, st, act).x)
  {
    hide Local, EffectOf, Accounted, Owned, EnabledAt;
    if st.att[act.a].stage.Made? {
      NotYetStored(st, act.a);
    }
    LocalAt(c, st.count, st.sessions, act, act.a, st.att[act.a]);
  }

  lemma AttemptStepLocal(c: Config, st: State, act: Action)
    requires !c.early && Inv(c, st) && OnAttempt(act) && Enabled(c, st, act)
    ensures forall a :: a in Apply(c, st, act).att ==> Local(a, Apply(c, st, act).att[a])
  {
    hide Local, EffectOf, Accounted, Owned, EnabledAt;
    ActingStaysLocal(c, st, act);
    var st' := Apply(c, st, act);
    forall a | a in st'.att ensures Local(a, st'.att[a]) {
      if a != act.a {
        assert st'.att[a] == st.att[a];
      }
    }
  }

  lemma AttemptStepOwned(c: Config, st: State, act: Action)
    requires !c.early && Inv(c, st) && OnAttempt(act) && Enabled(c, st, act)
    ensures Owned(Apply(c, st, act))
  {
    MapMoves(c, st, act);
    OwnedAfter(st, act.a, StepOf(c, st, act));
  }

  lemma AccountedAfter(c: Config, st: State, a: nat, e: Effect)
    requires Accounted(c, st) && a in st.att
    requires |Affect(st, a, e).sessions| == |st.sessions| + MapChange(e.op)
    requires var tickets := Held(e.x) - Held(st.att[a]) + MapChange(e.op);
      && e.count == tickets + Indicator(IsOver(e.x)) - Indicator(IsOver(st.att[a]))
      && (tickets > 0 && c.maxSessions > 0 ==> st.count + e.count <= c.maxSessions)
      && e.wg == Indicator(IsReading(e.x)) - Indicator(IsReading(st.att[a]))
    ensures Accounted(c, Affect(st, a, e))
  {
    hide Held, MapChange;
    TallyAll(st.att, a, e.x);
  }

  lemma AttemptStepAccounted(c: Config, st: State, act: Action)
    requires !c.early && Inv(c, st) && OnAttempt(act) && Enabled(c, st, act)
    ensures Accounted(c, Apply(c, st, act))
  {
    hide Local, EffectOf, EnabledAt, Owned;
    var a := act.a;
    var x, e := st.att[a], StepOf(c, st, act);
    MapMoves(c, st, act);
    Balanced(c, st.count, st.sessions, act, a, x);
    SizeAfter(st, a, e);
    hide Listed, Held;
    AccountedAfter(c, st, a, e);
  }

  lemma ShutdownStepKeeps(c: Config, st: State, act: Action)
    requires Inv(c, st) && !OnAttempt(act) && !act.Dial? && Enabled(c, st, act)
    ensures Inv(c, Apply(c, st, act))
  {}

  lemma DialKeeps(c: Config, st: State, a: nat, key: Key)
    requires Inv(c, st) && a !in st.att
    ensures Inv(c, Apply(c, st, Dial(a, key)))
  {
    var x := Attempt(key, Dialed, Fresh, NotStarted, false, 0);
    TallyPut(st.att, a, x, IsReserved);
    TallyPut(st.att, a, x, IsLost);
    TallyPut(st.att, a, x, IsDeleted);
    TallyPut(st.att, a, x, IsOver);
    TallyPut(st.att, a, x, IsReading);
  }

  /** Every action keeps the invariant. */
  lemma StepKeeps(c: Config, st: State, act: Action)
    requires !c.early && Inv(c, st) && Enabled(c, st, act)
    ensures Inv(c, Apply(c, st, act))
  {
    if OnAttempt(act) {
      AttemptStepLocal(c, st, act);
      AttemptStepOwned(c, st, act);
      AttemptStepAccounted(c, st, act);
    } else if act.Dial? {
      DialKeeps(c, st, act.a, act.key);
    } else {
      ShutdownStepKeeps(c, st, act);
    }
  }

  lemma StartHolds(c: Config)
    ensures Inv(c, START)
  {}

  lemma {:induction false} RunKeeps(c: Config, st: State, acts: seq<Action>)
    requires !c.early && Inv(c, st) && Exec(c, st, acts).Some?
    ensures Inv(c, Exec(c, st, acts).value)
    decreases |acts|
  {
    if acts == [] {
    } else {
      StepKeeps(c, st, acts[0]);
      RunKeeps(c, Apply(c, st, acts[0]), acts[1..]);
    }
  }

  // ---------------------------------------------------------------- safety of every run

  ghost predicate Reachable(c: Config, st: State) {
    exists acts :: Exec(c, START, acts) == Some(st)
  }

  lemma ReachableInv(c: Config, st: State)
    requires !c.early && Reachable(c, st)
    ensures Inv(c, st)
  {
    var acts :| Exec(c, START, acts) == Some(st);
    StartHolds(c);
    RunKeeps(c, START, acts);
  }

  /** The counter, in every reachable state: what it counts, and what a limit bounds. */
  lemma Accounting(c: Config, st: State)
    requires !c.early && Reachable(c, st)
    ensures st.count == |st.sessions| + Tally(st.att, IsReserved) + Tally(st.att, IsLost)
                        + Tally(st.att, IsOver) + Tally(st.att, IsDeleted)
    ensures c.maxSessions > 0 ==> |st.sessions| <= c.maxSessions
  {
    ReachableInv(c, st);
  }

  // No creator between DialUDP and the end of Create.
  predicate Settled(x: Attempt) {
    x.stage.Returned? || x.stage.Failed?
  }

  ghost predicate NoCreators(st: State) {
    forall a :: a in st.att ==> Settled(st.att[a])
  }

  /** A settled attempt stays settled, takes no slot, stores nothing and starts no reader. */
  lemma SettledStep(c: Config, st: State, act: Action)
    requires !c.early && OnAttempt(act) && Enabled(c, st, act) && Settled(st.att[act.a]) && Local(act.a, st.att[act.a])
    ensures var x, e := st.att[act.a], StepOf(c, st, act);
      && e.op != Store && e.count <= 0 && Settled(e.x)
      && e.wg == Indicator(IsReading(e.x)) - Indicator(IsReading(x)) <= 0
  {}

  /** With no creator in flight the counter exceeds the map by the entries deleted but not yet counted off. */
  lemma QuietCount(c: Config, st: State)
    requires !c.early && Inv(c, st) && NoCreators(st)
    ensures st.count == |st.sessions| + Tally(st.att, IsDeleted)
    ensures st.count == |st.sessions| <==> forall a :: a in st.att ==> st.att[a].once != Deleted
  {
    TallyZero(st.att, IsReserved);
    TallyZero(st.att, IsLost);
    TallyZero(st.att, IsOver);
    TallyZero(st.att, IsDeleted);
  }

  /**
   * remove() deletes by key alone, yet it deletes the expiring session's own entry and no
   * other; a race loser never comes to a remove().
   */
  lemma DeleteOwnEntry(c: Config, st: State, a: nat)
    requires !c.early && Reachable(c, st) && Enabled(c, st, Delete(a))
    ensures var st' := Apply(c, st, Delete(a));
      && st.att[a].key in st.sessions && st.sessions[st.att[a].key] == a
      && Published(a, st.att[a])
      && st'.sessions.Keys == st.sessions.Keys - {st.att[a].key}
      && forall k :: k in st'.sessions ==> st'.sessions[k] == st.sessions[k] != a
  {
    ReachableInv(c, st);
    assert Local(a, st.att[a]);
  }

  /** Sockets: closed at most once; open exactly in flight or under a session not yet past the close. */
  lemma SocketConservation(c: Config, st: State, a: nat)
    requires !c.early && Reachable(c, st) && a in st.att
    ensures st.att[a].closes <= 1
    ensures st.att[a].closes == 0 <==>
            (!Settled(st.att[a]) && !st.att[a].stage.Won?)
            || (st.att[a].key in st.sessions && st.sessions[st.att[a].key] == a && st.att[a].once != SocketClosed)
  {
    ReachableInv(c, st);
    assert Local(a, st.att[a]);
  }

  /** Between publish and delete a session is the only one stored under its key, and it is found there. */
  lemma OneSessionPerKey(c: Config, st: State, a: nat, b: nat)
    requires !c.early && Reachable(c, st)
    requires a in st.att && b in st.att && st.att[a].key == st.att[b].key
    requires Listed(a, st.att[a]) && Listed(b, st.att[b])
    ensures a == b && st.att[a].key in st.sessions && st.sessions[st.att[a].key] == a
  {
    ReachableInv(c, st);
  }

  // ---------------------------------------------------------------- what a race loser is given

  // The session that Create returns, or will return, to the loser of a creation race.
  function WinnerOf(a: nat, x: Attempt): Option<nat> {
    match x.stage
    case Lost(w) => Some(w)
    case RolledBack(w) => Some(w)
    case Closing(w) => Some(w)
    case Returned(s) => if s != a then Some(s) else None
    case _ => None
  }

  // Session w was stored under this key.
  predicate StoredOnce(att: map<nat, Attempt>, w: nat, key: Key) {
    w in att && att[w].key == key && Published(w, att[w])
  }

  ghost predicate Winners(st: State) {
    forall a :: a in st.att && WinnerOf(a, st.att[a]).Some? ==>
      StoredOnce(st.att, WinnerOf(a, st.att[a]).value, st.att[a].key)
  }

  lemma WinnerAt(c: Config, st: State, act: Action)
    requires OnAttempt(act) && Enabled(c, st, act) && Local(act.a, st.att[act.a])
    ensures var x, e := st.att[act.a], StepOf(c, st, act);
      && e.x.key == x.key
      && (Published(act.a, x) ==> Published(act.a, e.x))
      && (WinnerOf(act.a, e.x).Some? ==>
            || WinnerOf(act.a, e.x) == WinnerOf(act.a, x)
            || (x.key in st.sessions && WinnerOf(act.a, e.x) == Some(st.sessions[x.key])))
  {}

  lemma WinnersAfter(st: State, a: nat, e: Effect)
    requires Owned(st) && Winners(st) && a in st.att && e.x.key == st.att[a].key
    requires Published(a, st.att[a]) ==> Published(a, e.x)
    requires WinnerOf(a, e.x).Some? ==>
      || WinnerOf(a, e.x) == WinnerOf(a, st.att[a])
      || (e.x.key in st.sessions && WinnerOf(a, e.x) == Some(st.sessions[e.x.key]))
    ensures Winners(Affect(st, a, e))
  {
    hide WinnerOf;
    var att := Affect(st, a, e).att;
    assert forall w, k :: StoredOnce(st.att, w, k) ==> StoredOnce(att, w, k);
  }

  lemma StepKeepsWinners(c: Config, st: State, act: Action)
    requires !c.early && Inv(c, st) && Winners(st) && Enabled(c, st, act)
    ensures Winners(Apply(c, st, act))
  {
    hide EnabledAt, EffectOf, Local, Owned, Accounted, WinnerOf;
    if OnAttempt(act) {
      WinnerAt(c, st, act);
      WinnersAfter(st, act.a, StepOf(c, st, act));
    } else if act.Dial? {
      DialKeepsWinners(c, st, act.a, act.key);
    }
  }

  lemma DialKeepsWinners(c: Config, st: State, a: nat, key: Key)
    requires Winners(st) && a !in st.att
    ensures Winners(Apply(c, st, Dial(a, key)))
  {
    var att := Apply(c, st, Dial(a, key)).att;
    assert forall w, k :: StoredOnce(st.att, w, k) ==> StoredOnce(att, w, k);
  }

  lemma {:induction false} RunKeepsWinners(c: Config, st: State, acts: seq<Action>)
    requires !c.early && Inv(c, st) && Winners(st) && Exec(c, st, acts).Some?
    ensures Winners(Exec(c, st, acts).value)
    decreases |acts|
  {
    if acts == [] {
    } else {
      StepKeeps(c, st, acts[0]);
      StepKeepsWinners(c, st, acts[0]);
      RunKeepsWinners(c, Apply(c, st, acts[0]), acts[1..]);
    }
  }

  /** Whoever loses a creation race is given another session, one that was stored under the same key. */
  lemma LoserGetsTheStoredSession(c: Config, st: State, a: nat)
    requires !c.early && Reachable(c, st) && a in st.att
    requires st.att[a].stage.Returned? && st.att[a].stage.sid != a
    ensures StoredOnce(st.att, st.att[a].stage.sid, st.att[a].key)
    ensures st.att[a].closes == 1 && st.att[a].reader == NotStarted
  {
    var acts :| Exec(c, START, acts) == Some(st);
    StartHolds(c);
    RunKeeps(c, START, acts);
    RunKeepsWinners(c, START, acts);
    assert Local(a, st.att[a]);
    assert WinnerOf(a, st.att[a]) == Some(st.att[a].stage.sid);
  }
}
