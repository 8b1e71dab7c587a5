/** internal/gateway/gateway.go, Serve: the connection cap, while handlers come and go. */
module TcpServe {
  import opened Basics

  // The accept loop takes a connection through Accepted, Counted or Over and Refused; a
  // goroutine takes it from Running on.
  datatype Stage =
    | Accepted // not counted yet
    | Counted  // within the cap (or no cap), handler not started
    | Over     // active.Add went past the cap, not rolled back
    | Refused  // rolled back, not closed
    | Closed   // closed by the accept loop
    | Running  // in handle
    | Exiting  // handle has returned, active not decremented
    | Gone

  // handlers counts the goroutines started for the connection, closes its Close calls.
  datatype Conn = Conn(stage: Stage, handlers: nat, closes: nat)

  datatype State = State(active: int, conns: map<nat, Conn>)

  datatype Action =
    | Accept(c: nat)
    | Count(c: nat)    // active.Add(1) under a cap
    | RollBack(c: nat) // active.Add(-1)
    | Close(c: nat)
    | Spawn(c: nat)
    | Finish(c: nat)   // handle returns, its deferred Close has run
    | Release(c: nat)  // the deferred active.Add(-1)

  const START: State := State(0, map[])

  predicate InLoop(x: Conn) { x.stage.Accepted? || x.stage.Counted? || x.stage.Over? || x.stage.Refused? }
  predicate HasHandler(x: Conn) { x.stage.Running? || x.stage.Exiting? }
  predicate Unresolved(x: Conn) { x.stage.Counted? || x.stage.Over? }
  predicate IsCounted(x: Conn) { x.stage.Counted? }
  predicate IsGone(x: Conn) { x.stage.Gone? }

  ghost predicate Enabled(st: State, act: Action) {
    if act.Accept? then act.c !in st.conns && Tally(st.conns, InLoop) == 0
    else act.c in st.conns && EnabledAt(act, st.conns[act.c].stage)
  }

  predicate EnabledAt(act: Action, s: Stage) {
    match act
    case Accept(_) => false
    case Count(_) => s.Accepted?
    case RollBack(_) => s.Over?
    case Close(_) => s.Refused?
    case Spawn(_) => s.Counted?
    case Finish(_) => s.Running?
    case Release(_) => s.Exiting?
  }

  // What an action does to its connection and to the counter.
  function Effect(maxConns: int, active: int, act: Action, x: Conn): (Conn, int) {
    match act
    case Accept(_) => (x, 0)
    case Count(_) =>
      if maxConns <= 0 then (x.(stage := Counted), 0)
      else (x.(stage := if active + 1 > maxConns then Over else Counted), 1)
    case RollBack(_) => (x.(stage := Refused), -1)
    case Close(_) => (x.(stage := Closed, closes := x.closes + 1), 0)
    case Spawn(_) => (x.(stage := Running, handlers := x.handlers + 1), 0)
    case Finish(_) => (x.(stage := Exiting, closes := x.closes + 1), 0)
    case Release(_) => (x.(stage := Gone), -1)
  }

  ghost function Apply(maxConns: int, st: State, act: Action): State
    requires Enabled(st, act)
  {
    if act.Accept? then st.(conns := st.conns[act.c := Conn(Accepted, 0, 0)])
    else
      var (x, d) := Effect(maxConns, st.active, act, st.conns[act.c]);
      State(st.active + d, st.conns[act.c := x])
  }

  ghost function Exec(maxConns: int, st: State, acts: seq<Action>): Option<State>
    decreases |acts|
  {
    if acts == [] then Some(st)
    else if Enabled(st, acts[0]) then Exec(maxConns, Apply(maxConns, st, acts[0]), acts[1..])
    else None
  }

  // ---------------------------------------------------------------- invariant

  // One handler and one close, or no handler and one close; never more.
  predicate Fate(x: Conn) {
    && x.handlers == Indicator(x.stage.Running? || x.stage.Exiting? || x.stage.Gone?)
    && x.closes == Indicator(x.stage.Closed? || x.stage.Exiting? || x.stage.Gone?)
  }

  ghost predicate Inv(maxConns: int, st: State) {
    && (forall c :: c in st.conns ==> Fate(st.conns[c]))
    && Tally(st.conns, InLoop) <= 1
    && (if maxConns > 0 then
          st.active == Tally(st.conns, HasHandler) + Tally(st.conns, Unresolved)
          && Tally(st.conns, HasHandler) + Tally(st.conns, IsCounted) <= maxConns
        else st.active + Tally(st.conns, IsGone) == 0 && forall c :: c in st.conns ==> !st.conns[c].stage.Over?)
  }

  lemma Tallies(m: map<nat, Conn>, c: nat, x: Conn)
    requires c in m
    ensures var m' := m[c := x];
      && Tally(m', InLoop) == Tally(m, InLoop) - Indicator(InLoop(m[c])) + Indicator(InLoop(x))
      && Tally(m', HasHandler) == Tally(m, HasHandler) - Indicator(HasHandler(m[c])) + Indicator(HasHandler(x))
      && Tally(m', Unresolved) == Tally(m, Unresolved) - Indicator(Unresolved(m[c])) + Indicator(Unresolved(x))
      && Tally(m', IsCounted) == Tally(m, IsCounted) - Indicator(IsCounted(m[c])) + Indicator(IsCounted(x))
      && Tally(m', IsGone) == Tally(m, IsGone) - Indicator(IsGone(m[c])) + Indicator(IsGone(x))
  {
    TallyPut(m, c, x, InLoop);
    TallyPut(m, c, x, HasHandler);
    TallyPut(m, c, x, Unresolved);
    TallyPut(m, c, x, IsCounted);
    TallyPut(m, c, x, IsGone);
  }

  /** A connection that is being counted is the only one in the loop, so none is counted or over. */
  lemma LoneInLoop(st: State, c: nat)
    requires c in st.conns && InLoop(st.conns[c]) && Tally(st.conns, InLoop) <= 1
    ensures forall d :: d in st.conns && d != c ==> !InLoop(st.conns[d])
    ensures !Unresolved(st.conns[c]) ==> Tally(st.conns, Unresolved) == 0 && Tally(st.conns, IsCounted) == 0
  {
    var s := Where(st.conns, InLoop);
    assert c in s;
    forall d | d in st.conns && d != c ensures !InLoop(st.conns[d]) {
      if InLoop(st.conns[d]) {
        assert {c, d} <= s && |{c, d}| == 2;
        SubsetSize({c, d}, s);
      }
    }
    TallyZero(st.conns, Unresolved);
    TallyZero(st.conns, IsCounted);
  }

  lemma {:induction false} SubsetSize<T>(a: set<T>, b: set<T>)
    requires a <= b
    ensures |a| <= |b|
  {
    if a == {} {
    } else {
      var x :| x in a;
      SubsetSize(a - {x}, b - {x});
    }
  }

  lemma AcceptKeeps(maxConns: int, st: State, c: nat)
    requires Inv(maxConns, st) && Enabled(st, Accept(c))
    ensures Inv(maxConns, Apply(maxConns, st, Accept(c)))
  {
    var x := Conn(Accepted, 0, 0);
    TallyPut(st.conns, c, x, InLoop);
    TallyPut(st.conns, c, x, HasHandler);
    TallyPut(st.conns, c, x, Unresolved);
    TallyPut(st.conns, c, x, IsCounted);
    TallyPut(st.conns, c, x, IsGone);
  }

  lemma StepKeeps(maxConns: int, st: State, act: Action)
    requires Inv(maxConns, st) && Enabled(st, act)
    ensures Inv(maxConns, Apply(maxConns, st, act))
  {
    if act.Accept? {
      AcceptKeeps(maxConns, st, act.c);
    } else {
      var x := st.conns[act.c];
      Tallies(st.conns, act.c, Effect(maxConns, st.active, act, x).0);
      if act.Count? {
        LoneInLoop(st, act.c);
      }
    }
  }

  lemma {:induction false} RunKeeps(maxConns: int, st: State, acts: seq<Action>)
    requires Inv(maxConns, st) && Exec(maxConns, st, acts).Some?
    ensures Inv(maxConns, Exec(maxConns, st, acts).value)
    decreases |acts|
  {
    if acts == [] {
    } else {
      StepKeeps(maxConns, st, acts[0]);
      RunKeeps(maxConns, Apply(maxConns, st, acts[0]), acts[1..]);
    }
  }

  ghost predicate Reachable(maxConns: int, st: State) {
    exists acts :: Exec(maxConns, START, acts) == Some(st)
  }

  // ---------------------------------------------------------------- what the cap guarantees

  /**
   * Under a cap, in every interleaving: never more handlers than the cap; the counter is the
   * handlers plus at most one connection that the accept loop has counted and not resolved.
   */
  lemma CapHolds(maxConns: int, st: State)
    requires Reachable(maxConns, st) && maxConns > 0
    ensures Tally(st.conns, HasHandler) <= maxConns
    ensures Tally(st.conns, HasHandler) <= st.active <= Tally(st.conns, HasHandler) + 1
    ensures st.active != Tally(st.conns, HasHandler) <==> exists c :: c in st.conns && Unresolved(st.conns[c])
  {
    var acts :| Exec(maxConns, START, acts) == Some(st);
    RunKeeps(maxConns, START, acts);
    TallyZero(st.conns, Unresolved);
    SubsetSize(Where(st.conns, Unresolved), Where(st.conns, InLoop));
  }

  /** A connection is refused exactly when as many handlers as the cap allows are there at that step. */
  lemma RefusedAtTheCap(maxConns: int, st: State, c: nat)
    requires Reachable(maxConns, st) && maxConns > 0 && Enabled(st, Count(c))
    ensures Apply(maxConns, st, Count(c)).conns[c].stage == Over <==> Tally(st.conns, HasHandler) == maxConns
  {
    var acts :| Exec(maxConns, START, acts) == Some(st);
    RunKeeps(maxConns, START, acts);
    LoneInLoop(st, c);
  }

  /** Every accepted connection is closed at most once, and has at most one handler or none and a close. */
  lemma OneFate(maxConns: int, st: State, c: nat)
    requires Reachable(maxConns, st) && c in st.conns && !InLoop(st.conns[c])
    ensures st.conns[c].handlers + Indicator(st.conns[c].stage == Closed) == 1
    ensures st.conns[c].closes <= 1 && (st.conns[c].closes == 0 <==> st.conns[c].stage == Running)
  {
    var acts :| Exec(maxConns, START, acts) == Some(st);
    RunKeeps(maxConns, START, acts);
  }

  /** Without a cap the counter only falls: it is minus the number of handlers that are gone. */
  lemma UncappedCounterFalls(maxConns: int, st: State)
    requires Reachable(maxConns, st) && maxConns <= 0
    ensures st.active + Tally(st.conns, IsGone) == 0
  {
    var acts :| Exec(maxConns, START, acts) == Some(st);
    RunKeeps(maxConns, START, acts);
  }

  // ---------------------------------------------------------------- what Count decides

  predicate TurnedAway(x: Conn) { x.stage.Over? || x.stage.Refused? || x.stage.Closed? }
  predicate TakenOn(x: Conn) { x.stage.Counted? || x.stage.Running? || x.stage.Exiting? || x.stage.Gone? }

  lemma {:induction false} FateStays(maxConns: int, st: State, c: nat, acts: seq<Action>)
    requires c in st.conns && Exec(maxConns, st, acts).Some?
    ensures var st' := Exec(maxConns, st, acts).value;
      && c in st'.conns
      && (TurnedAway(st.conns[c]) ==> TurnedAway(st'.conns[c]))
      && (TakenOn(st.conns[c]) ==> TakenOn(st'.conns[c]))
    decreases |acts|
  {
    if acts == [] {
    } else {
      FateStays(maxConns, Apply(maxConns, st, acts[0]), c, acts[1..]);
    }
  }

  /**
   * For good, and on every continuation: a connection is closed without a handler if and only
   * if there is a cap and as many handlers as it allows were there when it was counted.
   */
  lemma CountDecides(maxConns: int, st: State, c: nat, acts: seq<Action>)
    requires Reachable(maxConns, st) && Enabled(st, Count(c))
    requires Exec(maxConns, Apply(maxConns, st, Count(c)), acts).Some?
    ensures var st' := Exec(maxConns, Apply(maxConns, st, Count(c)), acts).value;
      && c in st'.conns
      && (TurnedAway(st'.conns[c]) <==> maxConns > 0 && Tally(st.conns, HasHandler) == maxConns)
      && (TakenOn(st'.conns[c]) <==> !TurnedAway(st'.conns[c]))
  {
    if maxConns > 0 {
      RefusedAtTheCap(maxConns, st, c);
    }
    FateStays(maxConns, Apply(maxConns, st, Count(c)), c, acts);
  }

  ghost predicate NobodyTurnedAway(st: State) {
    forall c :: c in st.conns ==> !TurnedAway(st.conns[c]) && Fate(st.conns[c])
  }

  lemma {:induction false} UncappedRun(maxConns: int, st: State, acts: seq<Action>)
    requires maxConns <= 0 && NobodyTurnedAway(st) && Exec(maxConns, st, acts).Some?
    ensures NobodyTurnedAway(Exec(maxConns, st, acts).value)
    decreases |acts|
  {
    if acts == [] {
    } else {
      UncappedRun(maxConns, Apply(maxConns, st, acts[0]), acts[1..]);
    }
  }

  /** Without a cap every connection that the accept loop is done with has got its handler. */
  lemma UncappedServesAll(maxConns: int, st: State, c: nat)
    requires Reachable(maxConns, st) && maxConns <= 0 && c in st.conns
    ensures !TurnedAway(st.conns[c])
    ensures !InLoop(st.conns[c]) ==> st.conns[c].handlers == 1
  {
    var acts :| Exec(maxConns, START, acts) == Some(st);
    UncappedRun(maxConns, START, acts);
  }

  /** Nothing gets stuck: a connection has a next step until it is closed, and a free loop accepts. */
  lemma NothingStuck(st: State, c: nat)
    ensures c in st.conns && !st.conns[c].stage.Closed? && !st.conns[c].stage.Gone? ==>
      exists act: Action :: act.c == c && Enabled(st, act)
    ensures c !in st.conns && (forall d :: d in st.conns ==> !InLoop(st.conns[d])) ==> Enabled(st, Accept(c))
  {
    if c in st.conns {
      var s := st.conns[c].stage;
      var act := if s.Accepted? then Count(c) else if s.Over? then RollBack(c) else if s.Refused? then Close(c)
                 else if s.Counted? then Spawn(c) else if s.Running? then Finish(c) else Release(c);
      assert s.Closed? || s.Gone? || Enabled(st, act);
    }
    TallyZero(st.conns, InLoop);
  }
}
