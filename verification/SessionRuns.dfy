/** Runs of the session machine on which stronger claims fail. */
module SessionRuns {
  import opened Basics
  import opened SessionKey
  import opened SessionMachine
  import opened SessionSafety
  import opened SessionCreation

  // ---------------------------------------------------------------- reaching states

  lemma {:induction false} ExecAppend(c: Config, st: State, acts: seq<Action>, act: Action)
    requires Exec(c, st, acts).Some? && Enabled(c, Exec(c, st, acts).value, act)
    ensures Exec(c, st, acts + [act]) == Some(Apply(c, Exec(c, st, acts).value, act))
    decreases |acts|
  {
    if acts == [] {
      assert [] + [act] == [act] && [act][1..] == [];
      assert Exec(c, Apply(c, st, act), []) == Some(Apply(c, st, act));
    } else {
      ExecAppend(c, Apply(c, st, acts[0]), acts[1..], act);
      assert (acts + [act])[1..] == acts[1..] + [act];
    }
  }

  lemma ReachStart(c: Config)
    ensures Reachable(c, START)
  {
    assert Exec(c, START, []) == Some(START);
  }

  lemma Reach(c: Config, st: State, act: Action) returns (st': State)
    requires Reachable(c, st) && Enabled(c, st, act)
    ensures st' == Apply(c, st, act) && Reachable(c, st')
  {
    var acts :| Exec(c, START, acts) == Some(st);
    ExecAppend(c, START, acts, act);
    st' := Apply(c, st, act);
  }

  // ---------------------------------------------------------------- one attempt on its own

  const KEY: Key := Key([], 0, "")

  function Lone(x: Attempt, count: int, stored: bool, wg: int): State {
    State(count, if stored then map[KEY := 0] else map[], map[0 := x], wg, NotCalled)
  }

  function LoneEffect(c: Config, x: Attempt, count: int, stored: bool, act: Action): Effect
    requires OnAttempt(act) && act.a == 0 && EnabledAt(c, act, 0, x)
  {
    EffectOf(c, count, if stored then map[KEY := 0] else map[], act, 0, x)
  }

  lemma KeyStays(c: Config, x: Attempt, count: int, stored: bool, act: Action)
    requires OnAttempt(act) && act.a == 0 && EnabledAt(c, act, 0, x)
    ensures LoneEffect(c, x, count, stored, act).x.key == x.key
  {}

  lemma LoneAffect(x: Attempt, count: int, stored: bool, wg: int, e: Effect)
    requires e.x.key == KEY
    ensures Affect(Lone(x, count, stored, wg), 0, e) ==
            Lone(e.x, count + e.count, e.op == Store || (stored && e.op == Keep), wg + e.wg)
  {
    var none: map<Key, nat> := map[];
    assert map[KEY := 0] - {KEY} == none && none - {KEY} == none;
    assert none[KEY := 0] == map[KEY := 0] && map[KEY := 0][KEY := 0] == map[KEY := 0];
    assert map[0 := x][0 := e.x] == map[0 := e.x];
  }

  lemma LoneStep(c: Config, x: Attempt, count: int, stored: bool, wg: int, act: Action)
    requires Reachable(c, Lone(x, count, stored, wg)) && x.key == KEY
    requires OnAttempt(act) && act.a == 0 && EnabledAt(c, act, 0, x)
    ensures var e := LoneEffect(c, x, count, stored, act);
      Reachable(c, Lone(e.x, count + e.count, e.op == Store || (stored && e.op == Keep), wg + e.wg))
  {
    hide Reachable, EffectOf, EnabledAt, Affect;
    KeyStays(c, x, count, stored, act);
    LoneAffect(x, count, stored, wg, LoneEffect(c, x, count, stored, act));
    var _ := Reach(c, Lone(x, count, stored, wg), act);
  }

  lemma MadeOne(c: Config)
    requires c.maxSessions == 1
    ensures Reachable(c, Lone(Attempt(KEY, Made, Fresh, NotStarted, false, 0), 1, false, 0))
  {
    hide Reachable;
    ReachStart(c);
    var st := Reach(c, START, Dial(0, KEY));
    var x := Attempt(KEY, Dialed, Fresh, NotStarted, false, 0);
    assert st == Lone(x, 0, false, 0);
    LoneStep(c, x, 0, false, 0, Check(0));
    LoneStep(c, x.(stage := Checked), 0, false, 0, Add(0));
    LoneStep(c, x.(stage := Reserved), 1, false, 0, Make(0));
  }

  lemma StoredOne(c: Config)
    requires c.maxSessions == 1
    ensures Reachable(c, Lone(Attempt(KEY, Returned(0), Fresh, Reading, false, 0), 1, true, 1))
  {
    hide Reachable;
    MadeOne(c);
    var x := Attempt(KEY, Made, Fresh, NotStarted, false, 0);
    LoneStep(c, x, 1, false, 0, Publish(0));
    LoneStep(c, x.(stage := Won), 1, true, 0, StartReader(0));
  }

  /** A lone session's expire(), up to the deletion of its entry. */
  lemma ExpiredToDeleted(c: Config, x: Attempt, count: int, stored: bool, wg: int)
    requires Reachable(c, Lone(x, count, stored, wg)) && MayExpire(c, 0, x) && x.key == KEY && !x.stage.Closing?
    ensures Reachable(c, Lone(x.(once := Deleted, done := true, closes := x.closes + 1), count, false, wg))
  {
    hide Reachable;
    LoneStep(c, x, count, stored, wg, Expire(0));
    LoneStep(c, x.(once := DoneClosed, done := true), count, stored, wg, Clear(0));
    LoneStep(c, x.(once := Cleared, done := true), count, stored, wg, CloseSocket(0));
    LoneStep(c, x.(once := SocketClosed, done := true, closes := x.closes + 1), count, stored, wg, Delete(0));
  }

  // ---------------------------------------------------------------- the runs

  /**
   * ExpireAll may return while the counter is still one: a timer-run expire() can be between
   * its sessions.Delete and its count.Add(-1), where Range no longer sees the session.
   */
  lemma CountAfterExpireAllMayLag() returns (c: Config, st: State)
    ensures !c.early && Reachable(c, st)
    ensures st.shutdown.Complete? && NoCreators(st) && st.sessions == map[] && st.count == 1
  {
    hide Reachable;
    c := Config(1, false);
    StoredOne(c);
    var x := Attempt(KEY, Returned(0), Fresh, Reading, false, 0);
    ExpiredToDeleted(c, x, 1, true, 1);
    LoneStep(c, x.(once := Deleted, done := true, closes := 1), 1, false, 1, ReaderExit(0));
    st := Lone(x.(once := Deleted, done := true, closes := 1, reader := Exited), 1, false, 0);
    st := Reach(c, st, ExpireAll);
    st := Reach(c, st, RangeEnd);
    st := Reach(c, st, WaitEnd);
  }

  /**
   * A creator can be refused over an empty map: the slot of an entry that is deleted but not
   * yet counted off fills the limit.
   */
  lemma RefusedOverAnEmptyMap() returns (c: Config, st: State, a: nat)
    ensures !c.early && c.maxSessions == 1 && Reachable(c, st) && Alone(st, a)
    ensures st.sessions == map[] && a in st.att && st.att[a].stage == Refused
  {
    hide Reachable;
    c := Config(1, false);
    StoredOne(c);
    var x := Attempt(KEY, Returned(0), Fresh, Reading, false, 0);
    ExpiredToDeleted(c, x, 1, true, 1);
    st := Lone(x.(once := Deleted, done := true, closes := 1), 1, false, 1);
    st := Reach(c, st, Dial(1, KEY));
    st := Reach(c, st, Check(1));
    a := 1;
  }

  /**
   * If an idle timer may fire before its Create is past LoadOrStore, a dead session gets
   * stored: its own expire() is spent and will not delete it, and the counter has no slot for it.
   */
  lemma EarlyTimerStoresDeadSession() returns (c: Config, st: State)
    ensures c.early && Reachable(c, st)
    ensures st.sessions == map[KEY := 0] && 0 in st.att && st.att[0].once == Spent && st.count == 0
  {
    hide Reachable;
    c := Config(1, true);
    MadeOne(c);
    var x := Attempt(KEY, Made, Fresh, NotStarted, false, 0);
    ExpiredToDeleted(c, x, 1, false, 0);
    LoneStep(c, x.(once := Deleted, done := true, closes := 1), 1, false, 0, Decrement(0));
    LoneStep(c, x.(once := Spent, done := true, closes := 1), 0, false, 0, Publish(0));
    st := Lone(x.(stage := Won, once := Spent, done := true, closes := 1), 0, true, 0);
  }

  /** And a race loser whose timer fires that early deletes the winner's entry. */
  lemma EarlyTimerDeletesWinner() returns (c: Config, st: State)
    ensures c.early && Reachable(c, st)
    ensures KEY !in st.sessions && 0 in st.att && Listed(0, st.att[0]) && st.att[0].key == KEY
  {
    hide Reachable;
    c := Config(0, true);
    st := WonAndLost(c);
    st := Reach(c, st, Expire(1));
    st := Reach(c, st, Clear(1));
    st := Reach(c, st, CloseSocket(1));
    st := Reach(c, st, Delete(1));
  }

  lemma WonAndLost(c: Config) returns (st: State)
    requires c.maxSessions <= 0
    ensures Reachable(c, st)
    ensures st == State(2, map[KEY := 0], map[0 := Attempt(KEY, Won, Fresh, NotStarted, false, 0),
                                              1 := Attempt(KEY, Lost(0), Fresh, NotStarted, false, 0)], 0, NotCalled)
  {
    hide Reachable;
    ReachStart(c);
    st := UnlimitedUpToMade(c, START, 0);
    st := Reach(c, st, Publish(0));
    st := UnlimitedUpToMade(c, st, 1);
    st := Reach(c, st, Publish(1));
  }

  lemma UnlimitedUpToMade(c: Config, st: State, a: nat) returns (st': State)
    requires Reachable(c, st) && c.maxSessions <= 0 && a !in st.att
    ensures Reachable(c, st')
    ensures st' == st.(count := st.count + 1, att := st.att[a := Attempt(KEY, Made, Fresh, NotStarted, false, 0)])
  {
    hide Reachable;
    st' := Reach(c, st, Dial(a, KEY));
    st' := Reach(c, st', Check(a));
    st' := Reach(c, st', Make(a));
    assert st'.att == st.att[a := Attempt(KEY, Made, Fresh, NotStarted, false, 0)];
  }
}
