/** What ExpireAll has achieved when it returns. */
module SessionShutdown {
  import opened Basics
  import opened SessionMachine
  import opened SessionSafety

  // ---------------------------------------------------------------- ExpireAll without creators

  /** What ExpireAll has achieved so far, as long as nobody dials. */
  ghost predicate Draining(st: State) {
    && NoCreators(st)
    && match st.shutdown
       case NotCalled => true
       case Ranging(_, visited, current) =>
         forall k :: k in st.sessions ==> Steady(st, k) && (k in visited ==> current == Some(st.sessions[k]))
       case Waiting => st.sessions == map[]
       case Complete => st.sessions == map[] && st.wg == 0
  }

  lemma DrainAfter(st: State, a: nat, e: Effect)
    requires Draining(st) && a in st.att && e.op != Store && Settled(e.x)
    requires st.shutdown.Complete? ==> e.wg == 0
    ensures Draining(Affect(st, a, e))
  {}

  lemma DrainAttempt(c: Config, st: State, act: Action)
    requires !c.early && Inv(c, st) && Draining(st) && OnAttempt(act) && Enabled(c, st, act)
    ensures Draining(Apply(c, st, act))
  {
    hide EnabledAt, EffectOf, Local, Listed, Owned;
    SettledStep(c, st, act);
    if st.shutdown.Complete? {
      TallyZero(st.att, IsReading);
    }
    hide Inv;
    DrainAfter(st, act.a, StepOf(c, st, act));
  }

  lemma DrainVisited(c: Config, st: State)
    requires !c.early && Inv(c, st) && Draining(st) && Enabled(c, st, Visited)
    ensures Draining(Apply(c, st, Visited))
  {
    var a := st.shutdown.current.value;
    assert !Listed(a, st.att[a]);
  }

  lemma DrainRange(c: Config, st: State, act: Action)
    requires Draining(st) && Enabled(c, st, act)
    requires act.ExpireAll? || act.Visit? || act.RangeEnd? || act.WaitEnd?
    ensures Draining(Apply(c, st, act))
  {
    if act.RangeEnd? {
      assert forall k :: k in st.sessions ==> k in st.sessions.Keys;
      assert st.sessions == map[];
    }
  }

  lemma DrainStep(c: Config, st: State, act: Action)
    requires !c.early && Inv(c, st) && Draining(st) && !act.Dial? && Enabled(c, st, act)
    ensures Draining(Apply(c, st, act))
  {
    if OnAttempt(act) {
      DrainAttempt(c, st, act);
    } else if act.Visited? {
      DrainVisited(c, st);
    } else {
      DrainRange(c, st, act);
    }
  }

  lemma {:induction false} DrainRun(c: Config, st: State, acts: seq<Action>)
    requires !c.early && Inv(c, st) && Draining(st)
    requires (forall i :: 0 <= i < |acts| ==> !acts[i].Dial?) && Exec(c, st, acts).Some?
    ensures Inv(c, Exec(c, st, acts).value) && Draining(Exec(c, st, acts).value)
    decreases |acts|
  {
    if acts == [] {
    } else {
      StepKeeps(c, st, acts[0]);
      DrainStep(c, st, acts[0]);
      DrainRun(c, Apply(c, st, acts[0]), acts[1..]);
    }
  }

  /**
   * When ExpireAll returns and nobody dialled since no creator was in flight: the map is
   * empty, no reader runs and every socket is closed, once. The counter is what expiries
   * between their sessions.Delete and their count.Add(-1) still owe, so it is zero exactly
   * when there is none.
   */
  lemma AfterExpireAll(c: Config, st: State, acts: seq<Action>)
    requires !c.early && Reachable(c, st) && NoCreators(st) && st.shutdown.NotCalled?
    requires forall i :: 0 <= i < |acts| ==> !acts[i].Dial?
    requires Exec(c, st, acts).Some? && Exec(c, st, acts).value.shutdown.Complete?
    ensures var st' := Exec(c, st, acts).value;
      && st'.sessions == map[]
      && st'.wg == 0
      && (forall a :: a in st'.att ==> st'.att[a].closes == 1)
      && st'.count == Tally(st'.att, IsDeleted)
      && (st'.count == 0 <==> forall a :: a in st'.att ==> st'.att[a].once != Deleted)
  {
    ReachableInv(c, st);
    DrainRun(c, st, acts);
    var st' := Exec(c, st, acts).value;
    QuietCount(c, st');
    TallyZero(st'.att, IsDeleted);
    forall a | a in st'.att ensures st'.att[a].closes == 1 {
      assert Local(a, st'.att[a]) && Settled(st'.att[a]);
      assert !Listed(a, st'.att[a]);
    }
  }

  // ---------------------------------------------------------------- a schedule on which the counter ends at zero

  predicate Underway(x: Attempt) {
    x.once != Fresh && x.once != Spent
  }

  /** Every expire() that is under way was entered by Range. */
  ghost predicate Orderly(st: State) {
    forall a :: a in st.att && Underway(st.att[a]) ==> st.shutdown.Ranging? && st.shutdown.current == Some(a)
  }

  /** Along these actions only Range enters an expire(). */
  predicate OnlyRangeExpires(c: Config, st: State, acts: seq<Action>)
    requires Exec(c, st, acts).Some?
    decreases |acts|
  {
    if acts == [] then true
    else
      && (acts[0].Expire? ==> st.shutdown.Ranging? && st.shutdown.current == Some(acts[0].a))
      && OnlyRangeExpires(c, Apply(c, st, acts[0]), acts[1..])
  }

  lemma OrderlyEffect(c: Config, st: State, act: Action)
    requires OnAttempt(act) && Enabled(c, st, act) && Settled(st.att[act.a])
    requires !act.Expire?
    ensures Underway(StepOf(c, st, act).x) ==> Underway(st.att[act.a])
  {}

  lemma OrderlyStep(c: Config, st: State, act: Action)
    requires NoCreators(st) && Orderly(st) && !act.Dial? && Enabled(c, st, act)
    requires act.Expire? ==> st.shutdown.Ranging? && st.shutdown.current == Some(act.a)
    ensures Orderly(Apply(c, st, act))
  {
    hide EnabledAt, EffectOf;
    if OnAttempt(act) && !act.Expire? {
      OrderlyEffect(c, st, act);
    }
  }

  lemma DrainingMeans(st: State)
    requires Draining(st)
    ensures NoCreators(st)
  {}

  lemma {:induction false} OrderlyRun(c: Config, st: State, acts: seq<Action>)
    requires !c.early && Inv(c, st) && Draining(st) && Orderly(st)
    requires (forall i :: 0 <= i < |acts| ==> !acts[i].Dial?) && Exec(c, st, acts).Some?
    requires OnlyRangeExpires(c, st, acts)
    ensures Orderly(Exec(c, st, acts).value)
    decreases |acts|
  {
    hide Inv, Draining, Orderly, Enabled, Apply, Reachable;
    if acts == [] {
    } else {
      StepKeeps(c, st, acts[0]);
      DrainStep(c, st, acts[0]);
      DrainingMeans(st);
      OrderlyStep(c, st, acts[0]);
      OrderlyRun(c, Apply(c, st, acts[0]), acts[1..]);
    }
  }

  /**
   * If no expire() was under way when ExpireAll was called, and only Range entered one until
   * it returned, the counter is zero.
   */
  lemma CountZeroAfterOrderlyExpireAll(c: Config, st: State, acts: seq<Action>)
    requires !c.early && Reachable(c, st) && NoCreators(st) && st.shutdown.NotCalled?
    requires forall i :: 0 <= i < |acts| ==> !acts[i].Dial?
    requires Exec(c, st, acts).Some? && Exec(c, st, acts).value.shutdown.Complete?
    requires (forall a :: a in st.att ==> !Underway(st.att[a])) && OnlyRangeExpires(c, st, acts)
    ensures Exec(c, st, acts).value.count == 0
  {
    AfterExpireAll(c, st, acts);
    ReachableInv(c, st);
    OrderlyRun(c, st, acts);
    var st' := Exec(c, st, acts).value;
    assert forall a :: a in st'.att ==> !Underway(st'.att[a]);
  }
}
