/** Create without competition: expiries, readers and ExpireAll go on, but nobody else dials. */
module SessionCreation {
  import opened Basics
  import opened SessionMachine
  import opened SessionSafety

  // Nobody but `a` is between DialUDP and the end of Create.
  ghost predicate Alone(st: State, a: nat) {
    a in st.att && forall b :: b in st.att && b != a ==> Settled(st.att[b])
  }

  // Stored sessions, and entries deleted but not counted off, take all the slots.
  ghost predicate Full(c: Config, st: State) {
    c.maxSessions > 0 && |st.sessions| + Tally(st.att, IsDeleted) >= c.maxSessions
  }

  /** With one creator in flight the counter is what it holds on top of the quiet count. */
  lemma AloneCount(c: Config, st: State, a: nat)
    requires !c.early && Inv(c, st) && Alone(st, a)
    ensures st.count == |st.sessions| + Tally(st.att, IsDeleted)
                        + Indicator(IsReserved(st.att[a])) + Indicator(IsLost(st.att[a])) + Indicator(IsOver(st.att[a]))
  {
    var x := st.att[a].(stage := Failed);
    TallyPut(st.att, a, x, IsReserved);
    TallyPut(st.att, a, x, IsLost);
    TallyPut(st.att, a, x, IsOver);
    TallyZero(st.att[a := x], IsReserved);
    TallyZero(st.att[a := x], IsLost);
    TallyZero(st.att[a := x], IsOver);
  }

  // ---------------------------------------------------------------- count.Load

  /** At its count.Load a lone creator is refused if and only if the slots are all taken. */
  lemma LoadDecides(c: Config, st: State, a: nat)
    requires !c.early && Reachable(c, st) && Alone(st, a) && st.att[a].stage.Dialed?
    ensures Enabled(c, st, Check(a))
    ensures Apply(c, st, Check(a)).att[a].stage ==
            if Full(c, st) then Refused else if c.maxSessions > 0 then Checked else Reserved
  {
    ReachableInv(c, st);
    AloneCount(c, st, a);
  }

  // ---------------------------------------------------------------- after count.Load

  // Past count.Load, and not refused there.
  predicate LetIn(x: Attempt) {
    !(x.stage.Dialed? || x.stage.Over? || x.stage.Refused? || x.stage.Failed?)
  }

  ghost predicate Admitted(c: Config, st: State, a: nat) {
    Alone(st, a) && LetIn(st.att[a]) && (st.att[a].stage.Checked? ==> st.count < c.maxSessions)
  }

  ghost predicate TurnedAway(st: State, a: nat) {
    Alone(st, a) && (st.att[a].stage.Refused? || st.att[a].stage.Failed?)
  }

  // Nothing is stored under its key before the creator stores its own session there.
  ghost predicate Unopposed(st: State, a: nat)
    requires a in st.att
  {
    var x := st.att[a];
    if x.stage.Checked? || x.stage.Reserved? || x.stage.Made? then x.key !in st.sessions
    else Published(a, x)
  }

  lemma OwnStep(c: Config, st: State, act: Action)
    requires !c.early && OnAttempt(act) && Enabled(c, st, act) && Local(act.a, st.att[act.a])
    requires LetIn(st.att[act.a]) && (st.att[act.a].stage.Checked? ==> st.count < c.maxSessions)
    ensures var x, e := st.att[act.a], StepOf(c, st, act);
      && e.x.key == x.key
      && LetIn(e.x) && !e.x.stage.Checked?
      && (e.op == Store ==> Published(act.a, e.x))
      && (Published(act.a, x) ==> Published(act.a, e.x))
      && (x.stage.Checked? || x.stage.Reserved? ==> e.op == Keep && (e.x.stage.Reserved? || e.x.stage.Made?))
      && (x.stage.Made? && x.key !in st.sessions ==> Published(act.a, e.x))
  {}

  lemma TurnedAwayStep(c: Config, st: State, act: Action)
    requires !c.early && OnAttempt(act) && Enabled(c, st, act) && Local(act.a, st.att[act.a])
    requires st.att[act.a].stage.Refused? || st.att[act.a].stage.Failed?
    ensures StepOf(c, st, act).x.stage.Failed?
  {}

  // What the creator's own actions and everybody else's keep.
  ghost predicate Onward(c: Config, st: State, st': State, a: nat) {
    && (Admitted(c, st, a) ==> Admitted(c, st', a))
    && (Admitted(c, st, a) && Unopposed(st, a) ==> Unopposed(st', a))
    && (TurnedAway(st, a) ==> TurnedAway(st', a))
  }

  lemma OwnStepKeeps(c: Config, st: State, act: Action)
    requires !c.early && Inv(c, st) && OnAttempt(act) && Alone(st, act.a) && Enabled(c, st, act)
    ensures Onward(c, st, Apply(c, st, act), act.a)
  {
    hide EnabledAt, EffectOf, Local, Owned, Accounted;
    if Admitted(c, st, act.a) {
      OwnStep(c, st, act);
    } else if TurnedAway(st, act.a) {
      TurnedAwayStep(c, st, act);
    }
  }

  lemma OthersStepKeeps(c: Config, st: State, a: nat, act: Action)
    requires !c.early && Inv(c, st) && Alone(st, a) && !act.Dial? && Enabled(c, st, act)
    requires OnAttempt(act) ==> act.a != a
    ensures Onward(c, st, Apply(c, st, act), a)
  {
    hide EnabledAt, EffectOf, Local, Owned, Accounted, LetIn, Published;
    if OnAttempt(act) {
      SettledStep(c, st, act);
    }
  }

  lemma LoneStepKeeps(c: Config, st: State, a: nat, act: Action)
    requires !c.early && Inv(c, st) && Alone(st, a) && !act.Dial? && Enabled(c, st, act)
    ensures Onward(c, st, Apply(c, st, act), a)
  {
    hide Inv, Onward, Alone, Enabled, EnabledAt;
    if OnAttempt(act) && act.a == a {
      OwnStepKeeps(c, st, act);
    } else {
      OthersStepKeeps(c, st, a, act);
    }
  }

  lemma {:induction false} LoneRunKeeps(c: Config, st: State, a: nat, acts: seq<Action>)
    requires !c.early && Inv(c, st) && (Admitted(c, st, a) || TurnedAway(st, a))
    requires (forall i :: 0 <= i < |acts| ==> !acts[i].Dial?) && Exec(c, st, acts).Some?
    ensures Inv(c, Exec(c, st, acts).value) && Onward(c, st, Exec(c, st, acts).value, a)
    decreases |acts|
  {
    if acts == [] {
    } else {
      StepKeeps(c, st, acts[0]);
      LoneStepKeeps(c, st, a, acts[0]);
      LoneRunKeeps(c, Apply(c, st, acts[0]), a, acts[1..]);
    }
  }

  lemma LoadEffect(c: Config, st: State, a: nat)
    requires a in st.att && st.att[a].stage.Dialed?
    ensures var st1 := Apply(c, st, Check(a));
      && st1.sessions == st.sessions && (c.maxSessions > 0 ==> st1.count == st.count)
      && st1.att == st.att[a := st1.att[a]] && st1.att[a].key == st.att[a].key
      && st1.att[a].stage ==
         if c.maxSessions <= 0 then Reserved else if st.count >= c.maxSessions then Refused else Checked
  {}

  lemma LoadTurnsAway(c: Config, st: State, a: nat)
    requires !c.early && Inv(c, st) && Alone(st, a) && st.att[a].stage.Dialed? && Full(c, st)
    ensures TurnedAway(Apply(c, st, Check(a)), a)
  {
    AloneCount(c, st, a);
    LoadEffect(c, st, a);
    hide Inv, Apply, Settled;
  }

  lemma LoadAdmits(c: Config, st: State, a: nat)
    requires !c.early && Inv(c, st) && Alone(st, a) && st.att[a].stage.Dialed? && !Full(c, st)
    ensures var st1 := Apply(c, st, Check(a));
      Admitted(c, st1, a) && (st.att[a].key !in st.sessions ==> Unopposed(st1, a))
  {
    AloneCount(c, st, a);
    LoadEffect(c, st, a);
    hide Inv, Apply, Settled;
  }

  lemma LoadLeads(c: Config, st: State, a: nat)
    requires !c.early && Reachable(c, st) && Alone(st, a) && st.att[a].stage.Dialed?
    ensures Inv(c, Apply(c, st, Check(a)))
    ensures var st1 := Apply(c, st, Check(a));
      if Full(c, st) then TurnedAway(st1, a)
      else Admitted(c, st1, a) && (st.att[a].key !in st.sessions ==> Unopposed(st1, a))
  {
    ReachableInv(c, st);
    hide Reachable, Inv, Apply, Alone, Full, Admitted, TurnedAway, Unopposed;
    StepKeeps(c, st, Check(a));
    if Full(c, st) {
      LoadTurnsAway(c, st, a);
    } else {
      LoadAdmits(c, st, a);
    }
  }

  /**
   * A lone creator, whatever expires meanwhile: it is refused if and only if the slots were
   * all taken at its count.Load; if not, and its key was free then, it goes on to store its own
   * session, which stays stored until its own expiry deletes it.
   */
  lemma RefusedExactlyWhenFull(c: Config, st: State, a: nat, acts: seq<Action>)
    requires !c.early && Reachable(c, st) && Alone(st, a) && st.att[a].stage.Dialed?
    requires (forall i :: 0 <= i < |acts| ==> !acts[i].Dial?) && Exec(c, Apply(c, st, Check(a)), acts).Some?
    ensures var st' := Exec(c, Apply(c, st, Check(a)), acts).value;
      && a in st'.att
      && (st'.att[a].stage.Refused? || st'.att[a].stage.Failed? <==> Full(c, st))
      && !st'.att[a].stage.Over?
      && (!Full(c, st) && st.att[a].key !in st.sessions ==>
            && (Published(a, st'.att[a])
                || st'.att[a].stage.Checked? || st'.att[a].stage.Reserved? || st'.att[a].stage.Made?)
            && (Listed(a, st'.att[a]) ==> st'.att[a].key in st'.sessions && st'.sessions[st'.att[a].key] == a))
  {
    LoadLeads(c, st, a);
    LoneRunKeeps(c, Apply(c, st, Check(a)), a, acts);
  }

  /** Between its count.Load and its count.Add a lone creator cannot be overtaken: it never overshoots. */
  lemma AddNeverOvershoots(c: Config, st: State, a: nat, acts: seq<Action>)
    requires !c.early && Reachable(c, st) && Alone(st, a) && st.att[a].stage.Dialed?
    requires (forall i :: 0 <= i < |acts| ==> !acts[i].Dial?) && Exec(c, Apply(c, st, Check(a)), acts).Some?
    requires a in Exec(c, Apply(c, st, Check(a)), acts).value.att
    requires Exec(c, Apply(c, st, Check(a)), acts).value.att[a].stage.Checked?
    ensures var st' := Exec(c, Apply(c, st, Check(a)), acts).value;
      Enabled(c, st', Add(a)) && Apply(c, st', Add(a)).att[a].stage == Reserved
  {
    RefusedExactlyWhenFull(c, st, a, acts);
    LoadLeads(c, st, a);
    LoneRunKeeps(c, Apply(c, st, Check(a)), a, acts);
  }

  // ---------------------------------------------------------------- LoadOrStore

  // What is stored under the key of a creator that has stored nothing.
  lemma OwnedMeans(st: State, a: nat)
    requires Owned(st) && a in st.att && st.att[a].stage.Made? && st.att[a].key in st.sessions
    ensures var w := st.sessions[st.att[a].key];
      w != a && w in st.att && st.att[w].key == st.att[a].key && Listed(w, st.att[w])
  {}

  /**
   * LoadOrStore with any number of creators about: on a free key the session is stored, on a
   * taken one the creator is given the session that is stored and not yet deleted, another one.
   */
  lemma PublishDecides(c: Config, st: State, a: nat)
    requires !c.early && Reachable(c, st) && a in st.att && st.att[a].stage.Made?
    ensures Enabled(c, st, Publish(a))
    ensures var st', key := Apply(c, st, Publish(a)), st.att[a].key;
      && st'.count == st.count
      && if key !in st.sessions then
           st'.att[a].stage == Won && st'.sessions == st.sessions[key := a]
         else
           && st'.att[a].stage == Lost(st.sessions[key]) && st'.sessions == st.sessions
           && st.sessions[key] != a && st.sessions[key] in st.att
           && st.att[st.sessions[key]].key == key && Listed(st.sessions[key], st.att[st.sessions[key]])
  {
    ReachableInv(c, st);
    hide Reachable, Accounted;
    if st.att[a].key in st.sessions {
      OwnedMeans(st, a);
    }
    hide Inv, Owned, Local;
  }
}
