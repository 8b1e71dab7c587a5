/** Nothing in the session machine gets stuck: what has begun always has a next step. */
module SessionProgress {
  import opened Basics
  import opened SessionMachine
  import opened SessionSafety
  import opened SessionShutdown

  // The next action of a creator.
  function NextOfCreator(a: nat, x: Attempt): Action
    requires !Settled(x)
  {
    match x.stage
    case Dialed => Check(a)
    case Checked => Add(a)
    case Over => RollOver(a)
    case Refused => CloseRefused(a)
    case Reserved => Make(a)
    case Made => Publish(a)
    case Won => StartReader(a)
    case Lost(_) => RollBack(a)
    case RolledBack(_) => LoseDone(a)
    case Closing(_) => LoseClose(a)
  }

  /** Every creator in flight has its next step, whatever all others have done. */
  lemma CreatorsGoOn(c: Config, st: State, a: nat)
    requires !c.early && Reachable(c, st) && a in st.att && !Settled(st.att[a])
    ensures Enabled(c, st, NextOfCreator(a, st.att[a]))
  {
    ReachableInv(c, st);
    assert Local(a, st.att[a]);
  }

  // The next action of an expire().
  function NextOfExpiry(a: nat, o: Once): Action
    requires o != Spent
  {
    match o
    case Fresh => Expire(a)
    case DoneClosed => Clear(a)
    case Cleared => CloseSocket(a)
    case SocketClosed => Delete(a)
    case Deleted => Decrement(a)
  }

  /** Every published session can expire, and an expiry that has begun has its next step. */
  lemma ExpiriesGoOn(c: Config, st: State, a: nat)
    requires a in st.att && Published(a, st.att[a]) && st.att[a].once != Spent
    ensures Enabled(c, st, NextOfExpiry(a, st.att[a].once))
  {}

  /** The reader of a done session can exit. */
  lemma ReadersGoOn(c: Config, st: State, a: nat)
    requires a in st.att && st.att[a].reader == Reading && st.att[a].done
    ensures Enabled(c, st, ReaderExit(a))
  {}

  // A step that is not a new creator's.
  ghost predicate CanMove(c: Config, st: State) {
    exists act: Action :: !act.Dial? && Enabled(c, st, act)
  }

  lemma Moves(c: Config, st: State, act: Action)
    requires !act.Dial? && Enabled(c, st, act)
    ensures CanMove(c, st)
  {}

  // The session whose expire() Range waits for was stored once.
  predicate CurrentPublished(st: State) {
    st.shutdown.Ranging? && st.shutdown.current.Some? ==>
      st.shutdown.current.value in st.att && Published(st.shutdown.current.value, st.att[st.shutdown.current.value])
  }

  lemma CurrentStays(c: Config, st: State, act: Action)
    requires !c.early && Inv(c, st) && CurrentPublished(st) && Enabled(c, st, act)
    ensures CurrentPublished(Apply(c, st, act))
  {
    hide EnabledAt, EffectOf, Local, Owned, Accounted;
    if OnAttempt(act) {
      WinnerAt(c, st, act);
    }
    hide Inv;
  }

  lemma AReaderIsLeft(c: Config, st: State)
    requires !c.early && Inv(c, st) && Draining(st) && st.shutdown.Waiting? && st.wg != 0
    ensures CanMove(c, st)
  {
    TallyZero(st.att, IsReading);
    var a :| a in st.att && IsReading(st.att[a]);
    assert Local(a, st.att[a]) && Settled(st.att[a]) && !Listed(a, st.att[a]);
    Moves(c, st, ReaderExit(a));
  }

  lemma RangeGoesOn(c: Config, st: State)
    requires Inv(c, st) && st.shutdown.Ranging? && CurrentPublished(st)
    ensures CanMove(c, st)
  {
    hide CanMove, EnabledAt;
    if st.shutdown.current.Some? {
      var a := st.shutdown.current.value;
      if st.att[a].once != Spent {
        ExpiriesGoOn(c, st, a);
        Moves(c, st, NextOfExpiry(a, st.att[a].once));
      } else {
        Moves(c, st, Visited);
      }
    } else if k :| k in st.sessions && k !in st.shutdown.visited {
      Moves(c, st, Visit(k, st.sessions[k]));
    } else {
      Moves(c, st, RangeEnd);
    }
  }

  lemma ShutdownGoesOn(c: Config, st: State)
    requires !c.early && Inv(c, st) && Draining(st) && CurrentPublished(st) && !st.shutdown.Complete?
    ensures CanMove(c, st)
  {
    hide CanMove, Inv, Draining, EnabledAt, CurrentPublished;
    match st.shutdown
    case NotCalled => Moves(c, st, ExpireAll);
    case Ranging(_, _, _) => RangeGoesOn(c, st);
    case Waiting =>
      if st.wg == 0 {
        Moves(c, st, WaitEnd);
      } else {
        AReaderIsLeft(c, st);
      }
  }

  lemma {:induction false} ShutdownRun(c: Config, st: State, acts: seq<Action>)
    requires !c.early && Inv(c, st) && Draining(st) && CurrentPublished(st)
    requires (forall i :: 0 <= i < |acts| ==> !acts[i].Dial?) && Exec(c, st, acts).Some?
    requires !Exec(c, st, acts).value.shutdown.Complete?
    ensures CanMove(c, Exec(c, st, acts).value)
    decreases |acts|
  {
    hide Inv, Draining, CurrentPublished, CanMove, Enabled, Apply;
    if acts == [] {
      ShutdownGoesOn(c, st);
    } else {
      StepKeeps(c, st, acts[0]);
      DrainStep(c, st, acts[0]);
      CurrentStays(c, st, acts[0]);
      ShutdownRun(c, Apply(c, st, acts[0]), acts[1..]);
    }
  }

  /** ExpireAll, called when no creator is in flight, has a next step until it returns, if nobody dials. */
  lemma ExpireAllGoesOn(c: Config, st: State, acts: seq<Action>)
    requires !c.early && Reachable(c, st) && NoCreators(st) && st.shutdown.NotCalled?
    requires (forall i :: 0 <= i < |acts| ==> !acts[i].Dial?) && Exec(c, st, acts).Some?
    requires !Exec(c, st, acts).value.shutdown.Complete?
    ensures CanMove(c, Exec(c, st, acts).value)
  {
    ReachableInv(c, st);
    hide Reachable, CanMove, Inv;
    ShutdownRun(c, st, acts);
  }
}
