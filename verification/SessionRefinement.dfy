/**
 * The two models of the UDP side agree. Every run of the session machine with at most one
 * creator in flight, which is what one receive loop gives, is a run of the transducer, in which
 * a creation takes no time: its datagram is handled whole at the one operation that decides it.
 */
module SessionRefinement {
  import opened Basics
  import opened Net
  import opened ProxyProto
  import opened Deciding
  import opened Datagram
  import opened SessionKey
  import opened SessionMachine
  import opened SessionSafety
  import opened SessionCreation
  import F = UdpFlow

  // ---------------------------------------------------------------- the correspondence

  // How far the once block of a stored session has run, as the transducer sees it.
  function PhaseOf(o: Once): F.Phase {
    match o
    case Fresh => F.ALIVE
    case DoneClosed => F.DONE
    case Cleared => F.CLEARED
    case _ => F.CLOSED
  }

  /** Same keys, same phase of every session, and the transducer's counter is the quiet count. */
  ghost predicate Projects(st: State, f: F.State) {
    && f.sessions.Keys == st.sessions.Keys
    && (forall k :: k in f.sessions ==> f.sessions[k].input.None?)
    && (forall k :: k in f.sessions ==>
          st.sessions[k] in st.att && f.sessions[k].phase == PhaseOf(st.att[st.sessions[k]].once))
    && f.count == |st.sessions| + Tally(st.att, IsDeleted)
  }

  // A headerless datagram from the peer of a key.
  function Ask(key: Key): F.Arrival {
    F.Arrival([], UDPAddr(Addr(key.ip), key.port, key.zone), 0, true, F.NO_HIT)
  }

  lemma AskHasKey(key: Key)
    requires |key.ip| == 16
    ensures KeyOf(Ask(key).peer) == key && IsValid(Ask(key).peer.ip)
  {}

  // What the transducer does at an action. A creator's datagram is handled at the count.Load
  // that refuses it, or at its LoadOrStore.
  function EventAt(c: Config, st: State, act: Action): Option<F.Event>
    requires Enabled(c, st, act)
  {
    match act
    case Check(a) => if c.maxSessions > 0 && st.count >= c.maxSessions then Some(F.Arrive(Ask(st.att[a].key))) else None
    case Publish(a) => Some(F.Arrive(Ask(st.att[a].key)))
    case Expire(a) => Some(F.Expire(st.att[a].key, F.DONE))
    case Clear(a) => Some(F.Expire(st.att[a].key, F.CLEARED))
    case CloseSocket(a) => Some(F.Expire(st.att[a].key, F.CLOSED))
    case Delete(a) => Some(F.ExpireDelete(st.att[a].key))
    case Decrement(_) => Some(F.ExpireSettle)
    case _ => None
  }

  function After(cfg: F.Config, f: F.State, e: Option<F.Event>): F.State {
    if e.Some? then F.Step(cfg, f, e.value).st else f
  }

  ghost predicate SameLimits(c: Config, cfg: F.Config) {
    !c.early && cfg.maxSessions == c.maxSessions && cfg.policy != Require
  }

  // The steps of expire() that the transducer sees as phases.
  predicate Phases(act: Action) {
    act.Expire? || act.Clear? || act.CloseSocket?
  }

  // ---------------------------------------------------------------- one action

  lemma EffectFacts(c: Config, st: State, act: Action)
    requires !c.early && OnAttempt(act) && Enabled(c, st, act) && Local(act.a, st.att[act.a])
    ensures var x, e := st.att[act.a], StepOf(c, st, act);
      && e.x.key == x.key
      && (e.op == Store ==> act.Publish? && x.key !in st.sessions && e.x.once == Fresh)
      && (e.op == Remove <==> act.Delete?)
      && (act.Publish? && x.key !in st.sessions ==> e.op == Store)
      && Indicator(IsDeleted(e.x)) - Indicator(IsDeleted(x)) == Indicator(act.Delete?) - Indicator(act.Decrement?)
      && (Phases(act) || act.Delete? ==> Listed(act.a, x))
      && (Phases(act) ==>
            && PhaseOf(x.once) < PhaseOf(e.x.once)
            && EventAt(c, st, act) == Some(F.Expire(x.key, PhaseOf(e.x.once))))
      && (act.Delete? ==> PhaseOf(x.once) == F.CLOSED)
      && (Listed(act.a, x) && !Phases(act) && !act.Delete? ==> PhaseOf(e.x.once) == PhaseOf(x.once))
  {}

  lemma DeletedAfter(st: State, a: nat, e: Effect)
    requires a in st.att
    ensures Tally(Affect(st, a, e).att, IsDeleted) ==
            Tally(st.att, IsDeleted) - Indicator(IsDeleted(st.att[a])) + Indicator(IsDeleted(e.x))
  {
    TallyPut(st.att, a, e.x, IsDeleted);
  }

  /** An action with no counterpart changes nothing that the transducer sees. */
  lemma SilentStep(c: Config, st: State, act: Action, f: F.State)
    requires !c.early && Inv(c, st) && OnAttempt(act) && Enabled(c, st, act) && Projects(st, f)
    requires !act.Publish? && !Phases(act) && !act.Delete? && !act.Decrement?
    ensures Projects(Apply(c, st, act), f)
  {
    hide EnabledAt, EffectOf, Local, Accounted;
    EffectFacts(c, st, act);
    DeletedAfter(st, act.a, StepOf(c, st, act));
    hide IsDeleted;
  }

  /** What the transducer does with the datagram of a key that has no live session, or has one. */
  lemma Asked(cfg: F.Config, f: F.State, key: Key)
    requires |key.ip| == 16 && cfg.policy != Require
    requires key in f.sessions ==> f.sessions[key].input.None?
    ensures var o := F.Handle(cfg, f, Ask(key));
      && (o.rec.None? ==> o.write.None?)
      && (o.rec.Some? <==> F.Live(f, key) || (key !in f.sessions && !F.AtCapacity(cfg, f)))
      && o.st.count == f.count + Indicator(key !in f.sessions && !F.AtCapacity(cfg, f))
      && if o.rec.None? then o.st == f
         else
           && o.st.sessions.Keys == f.sessions.Keys + {key}
           && o.st.sessions[key].phase == F.ALIVE && o.st.sessions[key].input.None?
           && forall k :: k in f.sessions && k != key ==> o.st.sessions[k] == f.sessions[k]
  {
    AskHasKey(key);
    var a := Ask(key);
    assert ParseDatagram(a.data) == Parsed(ZERO_HEADER, [], Direct);
    hide ParseDatagram, KeyOf;
    assert F.Verdict(cfg, f, a).allow && F.Verdict(cfg, f, a).src == Direct;
    hide Deciding.Decide, FormatDatagram;
  }

  // ---------------------------------------------------------------- one receive loop

  predicate LiveAt(st: State, key: Key) {
    key in st.sessions && st.sessions[key] in st.att && st.att[st.sessions[key]].once == Fresh
  }

  // Not yet past LoadOrStore.
  predicate Pending(x: Attempt) {
    !Settled(x) && !x.stage.Won? && !x.stage.Lost? && !x.stage.RolledBack? && !x.stage.Closing?
  }

  /** A receive loop handles one datagram at a time, and dials only for a key without a live session. */
  ghost predicate FromLoop(st: State, act: Action) {
    act.Dial? ==> NoCreators(st) && !LiveAt(st, act.key) && |act.key.ip| == 16
  }

  ghost predicate Gated(st: State) {
    && (forall a, b :: a in st.att && b in st.att && !Settled(st.att[a]) && !Settled(st.att[b]) ==> a == b)
    && (forall a :: a in st.att && Pending(st.att[a]) ==> !LiveAt(st, st.att[a].key))
    && (forall a :: a in st.att ==> |st.att[a].key.ip| == 16)
  }

  lemma CreatorFacts(c: Config, st: State, act: Action)
    requires !c.early && OnAttempt(act) && Enabled(c, st, act) && Local(act.a, st.att[act.a])
    ensures var x, e := st.att[act.a], StepOf(c, st, act);
      && (Settled(x) ==> Settled(e.x) && e.op != Store)
      && (Pending(e.x) ==> Pending(x) && e.op == Keep)
      && (x.once != Fresh ==> e.x.once != Fresh)
  {}

  lemma StaysUnlive(c: Config, st: State, act: Action, a: nat)
    requires !c.early && Inv(c, st) && Gated(st) && OnAttempt(act) && Enabled(c, st, act)
    requires a in Apply(c, st, act).att && Pending(Apply(c, st, act).att[a])
    ensures !LiveAt(Apply(c, st, act), Apply(c, st, act).att[a].key)
  {
    hide EnabledAt, EffectOf, Local, Accounted, Listed;
    CreatorFacts(c, st, act);
    EffectFacts(c, st, act);
  }

  lemma StillOneCreator(c: Config, st: State, act: Action)
    requires !c.early && Inv(c, st) && Gated(st) && OnAttempt(act) && Enabled(c, st, act)
    ensures var att := Apply(c, st, act).att;
      && (forall a, b :: a in att && b in att && !Settled(att[a]) && !Settled(att[b]) ==> a == b)
      && (forall a :: a in att ==> |att[a].key.ip| == 16)
  {
    hide EnabledAt, EffectOf, Local, Accounted, Owned, Settled, Pending, LiveAt;
    CreatorFacts(c, st, act);
    EffectFacts(c, st, act);
    hide Inv;
  }

  lemma AttemptStepGated(c: Config, st: State, act: Action)
    requires !c.early && Inv(c, st) && Gated(st) && OnAttempt(act) && Enabled(c, st, act)
    ensures Gated(Apply(c, st, act))
  {
    StillOneCreator(c, st, act);
    hide EnabledAt, Inv, Apply, Settled, Pending, LiveAt;
    var st' := Apply(c, st, act);
    forall a | a in st'.att && Pending(st'.att[a]) ensures !LiveAt(st', st'.att[a].key) {
      StaysUnlive(c, st, act, a);
    }
  }

  lemma DialGated(c: Config, st: State, a: nat, key: Key)
    requires Gated(st) && a !in st.att && Owned(st) && FromLoop(st, Dial(a, key))
    ensures Gated(Apply(c, st, Dial(a, key)))
  {
    hide Listed;
  }

  lemma OtherStepGated(c: Config, st: State, act: Action)
    requires Gated(st) && !OnAttempt(act) && Enabled(c, st, act) && FromLoop(st, act) && Owned(st)
    ensures Gated(Apply(c, st, act))
  {
    hide EnabledAt, Owned;
    if act.Dial? {
      hide Gated, FromLoop;
      DialGated(c, st, act.a, act.key);
    } else {
      assert Apply(c, st, act) == st.(shutdown := Apply(c, st, act).shutdown);
    }
  }

  // ---------------------------------------------------------------- each action refined

  /** The creator that is refused at its count.Load sees its datagram dropped. */
  lemma RefusedStep(c: Config, cfg: F.Config, st: State, a: nat, f: F.State)
    requires SameLimits(c, cfg) && Inv(c, st) && Gated(st) && Projects(st, f)
    requires a in st.att && st.att[a].stage.Dialed? && c.maxSessions > 0 && st.count >= c.maxSessions
    ensures F.AtCapacity(cfg, f) && F.Handle(cfg, f, Ask(st.att[a].key)) == F.Outcome(f, None, None)
  {
    hide Local, Owned, Accounted, F.Handle;
    AloneCount(c, st, a);
    Asked(cfg, f, st.att[a].key);
  }

  // The datagram of a key that has no live session.
  lemma AskedUnlive(cfg: F.Config, st: State, f: F.State, key: Key)
    requires Projects(st, f) && cfg.policy != Require && |key.ip| == 16 && !LiveAt(st, key)
    ensures var o := F.Handle(cfg, f, Ask(key));
      if key in st.sessions || F.AtCapacity(cfg, f) then o == F.Outcome(f, None, None)
      else
        && o.rec.Some? && o.st.count == f.count + 1
        && o.st.sessions.Keys == f.sessions.Keys + {key}
        && o.st.sessions[key].phase == F.ALIVE && o.st.sessions[key].input.None?
        && forall k :: k in f.sessions ==> o.st.sessions[k] == f.sessions[k]
  {
    Asked(cfg, f, key);
    hide F.Handle, Ask, F.AtCapacity;
  }

  // Nobody owns two entries.
  ghost predicate OwnsOnly(st: State, a: nat, key: Key) {
    forall k :: k in st.sessions && st.sessions[k] == a ==> k == key
  }

  lemma OneKeyEach(st: State, a: nat)
    requires Owned(st) && a in st.att
    ensures OwnsOnly(st, a, st.att[a].key)
    ensures !Listed(a, st.att[a]) ==> forall k :: k in st.sessions ==> st.sessions[k] != a
  {
    hide Listed;
  }

  lemma PublishStored(st: State, f: F.State, f': F.State, st': State, a: nat)
    requires Projects(st, f) && a in st.att && a in st'.att && forall k :: k in st.sessions ==> st.sessions[k] != a
    requires var key := st.att[a].key;
      && key !in st.sessions && st'.sessions == st.sessions[key := a] && |st'.sessions| == |st.sessions| + 1
      && f'.count == f.count + 1 && f'.sessions.Keys == f.sessions.Keys + {key}
      && f'.sessions[key].phase == F.ALIVE && f'.sessions[key].input.None?
      && forall k :: k in f.sessions ==> f'.sessions[k] == f.sessions[k]
    requires st'.att[a].once == Fresh && forall b :: b in st.att && b != a ==> b in st'.att && st'.att[b] == st.att[b]
    requires Tally(st'.att, IsDeleted) == Tally(st.att, IsDeleted)
    ensures Projects(st', f')
  {
    hide IsDeleted;
    assert f'.sessions.Keys == st'.sessions.Keys;
    forall k | k in f'.sessions
      ensures f'.sessions[k].input.None? && st'.sessions[k] in st'.att
      ensures f'.sessions[k].phase == PhaseOf(st'.att[st'.sessions[k]].once)
    {
      if k != st.att[a].key {
        assert k in f.sessions && st'.sessions[k] == st.sessions[k] != a;
      }
    }
  }

  lemma PublishLost(st: State, f: F.State, st': State, a: nat)
    requires Projects(st, f) && a in st.att && forall k :: k in st.sessions ==> st.sessions[k] != a
    requires st'.sessions == st.sessions && a in st'.att
    requires forall b :: b in st.att && b != a ==> b in st'.att && st'.att[b] == st.att[b]
    requires Tally(st'.att, IsDeleted) == Tally(st.att, IsDeleted)
    ensures Projects(st', f)
  {
    hide IsDeleted;
  }

  /** A slot that is reserved is not taken by anybody else. */
  lemma SlotIsThere(c: Config, st: State, a: nat)
    requires Inv(c, st) && a in st.att && IsReserved(st.att[a])
    ensures c.maxSessions > 0 ==> |st.sessions| + Tally(st.att, IsDeleted) < c.maxSessions
  {
    hide Local, Owned;
    TallyZero(st.att, IsReserved);
  }

  lemma NotAtCapacity(c: Config, cfg: F.Config, st: State, a: nat, f: F.State)
    requires SameLimits(c, cfg) && Inv(c, st) && Projects(st, f) && a in st.att && st.att[a].stage.Made?
    ensures !F.AtCapacity(cfg, f)
  {
    hide Inv, IsDeleted;
    SlotIsThere(c, st, a);
  }

  lemma PublishTouches(c: Config, st: State, a: nat)
    requires !c.early && Inv(c, st) && a in st.att && st.att[a].stage.Made?
    ensures var st' := Apply(c, st, Publish(a));
      && st'.att.Keys == st.att.Keys && (forall b :: b in st.att && b != a ==> st'.att[b] == st.att[b])
      && st'.att[a].once == Fresh && !Listed(a, st.att[a])
      && Tally(st'.att, IsDeleted) == Tally(st.att, IsDeleted)
  {
    var act := Publish(a);
    EffectFacts(c, st, act);
    DeletedAfter(st, a, StepOf(c, st, act));
    hide Accounted, Owned;
  }

  lemma SizeAfterPublish(c: Config, st: State, a: nat)
    requires !c.early && Inv(c, st) && a in st.att && st.att[a].stage.Made?
    ensures var st', key := Apply(c, st, Publish(a)), st.att[a].key;
      if key in st.sessions then st'.sessions == st.sessions && st'.att[a].stage != Won && st.sessions[key] != a
      else st'.sessions == st.sessions[key := a] && |st'.sessions| == |st.sessions| + 1 && st'.att[a].stage == Won
  {
    hide Accounted;
    var key := st.att[a].key;
    assert st.sessions[key := a].Keys == st.sessions.Keys + {key};
    assert |st.sessions[key := a]| == |st.sessions[key := a].Keys| && |st.sessions| == |st.sessions.Keys|;
  }

  /** A session that gets stored is a datagram that is accepted; a creation race is one that is dropped. */
  lemma PublishStep(c: Config, cfg: F.Config, st: State, a: nat, f: F.State)
    requires SameLimits(c, cfg) && Inv(c, st) && Gated(st) && Projects(st, f)
    requires Enabled(c, st, Publish(a))
    ensures var o, st' := F.Handle(cfg, f, Ask(st.att[a].key)), Apply(c, st, Publish(a));
      && Projects(st', o.st)
      && (o.rec.Some? <==> st'.att[a].stage == Won)
      && (o.rec.None? ==> o == F.Outcome(f, None, None))
  {
    hide F.Handle, Local, Accounted, Owned, IsDeleted, Projects, Listed, LiveAt;
    assert !LiveAt(st, st.att[a].key) by {
      assert Pending(st.att[a]);
    }
    hide Gated, EffectOf, EnabledAt;
    var st' := Apply(c, st, Publish(a));
    AskedUnlive(cfg, st, f, st.att[a].key);
    NotAtCapacity(c, cfg, st, a, f);
    SizeAfterPublish(c, st, a);
    PublishTouches(c, st, a);
    OneKeyEach(st, a);
    hide Inv, Apply;
    if st.att[a].key in st.sessions {
      PublishLost(st, f, st', a);
    } else {
      PublishStored(st, f, F.Handle(cfg, f, Ask(st.att[a].key)).st, st', a);
    }
  }

  /** close(done), the clearing of the source and the closing of the socket, one by one. */
  lemma PhaseStep(c: Config, cfg: F.Config, st: State, act: Action, f: F.State)
    requires !c.early && Inv(c, st) && Projects(st, f) && Phases(act) && Enabled(c, st, act)
    ensures Projects(Apply(c, st, act), After(cfg, f, EventAt(c, st, act)))
  {
    hide Local, Accounted, EffectOf, EnabledAt, IsDeleted, PhaseOf, EventAt;
    EffectFacts(c, st, act);
    DeletedAfter(st, act.a, StepOf(c, st, act));
  }

  lemma DeleteStep(c: Config, cfg: F.Config, st: State, a: nat, f: F.State)
    requires !c.early && Inv(c, st) && Projects(st, f) && Enabled(c, st, Delete(a))
    ensures Projects(Apply(c, st, Delete(a)), F.Delete(f, st.att[a].key))
  {
    hide Local, Accounted, EffectOf, EnabledAt, Published;
    EffectFacts(c, st, Delete(a));
    var e := StepOf(c, st, Delete(a));
    DeletedAfter(st, a, e);
    SizeAfter(st, a, e);
    hide IsDeleted, Listed;
    assert st.sessions[st.att[a].key] == a;
    OneKeyEach(st, a);
    hide Owned;
    DeleteAfter(st, a, e, f);
  }

  lemma DeleteAfter(st: State, a: nat, e: Effect, f: F.State)
    requires Projects(st, f) && a in st.att && OwnsOnly(st, a, e.x.key) && e.x.key == st.att[a].key && e.op == Remove
    requires e.x.key in st.sessions && st.sessions[e.x.key] == a
    requires PhaseOf(st.att[a].once) == F.CLOSED
    requires |Affect(st, a, e).sessions| == |st.sessions| - 1
    requires Tally(Affect(st, a, e).att, IsDeleted) == Tally(st.att, IsDeleted) + 1
    ensures Projects(Affect(st, a, e), F.Delete(f, st.att[a].key))
  {
    hide IsDeleted;
    var key, st' := e.x.key, Affect(st, a, e);
    assert F.Delete(f, key) == f.(sessions := f.sessions - {key});
    assert (f.sessions - {key}).Keys == f.sessions.Keys - {key} && st'.sessions.Keys == st.sessions.Keys - {key};
  }

  lemma DecrementStep(c: Config, cfg: F.Config, st: State, a: nat, f: F.State)
    requires !c.early && Inv(c, st) && Projects(st, f) && Enabled(c, st, Decrement(a))
    ensures Projects(Apply(c, st, Decrement(a)), F.Settle(f))
  {
    hide Local, Accounted, EffectOf, EnabledAt;
    EffectFacts(c, st, Decrement(a));
    DeletedAfter(st, a, StepOf(c, st, Decrement(a)));
    TallyZero(st.att, IsDeleted);
    assert |f.sessions| == |f.sessions.Keys| && |st.sessions| == |st.sessions.Keys|;
  }

  /** One action of the machine is at most one event of the transducer. */
  lemma StepRefines(c: Config, cfg: F.Config, st: State, act: Action, f: F.State)
    requires SameLimits(c, cfg) && Inv(c, st) && Gated(st) && Projects(st, f)
    requires Enabled(c, st, act) && FromLoop(st, act)
    ensures Projects(Apply(c, st, act), After(cfg, f, EventAt(c, st, act)))
  {
    hide Inv, Gated, Projects, EffectOf, EnabledAt, F.Handle;
    match act
    case Publish(a) => PublishStep(c, cfg, st, a, f);
    case Delete(a) => DeleteStep(c, cfg, st, a, f);
    case Decrement(a) => DecrementStep(c, cfg, st, a, f);
    case Check(a) => CheckStep(c, cfg, st, a, f);
    case Dial(_, _) => UnseenStep(c, st, act, f);
    case _ =>
      if Phases(act) {
        PhaseStep(c, cfg, st, act, f);
      } else if OnAttempt(act) {
        SilentStep(c, st, act, f);
      } else {
        UnseenStep(c, st, act, f);
      }
  }

  lemma CheckStep(c: Config, cfg: F.Config, st: State, a: nat, f: F.State)
    requires SameLimits(c, cfg) && Inv(c, st) && Gated(st) && Projects(st, f) && Enabled(c, st, Check(a))
    ensures Projects(Apply(c, st, Check(a)), After(cfg, f, EventAt(c, st, Check(a))))
  {
    hide Inv, Gated, Projects, F.Handle, EffectOf;
    SilentStep(c, st, Check(a), f);
    if c.maxSessions > 0 && st.count >= c.maxSessions {
      RefusedStep(c, cfg, st, a, f);
    }
  }

  lemma DialUnseen(c: Config, st: State, a: nat, key: Key, f: F.State)
    requires Projects(st, f) && a !in st.att
    ensures Projects(Apply(c, st, Dial(a, key)), f)
  {
    TallyPut(st.att, a, Attempt(key, Dialed, Fresh, NotStarted, false, 0), IsDeleted);
  }

  /** The turns of ExpireAll touch nothing that the transducer has. */
  lemma UnseenStep(c: Config, st: State, act: Action, f: F.State)
    requires Projects(st, f) && !OnAttempt(act) && Enabled(c, st, act)
    ensures Projects(Apply(c, st, act), f)
  {
    hide EnabledAt;
    if act.Dial? {
      hide Projects, IsDeleted;
      DialUnseen(c, st, act.a, act.key, f);
    } else {
      assert Apply(c, st, act) == st.(shutdown := Apply(c, st, act).shutdown);
    }
  }

  // ---------------------------------------------------------------- whole runs

  /** Every action along the run is one that a single receive loop allows. */
  ghost predicate Serial(c: Config, st: State, acts: seq<Action>)
    requires Exec(c, st, acts).Some?
    decreases |acts|
  {
    if acts == [] then true else FromLoop(st, acts[0]) && Serial(c, Apply(c, st, acts[0]), acts[1..])
  }

  function Trace(c: Config, st: State, acts: seq<Action>): seq<F.Event>
    requires Exec(c, st, acts).Some?
    decreases |acts|
  {
    if acts == [] then []
    else F.ToSeq(EventAt(c, st, acts[0])) + Trace(c, Apply(c, st, acts[0]), acts[1..])
  }

  lemma StepGated(c: Config, st: State, act: Action)
    requires !c.early && Inv(c, st) && Gated(st) && Enabled(c, st, act) && FromLoop(st, act)
    ensures Gated(Apply(c, st, act))
  {
    hide Gated, EnabledAt, EffectOf, Local, Accounted;
    if OnAttempt(act) {
      AttemptStepGated(c, st, act);
    } else {
      OtherStepGated(c, st, act);
    }
  }

  lemma SoundEvent(c: Config, st: State, act: Action)
    requires Gated(st) && Enabled(c, st, act)
    ensures var e := EventAt(c, st, act); e.Some? && e.value.Arrive? ==> IsValid(e.value.a.peer.ip)
  {}

  lemma {:induction false} RunRefines(c: Config, cfg: F.Config, st: State, acts: seq<Action>, r: F.Run)
    requires SameLimits(c, cfg) && Inv(c, st) && Gated(st) && Projects(st, r.st)
    requires Exec(c, st, acts).Some? && Serial(c, st, acts)
    ensures F.Sound(Trace(c, st, acts))
    ensures Projects(Exec(c, st, acts).value, F.Exec(cfg, r, Trace(c, st, acts)).st)
    decreases |acts|
  {
    hide Inv, Gated, Projects, Enabled, EnabledAt, Apply, F.Step;
    if acts == [] {
    } else {
      var act := acts[0];
      var st', e, rest := Apply(c, st, act), EventAt(c, st, act), Trace(c, Apply(c, st, act), acts[1..]);
      StepRefines(c, cfg, st, act, r.st);
      StepKeeps(c, st, act);
      StepGated(c, st, act);
      SoundEvent(c, st, act);
      if e.Some? {
        assert ([e.value] + rest)[0] == e.value && ([e.value] + rest)[1..] == rest;
        RunRefines(c, cfg, st', acts[1..], F.Advance(cfg, r, e.value));
      } else {
        assert [] + rest == rest;
        RunRefines(c, cfg, st', acts[1..], r);
      }
    }
  }

  /** Done flags and sockets follow from the phases. */
  lemma PhasesTell(c: Config, st: State, f: F.State, k: Key)
    requires Inv(c, st) && Projects(st, f) && k in st.sessions
    ensures var x := st.att[st.sessions[k]];
      (x.done <==> F.Done(f.sessions[k])) && (x.closes == 0 <==> f.sessions[k].phase < F.CLOSED)
  {
    assert Local(st.sessions[k], st.att[st.sessions[k]]);
    hide Accounted;
  }

  /**
   * On every run of the machine that a receive loop allows, with all its timers, readers and
   * ExpireAll, the transducer goes through the same keys, done flags, sockets and counter,
   * although it handles the datagrams of creators whole.
   */
  lemma LoopRunsAreTransducerRuns(c: Config, cfg: F.Config, acts: seq<Action>)
    requires SameLimits(c, cfg) && Exec(c, START, acts).Some? && Serial(c, START, acts)
    ensures F.Sound(Trace(c, START, acts))
    ensures var st, f := Exec(c, START, acts).value, F.Exec(cfg, F.START, Trace(c, START, acts)).st;
      && Projects(st, f)
      && forall k :: k in st.sessions ==>
           var x := st.att[st.sessions[k]];
           (x.done <==> F.Done(f.sessions[k])) && (x.closes == 0 <==> f.sessions[k].phase < F.CLOSED)
  {
    StartHolds(c);
    RunRefines(c, cfg, START, acts, F.START);
    RunKeeps(c, START, acts);
    var st, f := Exec(c, START, acts).value, F.Exec(cfg, F.START, Trace(c, START, acts)).st;
    hide Exec, F.Exec, Trace;
    forall k | k in st.sessions
      ensures var x := st.att[st.sessions[k]];
        (x.done <==> F.Done(f.sessions[k])) && (x.closes == 0 <==> f.sessions[k].phase < F.CLOSED)
    {
      PhasesTell(c, st, f, k);
    }
  }
}
