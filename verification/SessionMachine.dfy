/**
 * internal/udp/manager.go and session.go under every interleaving: creators inside
 * handleDatagram and Create, the expire() of each session, the readers, and ExpireAll.
 * One atomic operation of the code is one action.
 */
module SessionMachine {
  import opened Basics
  import opened SessionKey

  // ---------------------------------------------------------------- state

  // An attempt is one pass through DialUDP and Create. Its number names the attempt, its
  // upstream socket and its session.
  datatype Stage =
    | Dialed                 // socket open, Create not entered
    | Checked                // count.Load was below the limit
    | Over                   // count.Add went past the limit, not rolled back
    | Refused                // ErrMaxSessions returned, the caller has not closed the socket
    | Reserved               // slot taken, no session yet
    | Made                   // newSession done, idle timer armed
    | Won                    // stored by LoadOrStore, reader not started
    | Lost(winner: nat)      // LoadOrStore found another session, slot not given back
    | RolledBack(winner: nat)
    | Closing(winner: nat)   // inside the loser's once block: done closed, socket not yet
    | Returned(sid: nat)
    | Failed

  // How far the session's sync.Once block has run.
  datatype Once = Fresh | DoneClosed | Cleared | SocketClosed | Deleted | Spent

  datatype Reader = NotStarted | Reading | Exited

  // closes counts the upstream.Close calls on the attempt's socket.
  datatype Attempt = Attempt(key: Key, stage: Stage, once: Once, reader: Reader, done: bool, closes: nat)

  // ExpireAll inside Range: the map when Range began, the keys visited, the session whose
  // expire() is being called. Then inside wg.Wait, then returned.
  datatype Shutdown =
    | NotCalled
    | Ranging(begun: map<Key, nat>, visited: set<Key>, current: Option<nat>)
    | Waiting
    | Complete

  datatype State = State(count: int, sessions: map<Key, nat>, att: map<nat, Attempt>, wg: int, shutdown: Shutdown)

  // early lets the idle timer of a session fire before its Create is past LoadOrStore.
  datatype Config = Config(maxSessions: int, early: bool)

  const START: State := State(0, map[], map[], 0, NotCalled)

  datatype Action =
    | Dial(a: nat, key: Key)
    | Check(a: nat)          // count.Load, or count.Add(1) when there is no limit
    | Add(a: nat)            // count.Add(1)
    | RollOver(a: nat)       // count.Add(-1) after overshooting
    | CloseRefused(a: nat)   // upstream.Close by handleDatagram
    | Make(a: nat)           // newSession
    | Publish(a: nat)        // LoadOrStore
    | RollBack(a: nat)       // count.Add(-1) after losing the race
    | LoseDone(a: nat)       // loser's once block: close(done)
    | LoseClose(a: nat)      // loser's once block: upstream.Close
    | StartReader(a: nat)    // wg.Add(1), go readLoop
    | Expire(a: nat)         // enter the once block: close(done)
    | Clear(a: nat)          // inputSource and inputSrcKind to nil
    | CloseSocket(a: nat)    // upstream.Close
    | Delete(a: nat)         // sessions.Delete(key)
    | Decrement(a: nat)      // count.Add(-1)
    | ReaderExit(a: nat)     // wg.Done
    | ExpireAll
    | Visit(key: Key, sid: nat) // Range yields an entry; its expire() is called
    | Visited                // that expire() has returned
    | RangeEnd
    | WaitEnd                // wg.Wait returns

  // ---------------------------------------------------------------- steps

  // The session is in the manager's hands: its Create is past LoadOrStore and won.
  predicate Published(a: nat, x: Attempt) {
    x.stage == Won || x.stage == Returned(a)
  }

  // expire() may be entered: by the timer, the reader or ExpireAll.
  predicate MayExpire(c: Config, a: nat, x: Attempt) {
    x.once == Fresh && (Published(a, x) || (c.early && (x.stage.Made? || x.stage.Lost? || x.stage.RolledBack?)))
  }

  function Put(st: State, a: nat, x: Attempt): State {
    st.(att := st.att[a := x])
  }

  // Stored throughout the Range call so far.
  predicate Steady(st: State, key: Key)
    requires st.shutdown.Ranging?
  {
    key in st.sessions && key in st.shutdown.begun && st.shutdown.begun[key] == st.sessions[key]
  }

  // sync.Map.Range yields no key twice. An entry stored throughout is yielded as it is; under
  // any other key Range may yield nothing, or a session that is stored no longer.
  predicate MayYield(st: State, key: Key, sid: nat) {
    && st.shutdown.Ranging? && st.shutdown.current.None? && key !in st.shutdown.visited
    && sid in st.att && st.att[sid].key == key && Published(sid, st.att[sid])
    && (Steady(st, key) ==> sid == st.sessions[key])
  }

  predicate RangeMayEnd(st: State) {
    && st.shutdown.Ranging? && st.shutdown.current.None?
    && forall k :: k in st.sessions && Steady(st, k) ==> k in st.shutdown.visited
  }

  predicate Enabled(c: Config, st: State, act: Action) {
    match act
    case Dial(a, _) => a !in st.att
    case ExpireAll => st.shutdown.NotCalled?
    case Visit(key, sid) => MayYield(st, key, sid)
    case Visited =>
      && st.shutdown.Ranging? && st.shutdown.current.Some?
      && st.shutdown.current.value in st.att && st.att[st.shutdown.current.value].once == Spent
    case RangeEnd => RangeMayEnd(st)
    case WaitEnd => st.shutdown.Waiting? && st.wg == 0
    case _ => act.a in st.att && EnabledAt(c, act, act.a, st.att[act.a])
  }

  predicate EnabledAt(c: Config, act: Action, a: nat, x: Attempt) {
    match act
    case Check(_) => x.stage.Dialed?
    case Add(_) => x.stage.Checked?
    case RollOver(_) => x.stage.Over?
    case CloseRefused(_) => x.stage.Refused?
    case Make(_) => x.stage.Reserved?
    case Publish(_) => x.stage.Made?
    case RollBack(_) => x.stage.Lost?
    case LoseDone(_) => x.stage.RolledBack? && (x.once == Fresh || x.once == Spent)
    case LoseClose(_) => x.stage.Closing?
    case StartReader(_) => x.stage.Won?
    case Expire(_) => MayExpire(c, a, x)
    case Clear(_) => x.once == DoneClosed && !x.stage.Closing?
    case CloseSocket(_) => x.once == Cleared
    case Delete(_) => x.once == SocketClosed
    case Decrement(_) => x.once == Deleted
    case ReaderExit(_) => x.reader == Reading && x.done
    case _ => false
  }

  // What an action does: to its attempt, to the counter, to the wait group and to the map.
  datatype MapOp = Keep | Store | Remove
  datatype Effect = Effect(x: Attempt, count: int, wg: int, op: MapOp)

  function EffectOf(c: Config, count: int, sessions: map<Key, nat>, act: Action, a: nat, x: Attempt): Effect
    requires EnabledAt(c, act, a, x)
  {
    match act
    case Check(_) =>
      if c.maxSessions <= 0 then Effect(x.(stage := Reserved), 1, 0, Keep)
      else Effect(x.(stage := if count >= c.maxSessions then Refused else Checked), 0, 0, Keep)
    case Add(_) => Effect(x.(stage := if count + 1 > c.maxSessions then Over else Reserved), 1, 0, Keep)
    case RollOver(_) => Effect(x.(stage := Refused), -1, 0, Keep)
    case CloseRefused(_) => Effect(x.(stage := Failed, closes := x.closes + 1), 0, 0, Keep)
    case Make(_) => Effect(x.(stage := Made), 0, 0, Keep)
    case Publish(_) =>
      if x.key in sessions then Effect(x.(stage := Lost(sessions[x.key])), 0, 0, Keep)
      else Effect(x.(stage := Won), 0, 0, Store)
    case RollBack(_) => Effect(x.(stage := RolledBack(x.stage.winner)), -1, 0, Keep)
    case LoseDone(_) =>
      // The once block runs only if no one ran it before.
      if x.once == Fresh then Effect(x.(stage := Closing(x.stage.winner), once := DoneClosed, done := true), 0, 0, Keep)
      else Effect(x.(stage := Returned(x.stage.winner)), 0, 0, Keep)
    case LoseClose(_) =>
      Effect(x.(stage := Returned(x.stage.winner), once := Spent, closes := x.closes + 1), 0, 0, Keep)
    case StartReader(_) => Effect(x.(stage := Returned(a), reader := Reading), 0, 1, Keep)
    case Expire(_) => Effect(x.(once := DoneClosed, done := true), 0, 0, Keep)
    case Clear(_) => Effect(x.(once := Cleared), 0, 0, Keep)
    case CloseSocket(_) => Effect(x.(once := SocketClosed, closes := x.closes + 1), 0, 0, Keep)
    case Delete(_) => Effect(x.(once := Deleted), 0, 0, Remove)
    case Decrement(_) => Effect(x.(once := Spent), -1, 0, Keep)
    case ReaderExit(_) => Effect(x.(reader := Exited), 0, -1, Keep)
  }

  function Apply(c: Config, st: State, act: Action): State
    requires Enabled(c, st, act)
  {
    match act
    case Dial(a, key) => Put(st, a, Attempt(key, Dialed, Fresh, NotStarted, false, 0))
    case ExpireAll => st.(shutdown := Ranging(st.sessions, {}, None))
    case Visit(key, sid) => st.(shutdown := st.shutdown.(visited := st.shutdown.visited + {key}, current := Some(sid)))
    case Visited => st.(shutdown := st.shutdown.(current := None))
    case RangeEnd => st.(shutdown := Waiting)
    case WaitEnd => st.(shutdown := Complete)
    case _ => Affect(st, act.a, EffectOf(c, st.count, st.sessions, act, act.a, st.att[act.a]))
  }

  function Affect(st: State, a: nat, e: Effect): State {
    var sessions :=
      match e.op
      case Keep => st.sessions
      case Store => st.sessions[e.x.key := a]
      case Remove => st.sessions - {e.x.key};
    State(st.count + e.count, sessions, st.att[a := e.x], st.wg + e.wg, st.shutdown)
  }

  /** The state after the actions, if each was enabled in its turn. */
  function Exec(c: Config, st: State, acts: seq<Action>): Option<State>
    decreases |acts|
  {
    if acts == [] then Some(st)
    else if Enabled(c, st, acts[0]) then Exec(c, Apply(c, st, acts[0]), acts[1..])
    else None
  }

  // ---------------------------------------------------------------- what the counter counts

  predicate IsReserved(x: Attempt) { x.stage.Reserved? || x.stage.Made? }
  predicate IsLost(x: Attempt) { x.stage.Lost? }
  predicate IsOver(x: Attempt) { x.stage.Over? }
  predicate IsDeleted(x: Attempt) { x.once == Deleted }
  predicate IsReading(x: Attempt) { x.reader == Reading }

  /** Slots that are rightly held: stored, reserved, to be given back by a loser or by expire(). */
  ghost function Tickets(st: State): nat {
    |st.sessions| + Tally(st.att, IsReserved) + Tally(st.att, IsLost) + Tally(st.att, IsDeleted)
  }

  ghost predicate Accounted(c: Config, st: State) {
    && st.count == Tickets(st) + Tally(st.att, IsOver)
    && (c.maxSessions > 0 ==> Tickets(st) <= c.maxSessions)
    && st.wg == Tally(st.att, IsReading)
  }

  // ---------------------------------------------------------------- what holds of one attempt

  // Stored and not yet deleted.
  predicate Listed(a: nat, x: Attempt) {
    Published(a, x) && x.once in {Fresh, DoneClosed, Cleared, SocketClosed}
  }

  predicate Local(a: nat, x: Attempt) {
    && x.closes == (if SocketOpen(a, x) then 0 else 1)
    && x.done == (x.once != Fresh)
    && (Published(a, x) || x.stage.Closing? || x.stage.Returned? ||  x.once == Fresh)
    && (x.stage.Closing? ==> x.once == DoneClosed)
    && (x.stage.Returned? && x.stage.sid != a ==> x.once == Spent)
    && ((x.stage.Lost? || x.stage.RolledBack? || x.stage.Closing?) ==> x.stage.winner != a)
    && (x.reader == NotStarted <==> x.stage != Returned(a))
  }

  // In flight, or of a session whose expire() has not closed it yet.
  predicate SocketOpen(a: nat, x: Attempt) {
    if Published(a, x) then x.once in {Fresh, DoneClosed, Cleared}
    else !x.stage.Returned? && !x.stage.Failed?
  }

  ghost predicate Owned(st: State) {
    && (forall k :: k in st.sessions ==>
          && st.sessions[k] in st.att
          && st.att[st.sessions[k]].key == k
          && Listed(st.sessions[k], st.att[st.sessions[k]]))
    && (forall a :: a in st.att && Listed(a, st.att[a]) ==>
          st.att[a].key in st.sessions && st.sessions[st.att[a].key] == a)
  }

  ghost predicate Inv(c: Config, st: State) {
    && Owned(st)
    && (forall a :: a in st.att ==> Local(a, st.att[a]))
    && Accounted(c, st)
  }
}
