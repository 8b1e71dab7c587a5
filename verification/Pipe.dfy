/** internal/gateway/pipe.go: two copy loops over two connections. */
module Pipe {
  import opened Basics

  // ---------------------------------------------------------------- connections and loops

  // Read half: bytes received and unread, bytes that the peer will yet send, whether its end of
  // stream has arrived, the read deadline. Write half: bytes delivered to the peer, half-closed.
  datatype Conn = Conn(
    arrived: seq<byte>,
    coming: seq<byte>,
    fin: bool,
    readDeadline: Option<int>,
    delivered: seq<byte>,
    writeClosed: bool)

  datatype Phase =
    | Idle                    // top of the copy loop
    | Waiting                 // inside Read
    | Holding                 // a chunk read and not yet written
    | Stopped(clean: bool)    // io.Copy has returned; clean: at end of stream, without error
    | HalfClosed(clean: bool) // CloseWrite called on the sink

  // buffered: bytes peeked from the source during header detection.
  datatype Loop = Loop(buffered: seq<byte>, chunk: seq<byte>, phase: Phase)

  datatype LoopAct =
    | Call               // Read is called; the source's deadline is pushed out first
    | Data(n: nat)       // Read returns n bytes
    | Eof
    | TimedOut
    | ReadError
    | WriteAll
    | WriteShort(n: nat) // the sink takes n bytes and fails
    | CloseWrite

  predicate CanAct(now: int, l: Loop, src: Conn, dst: Conn, act: LoopAct) {
    match act
    case Call => l.phase.Idle?
    case Data(n) => l.phase.Waiting? && 0 < n <= (if l.buffered != [] then |l.buffered| else |src.arrived|)
    case Eof => l.phase.Waiting? && l.buffered == [] && src.arrived == [] && src.fin
    case TimedOut => l.phase.Waiting? && l.buffered == [] && src.readDeadline.Some? && src.readDeadline.value <= now
    case ReadError => l.phase.Waiting? && l.buffered == []
    case WriteAll => l.phase.Holding? && !dst.writeClosed
    case WriteShort(n) => l.phase.Holding? && n <= |l.chunk| && (dst.writeClosed ==> n == 0)
    case CloseWrite => l.phase.Stopped?
  }

  /** One step of a copy loop from src to dst. A timeout of zero sets no deadlines. */
  function Act(timeout: int, now: int, l: Loop, src: Conn, dst: Conn, act: LoopAct): (Loop, Conn, Conn)
    requires CanAct(now, l, src, dst, act)
  {
    match act
    case Call =>
      var armed := if timeout > 0 then src.(readDeadline := Some(now + timeout)) else src;
      (l.(phase := Waiting), armed, dst)
    case Data(n) =>
      // bufio.Reader serves what it has before it touches the connection.
      if l.buffered != [] then (l.(phase := Holding, chunk := l.buffered[..n], buffered := l.buffered[n..]), src, dst)
      else (l.(phase := Holding, chunk := src.arrived[..n]), src.(arrived := src.arrived[n..]), dst)
    case Eof => (l.(phase := Stopped(true)), src, dst)
    case TimedOut => (l.(phase := Stopped(false)), src, dst)
    case ReadError => (l.(phase := Stopped(false)), src, dst)
    case WriteAll => (l.(phase := Idle, chunk := []), src, dst.(delivered := dst.delivered + l.chunk))
    case WriteShort(n) =>
      (l.(phase := Stopped(false), chunk := l.chunk[n..]), src, dst.(delivered := dst.delivered + l.chunk[..n]))
    case CloseWrite => (l.(phase := HalfClosed(l.phase.clean)), src, dst.(writeClosed := true))
  }

  // ---------------------------------------------------------------- the pipe

  datatype Side = UpSide | DownSide

  // up copies from client to upstream, down from upstream to client.
  datatype State = State(now: int, client: Conn, upstream: Conn, up: Loop, down: Loop, returned: bool)

  // Arrive and Fin happen on the connection that is the source of the side named.
  datatype Action = Up(a: LoopAct) | Down(a: LoopAct) | Arrive(at: Side, n: nat) | Fin(at: Side) | Tick(n: nat) | Return

  function LoopOf(st: State, side: Side): Loop { if side.UpSide? then st.up else st.down }
  function Source(st: State, side: Side): Conn { if side.UpSide? then st.client else st.upstream }
  function Sink(st: State, side: Side): Conn { if side.UpSide? then st.upstream else st.client }

  function Received(c: Conn, n: nat): Conn
    requires n <= |c.coming|
  {
    c.(arrived := c.arrived + c.coming[..n], coming := c.coming[n..])
  }

  predicate Enabled(st: State, act: Action) {
    !st.returned &&
    match act
    case Up(a) => CanAct(st.now, st.up, st.client, st.upstream, a)
    case Down(a) => CanAct(st.now, st.down, st.upstream, st.client, a)
    case Arrive(at, n) => n <= |Source(st, at).coming| && !Source(st, at).fin
    case Fin(at) => Source(st, at).coming == [] && !Source(st, at).fin
    case Tick(_) => true
    case Return => st.up.phase.HalfClosed? && st.down.phase.HalfClosed?
  }

  function Apply(timeout: int, st: State, act: Action): State
    requires Enabled(st, act)
  {
    match act
    case Up(a) =>
      var (l, src, dst) := Act(timeout, st.now, st.up, st.client, st.upstream, a);
      st.(up := l, client := src, upstream := dst)
    case Down(a) =>
      var (l, src, dst) := Act(timeout, st.now, st.down, st.upstream, st.client, a);
      st.(down := l, upstream := src, client := dst)
    case Arrive(at, n) =>
      if at.UpSide? then st.(client := Received(st.client, n)) else st.(upstream := Received(st.upstream, n))
    case Fin(at) =>
      if at.UpSide? then st.(client := st.client.(fin := true)) else st.(upstream := st.upstream.(fin := true))
    case Tick(n) => st.(now := st.now + n)
    case Return => st.(returned := true)
  }

  function Exec(timeout: int, st: State, acts: seq<Action>): Option<State>
    decreases |acts|
  {
    if acts == [] then Some(st)
    else if Enabled(st, acts[0]) then Exec(timeout, Apply(timeout, st, acts[0]), acts[1..])
    else None
  }

  // ---------------------------------------------------------------- what a loop shares with the other one

  predicate SameReadHalf(c: Conn, d: Conn) {
    c.arrived == d.arrived && c.coming == d.coming && c.fin == d.fin && c.readDeadline == d.readDeadline
  }

  predicate SameWriteHalf(c: Conn, d: Conn) {
    c.delivered == d.delivered && c.writeClosed == d.writeClosed
  }

  /** A loop looks at and changes the read half of its source and the write half of its sink only. */
  lemma ActIsLocal(timeout: int, now: int, l: Loop, src: Conn, dst: Conn, src': Conn, dst': Conn, act: LoopAct)
    requires SameReadHalf(src, src') && SameWriteHalf(dst, dst')
    ensures CanAct(now, l, src, dst, act) == CanAct(now, l, src', dst', act)
    ensures CanAct(now, l, src, dst, act) ==>
      var (r, r') := (Act(timeout, now, l, src, dst, act), Act(timeout, now, l, src', dst', act));
      && r.0 == r'.0 && SameReadHalf(r.1, r'.1) && SameWriteHalf(r.2, r'.2)
      && SameWriteHalf(r.1, src) && SameReadHalf(r.2, dst)
  {}

  // What the loop of one side and its two halves look like.
  predicate SameView(st: State, side: Side, l: Loop, src: Conn, dst: Conn) {
    LoopOf(st, side) == l && SameReadHalf(Source(st, side), src) && SameWriteHalf(Sink(st, side), dst)
  }

  datatype LoopEvent = Do(a: LoopAct) | Receive(n: nat) | End | Pass(n: nat)

  // What a side's loop has to do with an action of the pipe: its own steps, its source, the clock.
  function Seen(side: Side, act: Action): Option<LoopEvent> {
    match act
    case Up(a) => if side.UpSide? then Some(Do(a)) else None
    case Down(a) => if side.DownSide? then Some(Do(a)) else None
    case Arrive(at, n) => if at == side then Some(Receive(n)) else None
    case Fin(at) => if at == side then Some(End) else None
    case Tick(n) => Some(Pass(n))
    case Return => None
  }

  function Project(side: Side, acts: seq<Action>): seq<LoopEvent> {
    if acts == [] then []
    else
      var rest := Project(side, acts[1..]);
      if Seen(side, acts[0]).Some? then [Seen(side, acts[0]).value] + rest else rest
  }

  datatype Lone = Lone(now: int, l: Loop, src: Conn, dst: Conn)

  predicate CanStep(s: Lone, e: LoopEvent) {
    match e
    case Do(a) => CanAct(s.now, s.l, s.src, s.dst, a)
    case Receive(n) => n <= |s.src.coming| && !s.src.fin
    case End => s.src.coming == [] && !s.src.fin
    case Pass(_) => true
  }

  function StepAlone(timeout: int, s: Lone, e: LoopEvent): Lone
    requires CanStep(s, e)
  {
    match e
    case Do(a) => var (l, src, dst) := Act(timeout, s.now, s.l, s.src, s.dst, a); Lone(s.now, l, src, dst)
    case Receive(n) => s.(src := Received(s.src, n))
    case End => s.(src := s.src.(fin := true))
    case Pass(n) => s.(now := s.now + n)
  }

  /** One loop by itself, between two connections that nobody else uses. */
  function ExecAlone(timeout: int, s: Lone, evs: seq<LoopEvent>): Option<Lone>
    decreases |evs|
  {
    if evs == [] then Some(s)
    else if CanStep(s, evs[0]) then ExecAlone(timeout, StepAlone(timeout, s, evs[0]), evs[1..])
    else None
  }

  // Inside the pipe a side looks as the lone loop does.
  predicate Mirrors(st: State, side: Side, s: Lone) {
    st.now == s.now && SameView(st, side, s.l, s.src, s.dst)
  }

  lemma StepMirrored(timeout: int, st: State, act: Action, side: Side, s: Lone)
    requires Enabled(st, act) && Mirrors(st, side, s)
    ensures match Seen(side, act)
            case Some(e) => CanStep(s, e) && Mirrors(Apply(timeout, st, act), side, StepAlone(timeout, s, e))
            case None => Mirrors(Apply(timeout, st, act), side, s)
  {
    hide CanAct, Act;
    match act
    case Up(a) =>
      ActIsLocal(timeout, st.now, st.up, st.client, st.upstream, st.client, st.upstream, a);
      if side.UpSide? { ActIsLocal(timeout, st.now, st.up, st.client, st.upstream, s.src, s.dst, a); }
    case Down(a) =>
      ActIsLocal(timeout, st.now, st.down, st.upstream, st.client, st.upstream, st.client, a);
      if side.DownSide? { ActIsLocal(timeout, st.now, st.down, st.upstream, st.client, s.src, s.dst, a); }
    case _ =>
  }

  /**
   * A side inside the pipe behaves as a loop that has its two connections to itself: although
   * both loops use both connections, neither data nor deadlines nor failures nor the half-close
   * of the other side ever reach it.
   */
  lemma {:induction false} DirectionsAreIndependent(timeout: int, st: State, acts: seq<Action>, side: Side, s: Lone)
    requires Exec(timeout, st, acts).Some? && Mirrors(st, side, s)
    ensures ExecAlone(timeout, s, Project(side, acts)).Some?
    ensures Mirrors(Exec(timeout, st, acts).value, side, ExecAlone(timeout, s, Project(side, acts)).value)
    decreases |acts|
  {
    if acts == [] {
    } else {
      StepMirrored(timeout, st, acts[0], side, s);
      var st1, rest := Apply(timeout, st, acts[0]), Project(side, acts[1..]);
      match Seen(side, acts[0])
      case Some(e) =>
        assert ([e] + rest)[1..] == rest;
        DirectionsAreIndependent(timeout, st1, acts[1..], side, StepAlone(timeout, s, e));
      case None =>
        DirectionsAreIndependent(timeout, st1, acts[1..], side, s);
    }
  }

  // ---------------------------------------------------------------- safety of one loop

  /** Everything the source's peer has sent or will send that is not part of the header. */
  function Stream(l: Loop, src: Conn, dst: Conn): seq<byte> {
    dst.delivered + l.chunk + l.buffered + src.arrived + src.coming
  }

  predicate Finished(l: Loop) { l.phase.Stopped? || l.phase.HalfClosed? }

  predicate LoopInv(timeout: int, s: Lone) {
    var (l, src, dst) := (s.l, s.src, s.dst);
    && (l.phase.Idle? || l.phase.Waiting? ==> l.chunk == [])
    && (src.fin ==> src.coming == [])
    && (Finished(l) && l.phase.clean ==> l.chunk == l.buffered == src.arrived == src.coming == [])
    && (dst.writeClosed <==> l.phase.HalfClosed?)
    && (timeout <= 0 ==> src.readDeadline.None?)
  }

  lemma Moved(a: seq<byte>, b: seq<byte>, n: nat)
    requires n <= |b|
    ensures a + b[..n] + b[n..] == a + b
  {}

  /** No byte is lost, duplicated or reordered by any step. */
  lemma ActConserves(timeout: int, now: int, l: Loop, src: Conn, dst: Conn, act: LoopAct)
    requires CanAct(now, l, src, dst, act) && (l.phase.Waiting? ==> l.chunk == [])
    ensures var r := Act(timeout, now, l, src, dst, act);
      Stream(r.0, r.1, r.2) == Stream(l, src, dst) && dst.delivered <= r.2.delivered
  {
    match act
    case Data(n) =>
      Moved(dst.delivered, if l.buffered != [] then l.buffered else src.arrived, n);
      assert l.chunk == [] && dst.delivered + [] == dst.delivered;
    case WriteAll => assert dst.delivered + l.chunk + [] == dst.delivered + l.chunk;
    case WriteShort(n) => Moved(dst.delivered, l.chunk, n);
    case _ =>
  }

  lemma ReceiveConserves(l: Loop, src: Conn, dst: Conn, n: nat)
    requires n <= |src.coming|
    ensures Stream(l, Received(src, n), dst) == Stream(l, src, dst)
  {
    Moved(dst.delivered + l.chunk + l.buffered + src.arrived, src.coming, n);
    assert dst.delivered + l.chunk + l.buffered + (src.arrived + src.coming[..n])
        == dst.delivered + l.chunk + l.buffered + src.arrived + src.coming[..n];
  }

  lemma LoopStepKeeps(timeout: int, s: Lone, e: LoopEvent)
    requires LoopInv(timeout, s) && CanStep(s, e)
    ensures LoopInv(timeout, StepAlone(timeout, s, e))
  {}

  lemma LoopStepConserves(timeout: int, s: Lone, e: LoopEvent)
    requires LoopInv(timeout, s) && CanStep(s, e)
    ensures var t := StepAlone(timeout, s, e);
      && Stream(t.l, t.src, t.dst) == Stream(s.l, s.src, s.dst)
      && s.dst.delivered <= t.dst.delivered
      && (s.dst.writeClosed ==> t.dst.writeClosed && t.dst.delivered == s.dst.delivered)
  {
    match e
    case Do(a) => ActConserves(timeout, s.now, s.l, s.src, s.dst, a);
    case Receive(n) => ReceiveConserves(s.l, s.src, s.dst, n);
    case _ =>
  }

  lemma {:induction false} LoopRunKeeps(timeout: int, s: Lone, evs: seq<LoopEvent>)
    requires LoopInv(timeout, s) && ExecAlone(timeout, s, evs).Some?
    ensures var t := ExecAlone(timeout, s, evs).value;
      && LoopInv(timeout, t)
      && Stream(t.l, t.src, t.dst) == Stream(s.l, s.src, s.dst)
      && s.dst.delivered <= t.dst.delivered
      && (s.dst.writeClosed ==> t.dst.writeClosed && t.dst.delivered == s.dst.delivered)
    decreases |evs|
  {
    hide LoopInv, CanStep, StepAlone, Stream;
    if evs == [] {
    } else {
      LoopStepKeeps(timeout, s, evs[0]);
      LoopStepConserves(timeout, s, evs[0]);
      LoopRunKeeps(timeout, StepAlone(timeout, s, evs[0]), evs[1..]);
    }
  }

  // ---------------------------------------------------------------- safety of the pipe

  // When pipeStream starts: nothing read, nothing written, nothing closed.
  predicate Fresh(l: Loop, src: Conn, dst: Conn) {
    && l.phase.Idle? && l.chunk == []
    && !src.fin && src.readDeadline.None? && dst.delivered == [] && !dst.writeClosed
  }

  predicate Starting(st: State) {
    !st.returned && Fresh(st.up, st.client, st.upstream) && Fresh(st.down, st.upstream, st.client)
  }

  // The side of a pipe as a loop on its own.
  function Cut(st: State, side: Side): Lone {
    Lone(st.now, LoopOf(st, side), Source(st, side), Sink(st, side))
  }

  lemma {:induction false} ReturnsHalfClosed(timeout: int, st: State, acts: seq<Action>)
    requires Exec(timeout, st, acts).Some?
    requires st.returned ==> st.up.phase.HalfClosed? && st.down.phase.HalfClosed?
    ensures var st' := Exec(timeout, st, acts).value;
      st'.returned ==> st'.up.phase.HalfClosed? && st'.down.phase.HalfClosed?
    decreases |acts|
  {
    if acts == [] {
    } else {
      ReturnsHalfClosed(timeout, Apply(timeout, st, acts[0]), acts[1..]);
    }
  }

  /** What holds of a loop on its own holds of each side of the pipe. */
  lemma SideKeeps(timeout: int, st: State, acts: seq<Action>, side: Side)
    requires LoopInv(timeout, Cut(st, side)) && Exec(timeout, st, acts).Some?
    ensures var (s, t) := (Cut(st, side), Cut(Exec(timeout, st, acts).value, side));
      && LoopInv(timeout, t)
      && Stream(t.l, t.src, t.dst) == Stream(s.l, s.src, s.dst)
      && s.dst.delivered <= t.dst.delivered
      && (s.dst.writeClosed ==> t.dst.writeClosed && t.dst.delivered == s.dst.delivered)
  {
    DirectionsAreIndependent(timeout, st, acts, side, Cut(st, side));
    LoopRunKeeps(timeout, Cut(st, side), Project(side, acts));
  }

  lemma StartHolds(timeout: int, st: State, side: Side)
    requires Starting(st)
    ensures LoopInv(timeout, Cut(st, side))
  {}

  lemma DeliveredIsPrefix(l: Loop, src: Conn, dst: Conn)
    ensures dst.delivered <= Stream(l, src, dst)
    ensures l.chunk == l.buffered == src.arrived == src.coming == [] ==> dst.delivered == Stream(l, src, dst)
  {
    assert Stream(l, src, dst) == dst.delivered + (l.chunk + l.buffered + src.arrived + src.coming);
  }

  // What a side is going to copy.
  function Input(st: State, side: Side): seq<byte> {
    LoopOf(st, side).buffered + Source(st, side).arrived + Source(st, side).coming
  }

  /**
   * In every interleaving, what each end has been given is a prefix of what the other end sent,
   * peeked bytes first; all of it once that side ended cleanly. pipeStream returns only when
   * both connections are half-closed.
   */
  lemma PrefixSafety(timeout: int, st: State, acts: seq<Action>, side: Side)
    requires Starting(st) && Exec(timeout, st, acts).Some?
    ensures var st' := Exec(timeout, st, acts).value;
      && Sink(st', side).delivered <= Input(st, side)
      && (Finished(LoopOf(st', side)) && LoopOf(st', side).phase.clean ==> Sink(st', side).delivered == Input(st, side))
      && (st'.returned ==> st'.client.writeClosed && st'.upstream.writeClosed)
  {
    StartHolds(timeout, st, UpSide);
    StartHolds(timeout, st, DownSide);
    SideKeeps(timeout, st, acts, UpSide);
    SideKeeps(timeout, st, acts, DownSide);
    ReturnsHalfClosed(timeout, st, acts);
    InputIsStream(st, side);
    var st' := Exec(timeout, st, acts).value;
    DeliveredIsPrefix(LoopOf(st', side), Source(st', side), Sink(st', side));
    hide Exec, Stream, Input, Starting;
  }

  lemma InputIsStream(st: State, side: Side)
    requires Starting(st)
    ensures Stream(LoopOf(st, side), Source(st, side), Sink(st, side)) == Input(st, side)
  {}

  /** CloseWrite comes after the last write: a half-closed connection is given nothing more. */
  lemma CloseWriteIsLast(timeout: int, st: State, acts: seq<Action>, more: seq<Action>, side: Side)
    requires Starting(st) && Exec(timeout, st, acts).Some?
    requires Exec(timeout, Exec(timeout, st, acts).value, more).Some?
    requires Sink(Exec(timeout, st, acts).value, side).writeClosed
    ensures var st' := Exec(timeout, st, acts).value;
      Sink(Exec(timeout, st', more).value, side).delivered == Sink(st', side).delivered
  {
    StartHolds(timeout, st, side);
    SideKeeps(timeout, st, acts, side);
    SideKeeps(timeout, Exec(timeout, st, acts).value, more, side);
  }

  // ---------------------------------------------------------------- timeouts

  function ActOf(side: Side, a: LoopAct): Action {
    if side.UpSide? then Up(a) else Down(a)
  }

  predicate NoSooner(s: Lone, at: int) {
    s.src.readDeadline.Some? ==> s.src.readDeadline.value >= at
  }

  /** A deadline only ever moves to a full timeout from now. */
  lemma {:induction false} DeadlineOnlyGrows(timeout: int, s: Lone, evs: seq<LoopEvent>, at: int)
    requires ExecAlone(timeout, s, evs).Some? && NoSooner(s, at) && at <= s.now + timeout
    ensures NoSooner(ExecAlone(timeout, s, evs).value, at)
    decreases |evs|
  {
    if evs == [] {
    } else {
      DeadlineOnlyGrows(timeout, StepAlone(timeout, s, evs[0]), evs[1..], at);
    }
  }

  /** And only when Read is called. */
  lemma {:induction false} DeadlineStays(timeout: int, s: Lone, evs: seq<LoopEvent>)
    requires ExecAlone(timeout, s, evs).Some? && Do(Call) !in evs
    ensures ExecAlone(timeout, s, evs).value.src.readDeadline == s.src.readDeadline
    decreases |evs|
  {
    if evs == [] {
    } else {
      assert evs[0] in evs;
      DeadlineStays(timeout, StepAlone(timeout, s, evs[0]), evs[1..]);
    }
  }

  lemma {:induction false} NoCallSeen(side: Side, acts: seq<Action>)
    requires ActOf(side, Call) !in acts
    ensures Do(Call) !in Project(side, acts)
  {
    if acts == [] {
    } else {
      assert acts[0] in acts;
      NoCallSeen(side, acts[1..]);
    }
  }

  /**
   * The idle timeout of a side, from any state in which its loop calls Read, whatever happens
   * then: no timeout before a full period has passed since that call, and if it stays the last
   * call and has not returned, a timeout from then on, once the peeked bytes are used up.
   */
  lemma TimeoutMeansSilence(timeout: int, st: State, side: Side, more: seq<Action>)
    requires timeout > 0 && Enabled(st, ActOf(side, Call))
    requires Exec(timeout, Apply(timeout, st, ActOf(side, Call)), more).Some?
    ensures var t := Cut(Exec(timeout, Apply(timeout, st, ActOf(side, Call)), more).value, side);
      && (t.now < st.now + timeout ==> !CanAct(t.now, t.l, t.src, t.dst, TimedOut))
      && (ActOf(side, Call) !in more && t.l.phase.Waiting? ==>
            (CanAct(t.now, t.l, t.src, t.dst, TimedOut) <==> t.l.buffered == [] && st.now + timeout <= t.now))
  {
    var st1 := Apply(timeout, st, ActOf(side, Call));
    var s, evs := Cut(st1, side), Project(side, more);
    DirectionsAreIndependent(timeout, st1, more, side, s);
    DeadlineOnlyGrows(timeout, s, evs, st.now + timeout);
    if ActOf(side, Call) !in more {
      NoCallSeen(side, more);
      DeadlineStays(timeout, s, evs);
    }
  }

  /** Without a timeout nothing times out. */
  lemma NoTimeoutUnlessAsked(timeout: int, st: State, acts: seq<Action>, side: Side)
    requires timeout <= 0 && Starting(st) && Exec(timeout, st, acts).Some?
    ensures !Enabled(Exec(timeout, st, acts).value, ActOf(side, TimedOut))
  {
    StartHolds(timeout, st, side);
    SideKeeps(timeout, st, acts, side);
  }

  // ---------------------------------------------------------------- getting to the end

  ghost predicate Leads(timeout: int, st: State, st': State) {
    exists acts :: Exec(timeout, st, acts) == Some(st')
  }

  lemma {:induction false} ExecAppend(timeout: int, st: State, acts: seq<Action>, act: Action)
    requires Exec(timeout, st, acts).Some? && Enabled(Exec(timeout, st, acts).value, act)
    ensures Exec(timeout, st, acts + [act]) == Some(Apply(timeout, Exec(timeout, st, acts).value, act))
    decreases |acts|
  {
    if acts == [] {
      assert [] + [act] == [act] && [act][1..] == [];
      assert Exec(timeout, Apply(timeout, st, act), []) == Some(Apply(timeout, st, act));
    } else {
      ExecAppend(timeout, Apply(timeout, st, acts[0]), acts[1..], act);
      assert (acts + [act])[1..] == acts[1..] + [act];
    }
  }

  lemma Then(timeout: int, st: State, now: State, act: Action) returns (next: State)
    requires Leads(timeout, st, now) && Enabled(now, act)
    ensures next == Apply(timeout, now, act) && Leads(timeout, st, next)
  {
    var acts :| Exec(timeout, st, acts) == Some(now);
    ExecAppend(timeout, st, acts, act);
    next := Apply(timeout, now, act);
  }

  // A side whose source has said everything, inside Read.
  predicate Listening(st: State, side: Side) {
    && !st.returned && LoopOf(st, side).phase.Waiting? && LoopOf(st, side).chunk == []
    && Source(st, side).fin && Source(st, side).coming == [] && !Sink(st, side).writeClosed
  }

  lemma ToListening(timeout: int, st: State, side: Side) returns (now: State)
    requires LoopInv(timeout, Cut(st, side)) && !st.returned && !Finished(LoopOf(st, side))
    ensures Leads(timeout, st, now) && Listening(now, side)
  {
    now := st;
    assert Exec(timeout, st, []) == Some(st);
    hide Leads, Exec;
    if !Source(st, side).fin {
      now := Then(timeout, st, now, Arrive(side, |Source(st, side).coming|));
      now := Then(timeout, st, now, Fin(side));
    }
    if LoopOf(now, side).phase.Holding? {
      now := Then(timeout, st, now, ActOf(side, WriteAll));
    }
    if LoopOf(now, side).phase.Idle? {
      now := Then(timeout, st, now, ActOf(side, Call));
    }
  }

  // Reads n bytes, writes them, and is back in Read.
  lemma CopyOn(timeout: int, st: State, was: State, side: Side, n: nat) returns (now: State)
    requires Leads(timeout, st, was) && Listening(was, side) && Enabled(was, ActOf(side, Data(n)))
    ensures Leads(timeout, st, now) && Listening(now, side)
    ensures LoopOf(was, side).buffered != [] ==>
      && LoopOf(now, side).buffered == LoopOf(was, side).buffered[n..]
      && Source(now, side).arrived == Source(was, side).arrived
    ensures LoopOf(was, side).buffered == [] ==>
      LoopOf(now, side).buffered == [] && Source(now, side).arrived == Source(was, side).arrived[n..]
  {
    hide Leads;
    now := Then(timeout, st, was, ActOf(side, Data(n)));
    now := Then(timeout, st, now, ActOf(side, WriteAll));
    now := Then(timeout, st, now, ActOf(side, Call));
  }

  /**
   * No side is ever stuck: from every state of a running pipe in which its loop has not ended,
   * it can still deliver everything that its source has sent and will send, and end cleanly.
   */
  lemma CanDeliverAll(timeout: int, st: State, acts: seq<Action>, side: Side) returns (st': State)
    requires Starting(st) && Exec(timeout, st, acts).Some?
    requires !Finished(LoopOf(Exec(timeout, st, acts).value, side))
    ensures Leads(timeout, Exec(timeout, st, acts).value, st')
    ensures LoopOf(st', side).phase == HalfClosed(true) && Sink(st', side).writeClosed
    ensures Sink(st', side).delivered == Input(st, side)
  {
    var mid := Exec(timeout, st, acts).value;
    StartHolds(timeout, st, side);
    SideKeeps(timeout, st, acts, side);
    ReturnsHalfClosed(timeout, st, acts);
    hide Leads, Exec, LoopInv, Stream, Listening;
    st' := ToListening(timeout, mid, side);
    st' := AllRead(timeout, mid, st', side);
    st' := Ends(timeout, mid, st', side);
    DeliveredAtTheEnd(timeout, st, mid, st', side);
  }

  lemma AllRead(timeout: int, st: State, was: State, side: Side) returns (now: State)
    requires Leads(timeout, st, was) && Listening(was, side)
    ensures Leads(timeout, st, now) && Listening(now, side)
    ensures LoopOf(now, side).buffered == [] && Source(now, side).arrived == []
  {
    hide Leads;
    now := was;
    if LoopOf(now, side).buffered != [] {
      now := CopyOn(timeout, st, now, side, |LoopOf(now, side).buffered|);
    }
    if Source(now, side).arrived != [] {
      now := CopyOn(timeout, st, now, side, |Source(now, side).arrived|);
    }
  }

  lemma Ends(timeout: int, st: State, was: State, side: Side) returns (now: State)
    requires Leads(timeout, st, was) && Listening(was, side)
    requires LoopOf(was, side).buffered == [] && Source(was, side).arrived == []
    ensures Leads(timeout, st, now) && LoopOf(now, side).phase == HalfClosed(true) && Sink(now, side).writeClosed
  {
    hide Leads;
    now := Then(timeout, st, was, ActOf(side, Eof));
    now := Then(timeout, st, now, ActOf(side, CloseWrite));
  }

  lemma DeliveredAtTheEnd(timeout: int, st: State, mid: State, st': State, side: Side)
    requires Starting(st) && LoopInv(timeout, Cut(mid, side)) && Leads(timeout, mid, st')
    requires var s, m := Cut(st, side), Cut(mid, side); Stream(m.l, m.src, m.dst) == Stream(s.l, s.src, s.dst)
    requires LoopOf(st', side).phase == HalfClosed(true)
    ensures Sink(st', side).delivered == Input(st, side)
  {
    var more :| Exec(timeout, mid, more) == Some(st');
    SideKeeps(timeout, mid, more, side);
    InputIsStream(st, side);
    var t := Cut(st', side);
    DeliveredIsPrefix(t.l, t.src, t.dst);
  }

  /** When both loops have half-closed, pipeStream returns. */
  lemma CanReturn(st: State)
    ensures Enabled(st, Return) <==> !st.returned && st.up.phase.HalfClosed? && st.down.phase.HalfClosed?
  {}
}
