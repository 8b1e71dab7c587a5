/** What the upstream receives, in each output mode, and what it can make of it. */
module UdpOutput {
  import opened Basics
  import opened ProxyProto
  import opened Deciding
  import opened Datagram
  import opened SessionKey
  import opened UdpFlow
  import opened UdpHistory
  import opened UdpArrivals

  // ---------------------------------------------------------------- one incarnation

  function DataOf(writes: seq<Write>, id: nat): seq<seq<byte>> {
    if writes == [] then []
    else DataOf(Init(writes), id) + (if Last(writes).id == id then [Last(writes).data] else [])
  }

  function FramedOf(cfg: Config, x: Accepted): Option<seq<byte>>
    requires ParseDatagram(x.a.data).Parsed?
  {
    FormatDatagram(cfg.coerce, x.hdr, PayloadOf(x))
  }

  // first_datagram: the first datagram framed, the others bare.
  function FirstFramed(cfg: Config, fs: seq<Accepted>): seq<seq<byte>>
    requires AllParsed(fs)
  {
    if fs == [] then [] else ToSeq(FramedOf(cfg, fs[0])) + Payloads(fs[1..])
  }

  // every_datagram: each datagram framed on its own.
  function EachFramed(cfg: Config, fs: seq<Accepted>): seq<seq<byte>>
    requires AllParsed(fs)
  {
    if fs == [] then [] else EachFramed(cfg, Init(fs)) + ToSeq(FramedOf(cfg, Last(fs)))
  }

  /** What a socket carries for these datagrams. */
  function Carried(cfg: Config, fs: seq<Accepted>): seq<seq<byte>>
    requires AllParsed(fs)
  {
    if cfg.mode.FirstDatagram? then FirstFramed(cfg, fs) else EachFramed(cfg, fs)
  }

  lemma DataOfAppend(ws: seq<Write>, o: Option<Write>, id: nat)
    ensures DataOf(ws + ToSeq(o), id) == DataOf(ws, id) + (if o.Some? && o.value.id == id then [o.value.data] else [])
  {
    if o.Some? {
      Snoc(ws, o.value);
    } else {
      assert ws + ToSeq(o) == ws && DataOf(ws, id) + [] == DataOf(ws, id);
    }
  }

  lemma {:induction false} FlowingIffHandled(hs: seq<Accepted>, id: nat)
    requires AllParsed(hs) && forall i :: 0 <= i < |hs| && hs[i].id == id ==> !hs[i].shut
    ensures Of(hs, id) != [] <==> exists i :: 0 <= i < |hs| && hs[i].id == id
  {
    hide ParseDatagram;
    if hs == [] {
    } else {
      FlowingIffHandled(Init(hs), id);
      if i :| 0 <= i < |hs| && hs[i].id == id && i < |hs| - 1 {
        assert Init(hs)[i].id == id;
      }
    }
  }

  lemma UsedIffFlowing(hs: seq<Accepted>, id: nat)
    requires AllParsed(hs) && forall i :: 0 <= i < |hs| && hs[i].id == id ==> !hs[i].shut
    ensures Used(Records(hs), id) <==> Of(hs, id) != []
  {
    FlowingIffHandled(hs, id);
    hide ParseDatagram, KeyOf, Of;
    assert forall i :: 0 <= i < |hs| ==> Records(hs)[i].id == hs[i].id;
  }

  lemma RecordsInit(hs: seq<Accepted>)
    requires AllParsed(hs) && hs != []
    ensures Records(hs) != [] && Init(Records(hs)) == Records(Init(hs)) && Last(Records(hs)) == RecordOf(Last(hs))
  {
    hide ParseDatagram, KeyOf;
  }

  lemma ExplainedInit(cfg: Config, recs: seq<Rec>)
    requires AllExplained(cfg, recs) && recs != []
    ensures AllExplained(cfg, Init(recs)) && RecExplained(cfg, Init(recs), Last(recs))
  {
    forall i | 0 <= i < |Init(recs)| ensures RecExplained(cfg, Init(recs)[..i], Init(recs)[i]) {
      assert Init(recs)[..i] == recs[..i];
    }
    assert recs[..|recs| - 1] == Init(recs);
  }

  lemma CarriedAppend(cfg: Config, fs: seq<Accepted>, x: Accepted)
    requires AllParsed(fs) && ParseDatagram(x.a.data).Parsed?
    ensures AllParsed(fs + [x])
    ensures Carried(cfg, fs + [x]) == Carried(cfg, fs) + ToSeq(Encode(cfg, fs != [], x.hdr, PayloadOf(x)))
  {
    hide FormatDatagram, ParseDatagram;
    Snoc(fs, x);
    assert AllParsed(fs + [x]);
    if fs == [] {
      assert fs + [x] == [x] && Payloads([x][1..]) == [];
    } else {
      assert (fs + [x])[1..] == fs[1..] + [x];
      assert Payloads(fs[1..] + [x]) == Payloads(fs[1..]) + [PayloadOf(x)];
    }
  }

  lemma OpenBefore(cfg: Config, hs: seq<Accepted>, x: Accepted)
    requires AllParsed(hs) && ParseDatagram(x.a.data).Parsed?
    requires AllExplained(cfg, Records(hs)) && RecExplained(cfg, Records(hs), RecordOf(x))
    ensures forall i :: 0 <= i < |hs| && hs[i].id == x.id ==> !hs[i].shut
  {
    hide DueHeader, ParseDatagram, KeyOf;
    forall i | 0 <= i < |hs| && hs[i].id == x.id ensures !hs[i].shut {
      assert Records(hs)[i] == RecordOf(hs[i]);
      assert RecExplained(cfg, Records(hs)[..i], Records(hs)[i]);
    }
  }

  /** The socket of an incarnation carries exactly this for its datagrams, per output mode. */
  lemma {:induction false} WritesOfIncarnation(cfg: Config, hs: seq<Accepted>, id: nat)
    requires AllParsed(hs) && AllExplained(cfg, Records(hs))
    ensures DataOf(EmittedBy(cfg, Records(hs)), id) == Carried(cfg, Of(hs, id))
    decreases |hs|
  {
    if hs == [] {
    } else {
      var before, x := Init(hs), Last(hs);
      RecordsInit(hs);
      ExplainedInit(cfg, Records(hs));
      WritesOfIncarnation(cfg, before, id);
      hide ParseDatagram, AllExplained, FormatDatagram;
      DataOfAppend(EmittedBy(cfg, Records(before)), Emitted(cfg, Records(before), RecordOf(x)), id);
      if x.id == id && !x.shut {
        OpenBefore(cfg, before, x);
        UsedIffFlowing(before, id);
        CarriedAppend(cfg, Of(before, id), x);
      } else {
        assert Of(before, id) + [] == Of(before, id);
      }
      hide Encode, Carried, RecExplained;
    }
  }

  // ---------------------------------------------------------------- what a downstream decodes

  // A stateless downstream: every datagram carries its header.
  function DecodeEach(ws: seq<seq<byte>>): seq<(Header, seq<byte>)> {
    if ws == [] then []
    else
      var p := ParseDatagram(Last(ws));
      DecodeEach(Init(ws)) + (if p.Parsed? && p.src == V2 then [(p.hdr, p.payload)] else [])
  }

  // A downstream that remembers the header of the first datagram of a flow.
  function DecodeFirst(ws: seq<seq<byte>>): seq<(Header, seq<byte>)> {
    if ws == [] then []
    else
      var p := ParseDatagram(ws[0]);
      if p.Parsed? && p.src == V2 then [(p.hdr, p.payload)] + Tagged(p.hdr, ws[1..]) else []
  }

  function Tagged(h: Header, ps: seq<seq<byte>>): seq<(Header, seq<byte>)> {
    seq(|ps|, i requires 0 <= i < |ps| => (h, ps[i]))
  }

  lemma DecodeEachAppend(ws: seq<seq<byte>>, b: seq<byte>, h: Header, p: seq<byte>)
    requires ParseDatagram(b) == Parsed(h, p, V2)
    ensures DecodeEach(ws + [b]) == DecodeEach(ws) + [(h, p)]
  {
    hide ParseDatagram;
    Snoc(ws, b);
  }

  lemma MeantAppend(fs: seq<Accepted>)
    requires AllParsed(fs) && fs != []
    ensures Meant(fs) == Meant(Init(fs)) + [(Canon(Last(fs).hdr), PayloadOf(Last(fs)))]
  {
    hide Canon, PayloadOf, ParseDatagram;
  }

  lemma {:induction false} EachDecodes(cfg: Config, fs: seq<Accepted>)
    requires AllParsed(fs) && AllConsistent(fs)
    ensures |EachFramed(cfg, fs)| == |fs| && DecodeEach(EachFramed(cfg, fs)) == Meant(fs)
  {
    if fs == [] {
    } else {
      var x := Last(fs);
      EachDecodes(cfg, Init(fs));
      FormatThenParse(cfg.coerce, x.hdr, PayloadOf(x));
      hide FormatDatagram, ParseDatagram, Canon, Meant, DecodeEach;
      MeantAppend(fs);
      DecodeEachAppend(EachFramed(cfg, Init(fs)), FramedOf(cfg, x).value, Canon(x.hdr), PayloadOf(x));
    }
  }

  lemma TaggedCons(h: Header, fs: seq<Accepted>)
    requires AllParsed(fs) && fs != []
    ensures Tagged(h, Payloads(fs)) == [(h, PayloadOf(fs[0]))] + Tagged(h, Payloads(fs[1..]))
  {
    hide PayloadOf, ParseDatagram;
  }

  lemma DecodeFirstFrame(b: seq<byte>, h: Header, p: seq<byte>, rest: seq<seq<byte>>)
    requires ParseDatagram(b) == Parsed(h, p, V2)
    ensures DecodeFirst([b] + rest) == [(h, p)] + Tagged(h, rest)
  {
    hide ParseDatagram;
    assert ([b] + rest)[1..] == rest;
  }

  lemma FirstDecodes(cfg: Config, fs: seq<Accepted>)
    requires AllParsed(fs) && fs != [] && Consistent(fs[0].hdr)
    ensures DecodeFirst(FirstFramed(cfg, fs)) == Tagged(Canon(fs[0].hdr), Payloads(fs))
  {
    var x := fs[0];
    FormatThenParse(cfg.coerce, x.hdr, PayloadOf(x));
    hide FormatDatagram, ParseDatagram, Canon, Tagged, DecodeFirst;
    TaggedCons(Canon(x.hdr), fs);
    DecodeFirstFrame(FramedOf(cfg, x).value, Canon(x.hdr), PayloadOf(x), Payloads(fs[1..]));
  }

  /** In every run from the start, the writes of an incarnation are what its accepted datagrams call for. */
  lemma WritesOfFlow(cfg: Config, evs: seq<Event>, id: nat)
    requires Sound(evs)
    ensures DataOf(Exec(cfg, START, evs).writes, id) == Carried(cfg, Flow(cfg, evs, id))
  {
    StartExplained(cfg);
    StateRefinesHistory(cfg, START, evs);
    RecordsAreArrivals(cfg, START, evs);
    var hs := Handled(cfg, START.st, evs);
    assert [] + Records(hs) == Records(hs);
    WritesOfIncarnation(cfg, hs, id);
  }

  /**
   * every_datagram: of every datagram that is accepted and finds its session's socket open, the
   * effective header and the untouched payload reach the upstream, one for one and in order.
   */
  lemma EveryDatagramDelivers(cfg: Config, evs: seq<Event>, id: nat)
    requires cfg.mode == EveryDatagram && Sound(evs) && AllConsistent(Flow(cfg, evs, id))
    ensures var ws, flow := DataOf(Exec(cfg, START, evs).writes, id), Flow(cfg, evs, id);
      |ws| == |flow| && DecodeEach(ws) == Meant(flow)
  {
    WritesOfFlow(cfg, evs, id);
    EachDecodes(cfg, Flow(cfg, evs, id));
  }

  /**
   * first_datagram: if the first datagram can be formatted, one frame and then bare payloads;
   * if it cannot, the header is never sent: one write is missing and all others are bare.
   */
  lemma FirstDatagramDelivers(cfg: Config, evs: seq<Event>, id: nat)
    requires cfg.mode == FirstDatagram && Sound(evs)
    ensures var ws, flow := DataOf(Exec(cfg, START, evs).writes, id), Flow(cfg, evs, id);
      if flow == [] then ws == []
      else
        var frame := FramedOf(cfg, flow[0]);
        && (frame.Some? <==> |ws| == |flow|)
        && (frame.Some? ==> ws == [frame.value] + Payloads(flow[1..]))
        && (frame.None? ==> ws == Payloads(flow[1..]))
        && (Consistent(flow[0].hdr) ==> DecodeFirst(ws) == Tagged(Canon(flow[0].hdr), Payloads(flow)))
  {
    WritesOfFlow(cfg, evs, id);
    var flow := Flow(cfg, evs, id);
    hide Flow, Exec, FramedOf, ParseDatagram;
    if flow != [] {
      assert [] + Payloads(flow[1..]) == Payloads(flow[1..]);
      if Consistent(flow[0].hdr) {
        FirstDecodes(cfg, flow);
      }
    }
  }

  // ---------------------------------------------------------------- the two modes on the same input

  predicate AlikeSessions(s: Session, t: Session) {
    s.(headerSent := false, deadline := 0) == t.(headerSent := false, deadline := 0)
  }

  /** Equal but for the header flags and idle deadlines. */
  ghost predicate Alike(s: State, t: State) {
    && s.count == t.count && s.next == t.next && s.sessions.Keys == t.sessions.Keys
    && forall k :: k in s.sessions ==> AlikeSessions(s.sessions[k], t.sessions[k])
  }

  lemma AlikePut(s: State, t: State, k: Key, u: Session, v: Session)
    requires Alike(s, t) && AlikeSessions(u, v)
    ensures Alike(Put(s, k, u), Put(t, k, v))
  {}

  lemma AlikeStrike(s: State, t: State, k: Key, p: Phase)
    requires Alike(s, t)
    ensures Alike(Strike(s, k, p), Strike(t, k, p))
  {}

  lemma AlikeServed(c: Config, d: Config, s: Session, t: Session, a: Arrival, v: Decision, p: ParseResult)
    requires d == c.(mode := d.mode) && AlikeSessions(s, t) && p.Parsed?
    ensures AlikeSessions(Served(c, s, a, v, p), Served(d, t, a, v, p))
    ensures RecordFor(c, s, a, v, p) == RecordFor(d, t, a, v, p)
  {
    hide Encode, CloneHeader, KeyOf;
  }

  lemma AlikeForward(c: Config, d: Config, s: State, t: State, a: Arrival, v: Decision, p: ParseResult)
    requires d == c.(mode := d.mode) && Alike(s, t) && KeyOf(a.peer) in s.sessions && p.Parsed?
    ensures var o, q := Forward(c, s, a, v, p), Forward(d, t, a, v, p);
      Alike(o.st, q.st) && o.rec == q.rec
  {
    var u, w := s.sessions[KeyOf(a.peer)], t.sessions[KeyOf(a.peer)];
    AlikeServed(c, d, u, w, a, v, p);
    hide Served, RecordFor, Sending;
    AlikePut(s, t, KeyOf(a.peer), Served(c, u, a, v, p), Served(d, w, a, v, p));
  }

  lemma AlikeVerdict(c: Config, d: Config, s: State, t: State, a: Arrival)
    requires d == c.(mode := d.mode) && Alike(s, t) && ParseDatagram(a.data).Parsed?
    ensures Verdict(c, s, a) == Verdict(d, t, a)
  {}

  lemma AlikeEntered(c: Config, d: Config, s: State, t: State, a: Arrival)
    requires d == c.(mode := d.mode) && Alike(s, t)
    ensures NoSession(c, s, a) == NoSession(d, t, a)
    ensures Alike(Looked(s, a), Looked(t, a)) && Alike(Entered(c, s, a), Entered(d, t, a))
  {
    var key := KeyOf(a.peer);
    hide KeyOf, Raise;
    AlikeStrike(s, t, key, a.hit.recover);
    AlikeStrike(Insert(c, s, key, a.now), Insert(d, t, key, a.now), key, a.hit.create);
  }

  lemma AlikeDropped(c: Config, d: Config, s: State, t: State, a: Arrival)
    requires d == c.(mode := d.mode) && Alike(s, t) && !Forwards(c, s, a) && !Forwards(d, t, a)
    ensures Alike(Handle(c, s, a).st, Handle(d, t, a).st)
  {
    AlikeEntered(c, d, s, t, a);
    if ParseDatagram(a.data).Parsed? { AlikeVerdict(c, d, s, t, a); }
    hide ParseDatagram, Verdict, Alike, Looked, Strike, Insert;
  }

  lemma AlikeHandle(c: Config, d: Config, s: State, t: State, a: Arrival)
    requires d == c.(mode := d.mode) && Alike(s, t)
    ensures var o, q := Handle(c, s, a), Handle(d, t, a); Alike(o.st, q.st) && o.rec == q.rec
  {
    AlikeEntered(c, d, s, t, a);
    if ParseDatagram(a.data).Parsed? { AlikeVerdict(c, d, s, t, a); }
    if Forwards(c, s, a) {
      var v, p := Verdict(c, s, a), ParseDatagram(a.data);
      HandleForwards(c, s, a);
      HandleForwards(d, t, a);
      AlikeForward(c, d, Entered(c, s, a), Entered(d, t, a), a, v, p);
    } else {
      AlikeDropped(c, d, s, t, a);
      DropShape(c, s, a);
      DropShape(d, t, a);
    }
  }

  lemma AlikeStep(c: Config, d: Config, s: State, t: State, e: Event)
    requires d == c.(mode := d.mode) && Alike(s, t)
    ensures var o, q := Step(c, s, e), Step(d, t, e); Alike(o.st, q.st) && o.rec == q.rec
  {
    match e
    case Arrive(a) => AlikeHandle(c, d, s, t, a);
    case Respond(key, now) =>
    case Expire(key, p) => AlikeStrike(s, t, key, p);
    case ExpireDelete(key) =>
    case ExpireSettle => assert |s.sessions| == |s.sessions.Keys| && |t.sessions| == |t.sessions.Keys|;
  }

  /** The output mode decides neither acceptance nor the effective headers. */
  lemma {:induction false} ModeDoesNotMatter(c: Config, d: Config, r: Run, q: Run, evs: seq<Event>)
    requires d == c.(mode := d.mode) && Alike(r.st, q.st) && r.recs == q.recs
    ensures var r', q' := Exec(c, r, evs), Exec(d, q, evs); Alike(r'.st, q'.st) && r'.recs == q'.recs
    decreases |evs|
  {
    if evs == [] {
    } else {
      AlikeStep(c, d, r.st, q.st, evs[0]);
      ModeDoesNotMatter(c, d, Advance(c, r, evs[0]), Advance(d, q, evs[0]), evs[1..]);
    }
  }

  /** So both modes accept the same datagrams. */
  lemma SameFlow(c: Config, d: Config, evs: seq<Event>, id: nat)
    requires d == c.(mode := d.mode)
    ensures Flow(c, evs, id) == Flow(d, evs, id)
  {
    SameHandled(c, d, START.st, START.st, evs);
  }

  lemma {:induction false} SameHandled(c: Config, d: Config, s: State, t: State, evs: seq<Event>)
    requires d == c.(mode := d.mode) && Alike(s, t)
    ensures Handled(c, s, evs) == Handled(d, t, evs)
    decreases |evs|
  {
    if evs == [] {
    } else {
      var e := evs[0];
      AlikeStep(c, d, s, t, e);
      SameHandled(c, d, Step(c, s, e).st, Step(d, t, e).st, evs[1..]);
      hide Step, ParseDatagram, Verdict;
      if e.Arrive? {
        AlikeForwards(c, d, s, t, e.a);
      }
    }
  }

  lemma AlikeForwards(c: Config, d: Config, s: State, t: State, a: Arrival)
    requires d == c.(mode := d.mode) && Alike(s, t)
    ensures Forwards(c, s, a) == Forwards(d, t, a)
    ensures ParseDatagram(a.data).Parsed? ==>
      var v := Verdict(c, s, a); v == Verdict(d, t, a) && AcceptedAt(s, a, v) == AcceptedAt(t, a, v)
  {
    AlikeEntered(c, d, s, t, a);
    if ParseDatagram(a.data).Parsed? { AlikeVerdict(c, d, s, t, a); }
  }

  /**
   * On the same input a downstream that remembers the first header decodes from
   * first_datagram what a stateless one decodes from every_datagram, exactly when the
   * effective header stayed the same throughout the incarnation.
   */
  lemma ModesDecodeAlike(cfg: Config, evs: seq<Event>, id: nat)
    requires Sound(evs) && AllConsistent(Flow(cfg, evs, id))
    ensures var every := Exec(cfg.(mode := EveryDatagram), START, evs);
      var first := Exec(cfg.(mode := FirstDatagram), START, evs);
      var flow := Flow(cfg, evs, id);
      DecodeFirst(DataOf(first.writes, id)) == DecodeEach(DataOf(every.writes, id)) <==>
      forall i :: 0 <= i < |flow| ==> Canon(flow[i].hdr) == Canon(flow[0].hdr)
  {
    var c, d := cfg.(mode := EveryDatagram), cfg.(mode := FirstDatagram);
    SameFlow(cfg, c, evs, id);
    SameFlow(cfg, d, evs, id);
    EveryDatagramDelivers(c, evs, id);
    FirstDatagramDelivers(d, evs, id);
    var flow := Flow(cfg, evs, id);
    if flow != [] {
      TaggedVersusMeant(flow);
    }
  }

  lemma TaggedVersusMeant(fs: seq<Accepted>)
    requires AllParsed(fs) && fs != []
    ensures Tagged(Canon(fs[0].hdr), Payloads(fs)) == Meant(fs) <==>
            forall i :: 0 <= i < |fs| ==> Canon(fs[i].hdr) == Canon(fs[0].hdr)
  {
    hide ParseDatagram, Canon;
    var t, m := Tagged(Canon(fs[0].hdr), Payloads(fs)), Meant(fs);
    forall i | 0 <= i < |fs|
      ensures t[i].1 == m[i].1 && t[i].0 == Canon(fs[0].hdr) && m[i].0 == Canon(fs[i].hdr)
    {}
    if t == m {
      forall i | 0 <= i < |fs| ensures Canon(fs[i].hdr) == Canon(fs[0].hdr) {
        assert t[i] == m[i];
      }
    }
  }
}
