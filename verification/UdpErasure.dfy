/** Datagrams that the UDP gateway drops leave no trace. */
module UdpErasure {
  import opened Datagram
  import opened SessionKey
  import opened UdpFlow

  /** Oversized, malformed, denied by Decide, or refused a session. */
  predicate Dropped(cfg: Config, st: State, a: Arrival) {
    || Oversized(cfg, a)
    || ParseDatagram(a.data).Malformed?
    || !Verdict(cfg, st, a).allow
    || NoSession(cfg, st, a)
  }

  // An expiry that happened to run while the datagram was looked at stays.
  function Residue(cfg: Config, st: State, a: Arrival): seq<Event> {
    if Live(st, KeyOf(a.peer)) && !Oversized(cfg, a) && ParseDatagram(a.data).Parsed? then
      [Expire(KeyOf(a.peer), a.hit.recover)]
    else []
  }

  /** The input without its dropped datagrams. */
  function Erase(cfg: Config, st: State, evs: seq<Event>): seq<Event>
    decreases |evs|
  {
    if evs == [] then []
    else
      var e := evs[0];
      var rest := Erase(cfg, Step(cfg, st, e).st, evs[1..]);
      if e.Arrive? && Dropped(cfg, st, e.a) then Residue(cfg, st, e.a) + rest else [e] + rest
  }

  lemma DroppedLeavesResidue(cfg: Config, st: State, a: Arrival)
    requires Dropped(cfg, st, a)
    ensures var o := Handle(cfg, st, a);
      && o.rec.None? && o.write.None?
      && o.st == if Residue(cfg, st, a) == [] then st else Strike(st, KeyOf(a.peer), a.hit.recover)
  {}

  /**
   * Erasure: without the dropped datagrams the run ends in the same sessions, counter,
   * idle deadlines and stored headers, with the same records and writes.
   */
  lemma {:induction false} ErasureChangesNothing(cfg: Config, r: Run, evs: seq<Event>)
    ensures Exec(cfg, r, Erase(cfg, r.st, evs)) == Exec(cfg, r, evs)
    decreases |evs|
  {
    hide Handle, Dropped;
    if evs == [] {
    } else {
      var e := evs[0];
      var r' := Advance(cfg, r, e);
      var rest := Erase(cfg, r'.st, evs[1..]);
      ErasureChangesNothing(cfg, r', evs[1..]);
      if e.Arrive? && Dropped(cfg, r.st, e.a) {
        DroppedLeavesResidue(cfg, r.st, e.a);
        assert r.recs + [] == r.recs && r.writes + [] == r.writes;
        var residue := Residue(cfg, r.st, e.a);
        if residue == [] {
          assert residue + rest == rest;
        } else {
          assert (residue + rest)[1..] == rest;
          assert Advance(cfg, r, residue[0]) == r';
        }
      } else {
        assert ([e] + rest)[1..] == rest;
      }
    }
  }

  /** Nothing is left to erase. */
  lemma {:induction false} ErasureIsComplete(cfg: Config, st: State, evs: seq<Event>)
    ensures Erase(cfg, st, Erase(cfg, st, evs)) == Erase(cfg, st, evs)
    decreases |evs|
  {
    if evs == [] {
    } else {
      var e := evs[0];
      var st' := Step(cfg, st, e).st;
      var rest := Erase(cfg, st', evs[1..]);
      ErasureIsComplete(cfg, st', evs[1..]);
      if e.Arrive? && Dropped(cfg, st, e.a) {
        DroppedLeavesResidue(cfg, st, e.a);
        var residue := Residue(cfg, st, e.a);
        if residue == [] {
          assert residue + rest == rest;
        } else {
          assert (residue + rest)[1..] == rest && (residue + rest)[0] == residue[0];
        }
      } else {
        assert ([e] + rest)[1..] == rest;
      }
    }
  }
}
