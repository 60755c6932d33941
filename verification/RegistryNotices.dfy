/** Who is told what: the messages that accepting, tearing down and going offline cause, no fewer and no more. */
module RegistryNotices {
  import opened Base
  import opened Registry
  import opened RegistryInvariant
  import opened RegistryLifecycle

  lemma CountSnoc(log: seq<Event>, e: Event, w: Which, x: SessionId)
    ensures Count(log + [e], w, x) == Count(log, w, x) + if Is(w, x, e) then 1 else 0
  {
    assert (log + [e])[..|log|] == log;
  }

  lemma NoteCounts(st: State, e: Event, w: Which, x: SessionId)
    ensures Count(Note(st, e).log, w, x) == Count(st.log, w, x) + if Is(w, x, e) then 1 else 0
  {
    CountSnoc(st.log, e, w, x);
  }

  lemma SendCounts(st: State, to: Side, m: Message, w: Which, x: SessionId)
    ensures var e := if to in st.slots then Some(Sent(to, st.slots[to].conn, m)) else None;
            Count(Send(st, to, m).log, w, x) == Count(st.log, w, x) + if e.Some? && Is(w, x, e.value) then 1 else 0
  {
    if to in st.slots {
      CountSnoc(st.log, Sent(to, st.slots[to].conn, m), w, x);
    }
  }

  /** The notices of kind `w` about `x` that the end of session `sid` calls for, when `who` ends it. */
  function EndNotices(st: State, sid: SessionId, who: Side, w: Which, x: SessionId): nat
    requires sid in st.sessions
  {
    if x != sid then 0
    else
      match w
      case Finish => if st.sessions[sid].ready then 1 else 0
      case CloseTo(side) => if IsSide(st.sessions[sid], side) && side != who && side in st.slots then 1 else 0
      case _ => 0
  }

  lemma DismissCounts(st: State, side: Side, sid: SessionId, reason: string, who: Side, w: Which, x: SessionId)
    ensures Count(Dismiss(st, side, sid, reason, who).log, w, x)
            == Count(st.log, w, x) + if x == sid && w == CloseTo(side) && side != who && side in st.slots then 1 else 0
    ensures Dismiss(st, side, sid, reason, who).slots.Keys == st.slots.Keys
  {
    if side != who {
      SendCounts(DropFrom(st, side, sid), side, SessionClose(sid, reason), w, x);
    }
  }

  lemma StruckCounts(st: State, sid: SessionId, who: Side, w: Which, x: SessionId)
    requires sid in st.sessions
    ensures Count(Struck(st, sid, who).log, w, x)
            == Count(st.log, w, x) + if x == sid && w == Finish && st.sessions[sid].ready then 1 else 0
    ensures Struck(st, sid, who).slots == st.slots
  {
    var s, st0 := st.sessions[sid], st.(sessions := st.sessions - {sid});
    NoteCounts(st0, Removed(sid, who), w, x);
    if s.ready {
      NoteCounts(Note(st0, Removed(sid, who)), EndHook(sid, s.controller.id, s.hostId), w, x);
    }
  }

  /**
   * A teardown by one of the sides fires the end hook once if the session was ready, tells the other side once if its
   * slot is registered, and causes nothing else.
   */
  lemma TeardownTells(st: State, sid: SessionId, reason: string, who: Side, w: Which, x: SessionId)
    requires sid in st.sessions && IsSide(st.sessions[sid], who)
    ensures Count(Teardown(st, sid, reason, who).log, w, x) == Count(st.log, w, x) + EndNotices(st, sid, who, w, x)
  {
    var s, st2 := st.sessions[sid], Struck(st, sid, who);
    var st3 := Dismiss(st2, s.controller, sid, reason, who);
    StruckCounts(st, sid, who, w, x);
    DismissCounts(st2, s.controller, sid, reason, who, w, x);
    DismissCounts(st3, HostSide(s), sid, reason, who, w, x);
    TeardownSteps(st, sid, reason, who);
    EndAddsUp(st, sid, who, w, x);
  }

  lemma TeardownSteps(st: State, sid: SessionId, reason: string, who: Side)
    requires sid in st.sessions
    ensures var s := st.sessions[sid];
            Teardown(st, sid, reason, who)
            == Dismiss(Dismiss(Struck(st, sid, who), s.controller, sid, reason, who), HostSide(s), sid, reason, who)
  {
  }

  lemma EndAddsUp(st: State, sid: SessionId, who: Side, w: Which, x: SessionId)
    requires sid in st.sessions && IsSide(st.sessions[sid], who)
    ensures var s := st.sessions[sid];
            EndNotices(st, sid, who, w, x)
            == (if x == sid && w == Finish && s.ready then 1 else 0)
               + (if x == sid && w == CloseTo(s.controller) && s.controller != who && s.controller in st.slots then 1 else 0)
               + (if x == sid && w == CloseTo(HostSide(s)) && HostSide(s) != who && HostSide(s) in st.slots then 1 else 0)
  {
  }

  lemma ReadyCounts(st: State, to: Side, sid: SessionId, role: Role, w: Which, x: SessionId)
    ensures Count(Send(st, to, ConnectReady(sid, role, to.id)).log, w, x)
            == Count(st.log, w, x) + if x == sid && w == ReadyAs(role) && to in st.slots then 1 else 0
  {
    SendCounts(st, to, ConnectReady(sid, role, to.id), w, x);
  }

  lemma StartCounts(st: State, st1: State, sid: SessionId, c: DeviceId, h: DeviceId, w: Which, x: SessionId)
    requires st1.log == st.log + [StartHook(sid, c, h)]
    ensures Count(st1.log, w, x) == Count(st.log, w, x) + if x == sid && w == Start then 1 else 0
  {
    CountSnoc(st.log, StartHook(sid, c, h), w, x);
  }

  /** Accepting fires the start hook once and tells each registered side its role once. */
  lemma AcceptTells(st: State, sid: SessionId, who: Side, w: Which, x: SessionId)
    requires MayAccept(st, sid, who)
    ensures Count(Accept(st, sid, who).0.log, w, x)
            == Count(st.log, w, x)
               + if x == sid && (w == Start || (w == ReadyAs(Offerer) && who in st.slots)
                                 || (w == ReadyAs(Answerer) && st.sessions[sid].controller in st.slots)) then 1 else 0
  {
    var s := st.sessions[sid];
    var st1 := Note(st.(sessions := st.sessions[sid := s.(ready := true)]), StartHook(sid, s.controller.id, s.hostId));
    StartCounts(st, st1, sid, s.controller.id, s.hostId, w, x);
    ReadyCounts(st1, HostSide(s), sid, Offerer, w, x);
    ReadyCounts(Send(st1, HostSide(s), ConnectReady(sid, Offerer, s.hostId)), s.controller, sid, Answerer, w, x);
  }

  /** A member closes the sessions of a list: exactly those go, and every other side that is there is told, once each. */
  lemma {:induction false} TeardownAllTells(
      st: State, sids: seq<SessionId>, reason: string, who: Side, side: Side, x: SessionId)
    requires forall sid :: sid in sids && sid in st.sessions ==> IsSide(st.sessions[sid], who)
    ensures var st1 := TeardownAll(st, sids, reason, who);
            && st1.slots.Keys == st.slots.Keys
            && (x in st1.sessions <==> x in st.sessions && x !in sids)
            && (x in st1.sessions ==> st1.sessions[x] == st.sessions[x])
            && Count(st1.log, CloseTo(side), x) == Count(st.log, CloseTo(side), x)
                 + if x in sids && x in st.sessions then EndNotices(st, x, who, CloseTo(side), x) else 0
  {
    if sids != [] {
      var n := |sids| - 1;
      var init, last := sids[..n], sids[n];
      assert sids == init + [last];
      TeardownAllTells(st, init, reason, who, side, x);
      TeardownAllTells(st, init, reason, who, side, last);
      var mid := TeardownAll(st, init, reason, who);
      if last in mid.sessions {
        TeardownTells(mid, last, reason, who, CloseTo(side), x);
        var _ := TeardownShape(mid, last, reason, who);
      }
    }
  }

  /**
   * Going offline ends exactly the sessions the slot held, leaves every other session as it was, and tells the other
   * side of each ended session once, if it is there. If all requesters were registered, these are all the sessions
   * the role took part in.
   */
  lemma OfflineTells(
      st: State, strict: bool, side: Side, conn: Option<ConnId>, order: seq<SessionId>, peer: Side, x: SessionId)
    requires Inv(st, strict) && Proper(st, GoOffline(side, conn, order)) && Leaves(st, side, conn)
    ensures var st1 := Offline(st, side, conn, order);
            && (x in st1.sessions <==> x in st.sessions && !Holds(st, side, x))
            && (x in st1.sessions ==> st1.sessions[x] == st.sessions[x] && (strict ==> !IsSide(st1.sessions[x], side)))
            && Count(st1.log, CloseTo(peer), x) == Count(st.log, CloseTo(peer), x)
                 + if Holds(st, side, x) && IsSide(st.sessions[x], peer) && peer != side && peer in st.slots then 1 else 0
  {
    var gone := st.(slots := st.slots - {side});
    forall sid | sid in order ensures sid in gone.sessions && IsSide(gone.sessions[sid], side) {
      assert Holds(st, side, sid);
    }
    TeardownAllTells(gone, order, "peer_offline", side, peer, x);
    assert Holds(st, side, x) <==> x in order;
  }

  // ------------------------------------------------- answers to a host's accepts

  /** The sessions whose `connect_ready` was sent to a side, in order. */
  function ReadiesTo(log: seq<Event>, side: Side): seq<SessionId> {
    if log == [] then []
    else
      var e := log[|log| - 1];
      ReadiesTo(log[..|log| - 1], side) + if e.Sent? && e.to == side && e.msg.ConnectReady? then [e.msg.sid] else []
  }

  /** The sessions a side asked to accept, in order. */
  function AcceptsBy(ops: seq<Op>, side: Side): seq<SessionId> {
    if ops == [] then []
    else
      var op := ops[|ops| - 1];
      AcceptsBy(ops[..|ops| - 1], side) + if op.AcceptConnect? && op.who == side then [op.sid] else []
  }

  lemma ReadiesSnoc(log: seq<Event>, e: Event, side: Side)
    ensures ReadiesTo(log + [e], side)
            == ReadiesTo(log, side) + if e.Sent? && e.to == side && e.msg.ConnectReady? then [e.msg.sid] else []
  {
    assert (log + [e])[..|log|] == log;
  }

  lemma SendReadies(st: State, to: Side, m: Message, side: Side)
    ensures ReadiesTo(Send(st, to, m).log, side)
            == ReadiesTo(st.log, side) + if to in st.slots && to == side && m.ConnectReady? then [m.sid] else []
  {
    if to in st.slots {
      ReadiesSnoc(st.log, Sent(to, st.slots[to].conn, m), side);
    }
  }

  lemma DismissReadies(st: State, to: Side, sid: SessionId, reason: string, who: Side, side: Side)
    ensures ReadiesTo(Dismiss(st, to, sid, reason, who).log, side) == ReadiesTo(st.log, side)
  {
    if to != who {
      SendReadies(DropFrom(st, to, sid), to, SessionClose(sid, reason), side);
    }
  }

  lemma StruckReadies(st: State, sid: SessionId, who: Side, side: Side)
    requires sid in st.sessions
    ensures ReadiesTo(Struck(st, sid, who).log, side) == ReadiesTo(st.log, side)
  {
    var s, removed := st.sessions[sid], Removed(sid, who);
    ReadiesSnoc(st.log, removed, side);
    ReadiesSnoc(st.log + [removed], EndHook(sid, s.controller.id, s.hostId), side);
  }

  lemma TeardownReadies(st: State, sid: SessionId, reason: string, who: Side, side: Side)
    ensures ReadiesTo(Teardown(st, sid, reason, who).log, side) == ReadiesTo(st.log, side)
  {
    if sid in st.sessions {
      var s, st2 := st.sessions[sid], Struck(st, sid, who);
      StruckReadies(st, sid, who, side);
      DismissReadies(st2, s.controller, sid, reason, who, side);
      DismissReadies(Dismiss(st2, s.controller, sid, reason, who), HostSide(s), sid, reason, who, side);
    }
  }

  lemma {:induction false} TeardownAllReadies(st: State, sids: seq<SessionId>, reason: string, who: Side, side: Side)
    ensures ReadiesTo(TeardownAll(st, sids, reason, who).log, side) == ReadiesTo(st.log, side)
  {
    if sids != [] {
      TeardownAllReadies(st, sids[..|sids| - 1], reason, who, side);
      TeardownReadies(TeardownAll(st, sids[..|sids| - 1], reason, who), sids[|sids| - 1], reason, who, side);
    }
  }

  ghost predicate ControlsNone(st: State, side: Side) {
    forall sid :: sid in st.sessions ==> st.sessions[sid].controller != side
  }

  lemma StepControls(st: State, op: Op, maxInbound: nat, side: Side)
    requires ControlsNone(st, side) && !(op.RequestConnect? && op.caller == side)
    ensures ControlsNone(Step(st, op, maxInbound), side)
  {
    match op
    case GoOffline(s, held, order) =>
      if Leaves(st, s, held) {
        TeardownAllShrinks(st.(slots := st.slots - {s}), order, "peer_offline", s);
      }
    case RejectConnect(sid, who, reason) =>
      if sid in st.sessions {
        var _ := TeardownShape(Send(st, st.sessions[sid].controller, ConnectErrForbidden), sid,
                               if reason.Some? then reason.value else "rejected", who);
      }
    case CloseSession(sid, reason, who) =>
      if sid in st.sessions {
        var _ := TeardownShape(st, sid, if reason.Some? then reason.value else "closed", who);
      }
    case _ =>
  }

  /** Accepting answers the one who accepts, if the session is there to be accepted and its slot is registered. */
  lemma AcceptReadies(st: State, sid: SessionId, who: Side, side: Side)
    requires ControlsNone(st, side)
    ensures ReadiesTo(Accept(st, sid, who).0.log, side)
            == ReadiesTo(st.log, side) + if MayAccept(st, sid, who) && who == side && who in st.slots then [sid] else []
  {
    if MayAccept(st, sid, who) {
      var s := st.sessions[sid];
      var start, offer := StartHook(sid, s.controller.id, s.hostId), ConnectReady(sid, Offerer, s.hostId);
      var st1 := Note(st.(sessions := st.sessions[sid := s.(ready := true)]), start);
      ReadiesSnoc(st.log, start, side);
      SendReadies(st1, who, offer, side);
      SendReadies(Send(st1, who, offer), s.controller, ConnectReady(sid, Answerer, s.controller.id), side);
    }
  }

  lemma RequestReadies(
      st: State, caller: Side, target: DeviceId, pk: Option<string>, sid: SessionId, maxInbound: nat, side: Side)
    ensures ReadiesTo(Request(st, caller, target, pk, sid, maxInbound).0.log, side) == ReadiesTo(st.log, side)
  {
    var (st1, r) := Request(st, caller, target, pk, sid, maxInbound);
    if r.Connected? {
      var host, made := Side(target, Host), Created(sid, caller, target);
      ReadiesSnoc(st.log, made, side);
      ReadiesSnoc(st.log + [made], Sent(host, st.slots[host].conn, IncomingRequest(sid, pk, target)), side);
    }
  }

  lemma StepReadies(st: State, op: Op, maxInbound: nat, side: Side)
    requires ControlsNone(st, side)
    ensures var more := ReadiesTo(Step(st, op, maxInbound).log, side);
            || more == ReadiesTo(st.log, side)
            || (op.AcceptConnect? && op.who == side && more == ReadiesTo(st.log, side) + [op.sid])
  {
    match op
    case GoOnline(s, conn, meta, now) =>
      if s in st.slots {
        ReadiesSnoc(st.log, Closed(st.slots[s].conn), side);
      }
    case GoOffline(s, held, order) =>
      if Leaves(st, s, held) {
        TeardownAllReadies(st.(slots := st.slots - {s}), order, "peer_offline", s, side);
      }
    case RequestConnect(caller, target, pk, sid) => RequestReadies(st, caller, target, pk, sid, maxInbound, side);
    case AcceptConnect(sid, who) => AcceptReadies(st, sid, who, side);
    case RejectConnect(sid, who, reason) =>
      if sid in st.sessions {
        SendReadies(st, st.sessions[sid].controller, ConnectErrForbidden, side);
        TeardownReadies(Send(st, st.sessions[sid].controller, ConnectErrForbidden), sid,
                        if reason.Some? then reason.value else "rejected", who, side);
      }
    case RelaySignal(sid, from, kind, payload) =>
      if PeerPresent(st, sid, from) {
        SendReadies(st, PeerOf(st.sessions[sid], from), Signal(sid, kind, payload), side);
      }
    case CloseSession(sid, reason, who) =>
      TeardownReadies(st, sid, if reason.Some? then reason.value else "closed", who, side);
  }

  /**
   * A side that requests nothing itself is answered to its accepts in turn: what it is sent is a subsequence of what it
   * accepted. The accepts left out are those of sessions that are gone.
   */
  lemma {:induction false} AnswersFollowAccepts(ops: seq<Op>, maxInbound: nat, side: Side)
    requires forall k :: 0 <= k < |ops| ==> !(ops[k].RequestConnect? && ops[k].caller == side)
    ensures ControlsNone(Run(ops, maxInbound), side)
    ensures Subsequence(ReadiesTo(Run(ops, maxInbound).log, side), AcceptsBy(ops, side))
  {
    if ops == [] {
      var none: seq<SessionId> := [];
      assert Embeds(none, none, []);
    } else {
      var init, op := ops[..|ops| - 1], ops[|ops| - 1];
      AnswersFollowAccepts(init, maxInbound, side);
      var st := Run(init, maxInbound);
      StepControls(st, op, maxInbound, side);
      StepReadies(st, op, maxInbound, side);
      SubsequenceSnoc(ReadiesTo(st.log, side), AcceptsBy(init, side), if op.AcceptConnect? then op.sid else "");
      assert AcceptsBy(init, side) + [] == AcceptsBy(init, side);
    }
  }
}
