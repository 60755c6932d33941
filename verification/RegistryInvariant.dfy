/** What holds of the registry in every reachable state: the session table and the slots' sets agree. */
module RegistryInvariant {
  import opened Base
  import opened Registry

  // --------------------------------------------------------------------- runs

  datatype Op =
    | GoOnline(side: Side, conn: ConnId, meta: Meta, now: int)
    | GoOffline(side: Side, held: Option<ConnId>, order: seq<SessionId>)
    | RequestConnect(caller: Side, target: DeviceId, passwordKind: Option<string>, sid: SessionId)
    | AcceptConnect(sid: SessionId, who: Side)
    | RejectConnect(sid: SessionId, who: Side, reason: Option<string>)
    | RelaySignal(sid: SessionId, from: Side, kind: SignalKind, payload: string)
    | CloseSession(sid: SessionId, reason: Option<string>, who: Side)

  function Step(st: State, op: Op, maxInbound: nat): State {
    match op
    case GoOnline(side, conn, meta, now) => Online(st, side, conn, meta, now)
    case GoOffline(side, conn, order) => Offline(st, side, conn, order)
    case RequestConnect(caller, target, pk, sid) => Request(st, caller, target, pk, sid, maxInbound).0
    case AcceptConnect(sid, who) => Accept(st, sid, who).0
    case RejectConnect(sid, who, reason) => Reject(st, sid, who, reason).0
    case RelaySignal(sid, from, kind, payload) => Relay(st, sid, from, kind, payload).0
    case CloseSession(sid, reason, who) => Close(st, sid, reason, who).0
  }

  /** The id was never given to a session before. */
  predicate FreshId(log: seq<Event>, sid: SessionId) {
    forall k :: 0 <= k < |log| ==> !(log[k].Created? && log[k].sid == sid)
  }

  /** Session ids are fresh, and going offline goes through the slot's sessions in some order. */
  predicate Proper(st: State, op: Op) {
    match op
    case RequestConnect(_, _, _, sid) => FreshId(st.log, sid)
    case GoOffline(side, conn, order) => Leaves(st, side, conn) ==> Lists(order, st.slots[side].sessions)
    case _ => true
  }

  /** The stronger discipline under which whoever requests a session is registered at that moment. */
  predicate Disciplined(st: State, op: Op) { op.RequestConnect? ==> op.caller in st.slots }

  function Run(ops: seq<Op>, maxInbound: nat): State {
    if ops == [] then EMPTY else Step(Run(ops[..|ops| - 1], maxInbound), ops[|ops| - 1], maxInbound)
  }

  predicate ProperRun(ops: seq<Op>, maxInbound: nat) {
    ops == [] || (ProperRun(ops[..|ops| - 1], maxInbound) && Proper(Run(ops[..|ops| - 1], maxInbound), ops[|ops| - 1]))
  }

  predicate DisciplinedRun(ops: seq<Op>, maxInbound: nat) {
    ops == []
    || (DisciplinedRun(ops[..|ops| - 1], maxInbound) && Disciplined(Run(ops[..|ops| - 1], maxInbound), ops[|ops| - 1]))
  }

  // ---------------------------------------------------------------- invariant

  predicate Holds(st: State, side: Side, sid: SessionId) { side in st.slots && sid in st.slots[side].sessions }

  /**
   * Index agreement, except for the sessions in `torn`, which are about to be torn down. Every id in a slot's set names
   * a live session with that slot as a side; the host's slot of every live session holds it, and so does the
   * controller's if all requesters were registered (`strict`).
   */
  ghost predicate Agree(st: State, strict: bool, torn: set<SessionId>) {
    && (forall side, sid :: Holds(st, side, sid) ==> sid in st.sessions && IsSide(st.sessions[sid], side))
    && (forall sid :: sid in st.sessions && sid !in torn ==> Holds(st, HostSide(st.sessions[sid]), sid))
    && (strict ==> forall sid :: sid in st.sessions && sid !in torn ==> Holds(st, st.sessions[sid].controller, sid))
    && (forall sid :: sid in st.sessions ==> !FreshId(st.log, sid))
  }

  ghost predicate Inv(st: State, strict: bool) { Agree(st, strict, {}) }

  lemma NoteKeepsUsed(log: seq<Event>, more: seq<Event>, sid: SessionId)
    requires !FreshId(log, sid)
    ensures !FreshId(log + more, sid)
  {
    var k :| 0 <= k < |log| && log[k].Created? && log[k].sid == sid;
    assert (log + more)[k].Created? && (log + more)[k].sid == sid;
  }

  /** States that differ in nothing but a longer log agree alike. */
  lemma LogOnly(st: State, st1: State, more: seq<Event>, strict: bool, torn: set<SessionId>)
    requires Agree(st, strict, torn) && st1 == st.(log := st.log + more)
    ensures Agree(st1, strict, torn)
  {
    assert forall s, x :: Holds(st1, s, x) <==> Holds(st, s, x);
    forall sid | sid in st.sessions ensures !FreshId(st1.log, sid) {
      NoteKeepsUsed(st.log, more, sid);
    }
  }

  lemma SendAgrees(st: State, to: Side, msg: Message, strict: bool, torn: set<SessionId>)
    requires Agree(st, strict, torn)
    ensures Agree(Send(st, to, msg), strict, torn)
  {
    if to in st.slots {
      LogOnly(st, Send(st, to, msg), [Sent(to, st.slots[to].conn, msg)], strict, torn);
    }
  }

  function Without(slot: Slot, sid: SessionId): Slot { slot.(sessions := slot.sessions - {sid}) }

  lemma DismissShape(st: State, side: Side, sid: SessionId, reason: string, who: Side) returns (more: seq<Event>)
    ensures var st1 := Dismiss(st, side, sid, reason, who);
            && st1.sessions == st.sessions && st1.log == st.log + more
            && st1.slots == if side in st.slots then st.slots[side := Without(st.slots[side], sid)] else st.slots
  {
    more := if side in st.slots && side != who then [Sent(side, st.slots[side].conn, SessionClose(sid, reason))] else [];
    assert st.log + [] == st.log;
  }

  /** What is left of the slots after a teardown: the same ones, none holding the session, all else as before. */
  lemma TeardownShape(st: State, sid: SessionId, reason: string, who: Side) returns (more: seq<Event>)
    requires sid in st.sessions
    ensures var st1, s := Teardown(st, sid, reason, who), st.sessions[sid];
            && st1.sessions == st.sessions - {sid}
            && st1.slots.Keys == st.slots.Keys
            && (forall side :: side in st.slots ==>
                  st1.slots[side] == if IsSide(s, side) then Without(st.slots[side], sid) else st.slots[side])
            && st1.log == st.log + more
  {
    var s := st.sessions[sid];
    more := [Removed(sid, who)] + (if s.ready then [EndHook(sid, s.controller.id, s.hostId)] else []);
    var st2 := State(st.slots, st.sessions - {sid}, st.log + more);
    var first := DismissShape(st2, s.controller, sid, reason, who);
    var second := DismissShape(Dismiss(st2, s.controller, sid, reason, who), HostSide(s), sid, reason, who);
    assert Teardown(st, sid, reason, who) == Dismiss(Dismiss(st2, s.controller, sid, reason, who), HostSide(s), sid, reason, who)
    by {
      assert st.log + [Removed(sid, who)] + [EndHook(sid, s.controller.id, s.hostId)]
          == st.log + ([Removed(sid, who)] + [EndHook(sid, s.controller.id, s.hostId)]);
      assert [Removed(sid, who)] + [] == [Removed(sid, who)];
    }
    assert st.log + more + first + second == st.log + (more + first + second);
    more := more + first + second;
  }

  lemma TeardownAgrees(st: State, sid: SessionId, reason: string, who: Side, strict: bool, torn: set<SessionId>)
    requires Agree(st, strict, torn)
    ensures Agree(Teardown(st, sid, reason, who), strict, torn - {sid})
    ensures Teardown(st, sid, reason, who).slots.Keys == st.slots.Keys
  {
    if sid in st.sessions {
      var more := TeardownShape(st, sid, reason, who);
      var st1 := Teardown(st, sid, reason, who);
      assert forall side, x :: Holds(st1, side, x) ==> Holds(st, side, x) && x != sid;
      assert forall side, x :: Holds(st, side, x) && x != sid ==> Holds(st1, side, x);
      forall x | x in st1.sessions ensures !FreshId(st1.log, x) {
        NoteKeepsUsed(st.log, more, x);
      }
    }
  }

  lemma {:induction false} TeardownAllAgrees(
      st: State, sids: seq<SessionId>, reason: string, who: Side, strict: bool, torn: set<SessionId>)
    requires Agree(st, strict, torn)
    ensures Agree(TeardownAll(st, sids, reason, who), strict, torn - set x | x in sids)
    ensures TeardownAll(st, sids, reason, who).slots.Keys == st.slots.Keys
  {
    if sids == [] {
      assert torn - (set x | x in sids) == torn;
    } else {
      var n := |sids| - 1;
      TeardownAllAgrees(st, sids[..n], reason, who, strict, torn);
      var rest := torn - set x | x in sids[..n];
      TeardownAgrees(TeardownAll(st, sids[..n], reason, who), sids[n], reason, who, strict, rest);
      assert rest - {sids[n]} == torn - set x | x in sids by {
        assert sids == sids[..n] + [sids[n]];
      }
    }
  }

  lemma OnlineKeeps(st: State, strict: bool, side: Side, conn: ConnId, meta: Meta, now: int)
    requires Inv(st, strict)
    ensures Inv(Online(st, side, conn, meta, now), strict)
  {
    var st1 := Online(st, side, conn, meta, now);
    assert forall s, x :: Holds(st1, s, x) <==> Holds(st, s, x);
    if side in st.slots && st.slots[side].conn != conn {
      forall x | x in st.sessions ensures !FreshId(st1.log, x) {
        NoteKeepsUsed(st.log, [Closed(st.slots[side].conn)], x);
      }
    }
  }

  /** The slot goes first; the sessions it held are the torn ones until the snapshot has been gone through. */
  lemma OfflineKeeps(st: State, strict: bool, side: Side, conn: Option<ConnId>, order: seq<SessionId>)
    requires Inv(st, strict) && Proper(st, GoOffline(side, conn, order))
    ensures Inv(Offline(st, side, conn, order), strict)
    ensures Leaves(st, side, conn) ==> side !in Offline(st, side, conn, order).slots
  {
    if Leaves(st, side, conn) {
      var gone := st.(slots := st.slots - {side});
      var torn := st.slots[side].sessions;
      assert forall s, x :: Holds(gone, s, x) <==> Holds(st, s, x) && s != side;
      assert forall x :: Holds(st, side, x) <==> x in torn;
      assert Agree(gone, strict, torn);
      TeardownAllAgrees(gone, order, "peer_offline", side, strict, torn);
      assert torn - (set x | x in order) == {};
    }
  }

  lemma AddShape(st: State, side: Side, sid: SessionId)
    ensures var st1 := AddTo(st, side, sid);
            && st1.sessions == st.sessions && st1.log == st.log && st1.slots.Keys == st.slots.Keys
            && forall s, x :: Holds(st1, s, x) <==> Holds(st, s, x) || (s == side && side in st.slots && x == sid)
  {
  }

  lemma MadeIsUsed(st: State, made: Event, x: SessionId)
    requires made.Created? && (made.sid == x || !FreshId(st.log, x))
    ensures !FreshId(st.log + [made], x)
  {
    var log := st.log + [made];
    if made.sid == x {
      assert log[|st.log|] == made;
    } else {
      NoteKeepsUsed(st.log, [made], x);
    }
  }

  /** A new session entered in the table and in the set of each side that is there. */
  lemma EnterKeeps(st: State, strict: bool, caller: Side, target: DeviceId, sid: SessionId)
    requires Inv(st, strict) && FreshId(st.log, sid) && Side(target, Host) in st.slots && (strict ==> caller in st.slots)
    ensures var st1 := Note(st.(sessions := st.sessions[sid := Session(caller, target, false)]), Created(sid, caller, target));
            Inv(AddTo(AddTo(st1, Side(target, Host), sid), caller, sid), strict)
  {
    var host, made := Side(target, Host), Created(sid, caller, target);
    var st1 := Note(st.(sessions := st.sessions[sid := Session(caller, target, false)]), made);
    assert forall s, x :: Holds(st1, s, x) <==> Holds(st, s, x);
    AddShape(st1, host, sid);
    AddShape(AddTo(st1, host, sid), caller, sid);
    forall x | x in st1.sessions ensures !FreshId(st1.log, x) {
      MadeIsUsed(st, made, x);
    }
  }

  lemma RequestKeeps(
      st: State, strict: bool, caller: Side, target: DeviceId, pk: Option<string>, sid: SessionId, maxInbound: nat)
    requires Inv(st, strict) && FreshId(st.log, sid) && (strict ==> caller in st.slots)
    ensures Inv(Request(st, caller, target, pk, sid, maxInbound).0, strict)
  {
    var host := Side(target, Host);
    if Request(st, caller, target, pk, sid, maxInbound).1.Connected? {
      EnterKeeps(st, strict, caller, target, sid);
      var st1 := Note(st.(sessions := st.sessions[sid := Session(caller, target, false)]), Created(sid, caller, target));
      SendAgrees(AddTo(AddTo(st1, host, sid), caller, sid), host, IncomingRequest(sid, pk, target), strict, {});
    }
  }

  lemma AcceptKeeps(st: State, strict: bool, sid: SessionId, who: Side)
    requires Inv(st, strict)
    ensures Inv(Accept(st, sid, who).0, strict)
  {
    if MayAccept(st, sid, who) {
      var s := st.sessions[sid];
      var st0 := st.(sessions := st.sessions[sid := s.(ready := true)]);
      assert forall side, x :: Holds(st0, side, x) <==> Holds(st, side, x);
      var st1 := Note(st0, StartHook(sid, s.controller.id, s.hostId));
      LogOnly(st0, st1, [StartHook(sid, s.controller.id, s.hostId)], strict, {});
      SendAgrees(st1, HostSide(s), ConnectReady(sid, Offerer, s.hostId), strict, {});
      SendAgrees(Send(st1, HostSide(s), ConnectReady(sid, Offerer, s.hostId)), s.controller,
                 ConnectReady(sid, Answerer, s.controller.id), strict, {});
    }
  }

  /** Every operation keeps the agreement. */
  lemma StepKeeps(st: State, strict: bool, op: Op, maxInbound: nat)
    requires Inv(st, strict) && Proper(st, op) && (strict ==> Disciplined(st, op))
    ensures Inv(Step(st, op, maxInbound), strict)
  {
    match op
    case GoOnline(side, conn, meta, now) => OnlineKeeps(st, strict, side, conn, meta, now);
    case GoOffline(side, conn, order) => OfflineKeeps(st, strict, side, conn, order);
    case RequestConnect(caller, target, pk, sid) => RequestKeeps(st, strict, caller, target, pk, sid, maxInbound);
    case AcceptConnect(sid, who) => AcceptKeeps(st, strict, sid, who);
    case RejectConnect(sid, who, reason) =>
      if sid in st.sessions && who == HostSide(st.sessions[sid]) {
        SendAgrees(st, st.sessions[sid].controller, ConnectErrForbidden, strict, {});
        TeardownAgrees(Send(st, st.sessions[sid].controller, ConnectErrForbidden), sid,
                       if reason.Some? then reason.value else "rejected", who, strict, {});
        assert {} - {sid} == {};
      }
    case RelaySignal(sid, from, kind, payload) =>
      if PeerPresent(st, sid, from) {
        SendAgrees(st, PeerOf(st.sessions[sid], from), Signal(sid, kind, payload), strict, {});
      }
    case CloseSession(sid, reason, who) =>
      TeardownAgrees(st, sid, if reason.Some? then reason.value else "closed", who, strict, {});
      assert {} - {sid} == {};
  }

  /** Index agreement in every reachable state. */
  lemma {:induction false} RunAgrees(ops: seq<Op>, maxInbound: nat, strict: bool)
    requires ProperRun(ops, maxInbound) && (strict ==> DisciplinedRun(ops, maxInbound))
    ensures Inv(Run(ops, maxInbound), strict)
  {
    if ops != [] {
      RunAgrees(ops[..|ops| - 1], maxInbound, strict);
      StepKeeps(Run(ops[..|ops| - 1], maxInbound), strict, ops[|ops| - 1], maxInbound);
    }
  }

  // ------------------------------------------------------------- consequences

  /**
   * A member's close succeeds exactly when its peer's slot is registered. When every requester was registered that is
   * always the case; in any case only a host can fail, and only while the controller's slot is missing.
   */
  lemma MemberCanClose(ops: seq<Op>, maxInbound: nat, sid: SessionId, who: Side, reason: Option<string>)
    requires ProperRun(ops, maxInbound)
    ensures var st := Run(ops, maxInbound);
            sid in st.sessions && IsSide(st.sessions[sid], who) ==>
              && (Close(st, sid, reason, who).1
                  <==> who == st.sessions[sid].controller || st.sessions[sid].controller in st.slots)
              && (DisciplinedRun(ops, maxInbound) ==> Close(st, sid, reason, who).1)
  {
    RunAgrees(ops, maxInbound, false);
    var st := Run(ops, maxInbound);
    if sid in st.sessions {
      assert Holds(st, HostSide(st.sessions[sid]), sid);
      if DisciplinedRun(ops, maxInbound) {
        RunAgrees(ops, maxInbound, true);
        assert Holds(st, st.sessions[sid].controller, sid);
      }
    }
  }

  /** A run in which the requester is not registered, and the host's close fails and leaves the session in place. */
  lemma HostCloseCanFail()
    ensures var h := Side("h", Host);
            var c := Side("c", Controller);
            var ops := [GoOnline(h, 1, Meta(None, false, None), 0), RequestConnect(c, "h", None, "s")];
            && ProperRun(ops, 4)
            && "s" in Run(ops, 4).sessions && IsSide(Run(ops, 4).sessions["s"], h)
            && Close(Run(ops, 4), "s", None, h) == (Run(ops, 4), false)
  {
    var h, c := Side("h", Host), Side("c", Controller);
    var up, ask := GoOnline(h, 1, Meta(None, false, None), 0), RequestConnect(c, "h", None, "s");
    assert [up][..0] == [] && [up, ask][..1] == [up];
    assert Run([up], 4) == Step(Run([], 4), up, 4);
    assert Run([up, ask], 4) == Step(Run([up], 4), ask, 4);
    assert ProperRun([up], 4);
  }

  /** The live sessions that have the given device as their host. */
  function InboundOf(st: State, host: DeviceId): set<SessionId> {
    set sid | sid in st.sessions && st.sessions[sid].hostId == host
  }

  ghost predicate QuotaKept(st: State, maxInbound: nat) {
    forall host :: |InboundOf(st, host)| <= maxInbound
  }

  lemma SubsetSize<T>(a: set<T>, b: set<T>)
    requires a <= b
    ensures |a| <= |b|
  {
    var rest := b - a;
    assert b == a + rest;
  }

  /** Tearing sessions down leaves no session that was not there, with the same host. */
  lemma {:induction false} TeardownAllShrinks(st: State, sids: seq<SessionId>, reason: string, who: Side)
    ensures var st1 := TeardownAll(st, sids, reason, who);
            st1.sessions.Keys <= st.sessions.Keys && forall sid :: sid in st1.sessions ==> st1.sessions[sid] == st.sessions[sid]
  {
    if sids != [] {
      var n := |sids| - 1;
      TeardownAllShrinks(st, sids[..n], reason, who);
      var mid := TeardownAll(st, sids[..n], reason, who);
      if sids[n] in mid.sessions {
        var _ := TeardownShape(mid, sids[n], reason, who);
      }
    }
  }

  /** Only a request adds to the session table, and nothing changes the host of a session. */
  lemma StepShrinks(st: State, op: Op, maxInbound: nat)
    requires !op.RequestConnect?
    ensures var st1 := Step(st, op, maxInbound);
            st1.sessions.Keys <= st.sessions.Keys
            && forall sid :: sid in st1.sessions ==> st1.sessions[sid].hostId == st.sessions[sid].hostId
  {
    match op
    case GoOffline(side, held, order) =>
      if Leaves(st, side, held) {
        TeardownAllShrinks(st.(slots := st.slots - {side}), order, "peer_offline", side);
      }
    case RejectConnect(sid, who, reason) =>
      if sid in st.sessions {
        var _ := TeardownShape(Send(st, st.sessions[sid].controller, ConnectErrForbidden), sid,
                               if reason.Some? then reason.value else "rejected", who);
      }
    case CloseSession(sid, reason, who) =>
      if sid in st.sessions {
        var _ := TeardownShape(st, sid, if reason.Some? then reason.value else "closed", who);
      }
    case _ =>
  }

  /** A request that is granted finds fewer inbound sessions than the limit, because the host's slot holds them all. */
  lemma RequestQuota(st: State, caller: Side, target: DeviceId, pk: Option<string>, sid: SessionId, maxInbound: nat)
    requires Inv(st, false) && QuotaKept(st, maxInbound)
    ensures QuotaKept(Request(st, caller, target, pk, sid, maxInbound).0, maxInbound)
  {
    var (st1, r) := Request(st, caller, target, pk, sid, maxInbound);
    if r.Connected? {
      var slot := st.slots[Side(target, Host)];
      var inbound := InboundOf(st, target);
      forall x | x in inbound ensures x in slot.sessions {
        assert Holds(st, Side(target, Host), x);
      }
      SubsetSize(inbound, slot.sessions);
      assert st1.sessions == st.sessions[sid := Session(caller, target, false)];
      forall host ensures |InboundOf(st1, host)| <= maxInbound {
        if host == target {
          SubsetSize(InboundOf(st1, host), inbound + {sid});
        } else {
          SubsetSize(InboundOf(st1, host), InboundOf(st, host));
        }
      }
    }
  }

  lemma StepQuota(st: State, op: Op, maxInbound: nat)
    requires Inv(st, false) && QuotaKept(st, maxInbound)
    ensures QuotaKept(Step(st, op, maxInbound), maxInbound)
  {
    if op.RequestConnect? {
      RequestQuota(st, op.caller, op.target, op.passwordKind, op.sid, maxInbound);
    } else {
      StepShrinks(st, op, maxInbound);
      var st1 := Step(st, op, maxInbound);
      forall host ensures |InboundOf(st1, host)| <= maxInbound {
        SubsetSize(InboundOf(st1, host), InboundOf(st, host));
      }
    }
  }

  /** Inbound quota: in every reachable state no device is the host of more than `maxInbound` sessions. */
  lemma {:induction false} InboundQuota(ops: seq<Op>, maxInbound: nat)
    requires ProperRun(ops, maxInbound)
    ensures QuotaKept(Run(ops, maxInbound), maxInbound)
  {
    if ops != [] {
      var init := ops[..|ops| - 1];
      InboundQuota(init, maxInbound);
      RunAgrees(init, maxInbound, false);
      StepQuota(Run(init, maxInbound), ops[|ops| - 1], maxInbound);
    } else {
      assert forall host :: InboundOf(EMPTY, host) == {};
    }
  }

  const PLAIN := Meta(None, false, None)
  const G := Side("g", Host)
  const H := Side("h", Host)
  const I := Side("i", Host)

  /** Three hosts come online and the first requests a session on each of the others. */
  const BUSY_RUN := [GoOnline(H, 1, PLAIN, 0), GoOnline(I, 2, PLAIN, 0), GoOnline(G, 3, PLAIN, 0),
                     RequestConnect(G, "h", None, "s"), RequestConnect(G, "i", None, "t")]

  function Three(h: set<SessionId>, i: set<SessionId>, g: set<SessionId>): map<Side, Slot> {
    map[H := Slot(1, 0, h, PLAIN), I := Slot(2, 0, i, PLAIN), G := Slot(3, 0, g, PLAIN)]
  }

  lemma BusyRunStart()
    ensures Run(BUSY_RUN[..3], 1) == State(Three({}, {}, {}), map[], []) && ProperRun(BUSY_RUN[..3], 1)
  {
    assert BUSY_RUN[..0] == [];
    RunSnoc(BUSY_RUN, 0, 1);
    RunSnoc(BUSY_RUN, 1, 1);
    RunSnoc(BUSY_RUN, 2, 1);
  }

  lemma Granted(st: State, caller: Side, target: DeviceId, sid: SessionId, maxInbound: nat)
    requires var host := Side(target, Host);
             host in st.slots && |st.slots[host].sessions| < maxInbound && caller in st.slots && caller != host
    ensures var host := Side(target, Host);
            var st1 := Request(st, caller, target, None, sid, maxInbound).0;
            && st1.sessions == st.sessions[sid := Session(caller, target, false)]
            && st1.slots == st.slots[host := st.slots[host].(sessions := st.slots[host].sessions + {sid})]
                                    [caller := st.slots[caller].(sessions := st.slots[caller].sessions + {sid})]
            && st1.log == st.log + [Created(sid, caller, target)]
                          + [Sent(host, st.slots[host].conn, IncomingRequest(sid, None, target))]
  {
  }

  lemma BusyRunMiddle()
    ensures var st := Run(BUSY_RUN[..4], 1);
            && ProperRun(BUSY_RUN[..4], 1) && FreshId(st.log, "t")
            && st.slots == Three({"s"}, {}, {"s"}) && st.sessions == map["s" := Session(G, "h", false)]
  {
    BusyRunStart();
    RunSnoc(BUSY_RUN, 3, 1);
    Granted(Run(BUSY_RUN[..3], 1), G, "h", "s", 1);
    assert {} + {"s"} == {"s"};
  }

  lemma BusyRunEnd()
    ensures var st := Run(BUSY_RUN, 1);
            && ProperRun(BUSY_RUN, 1)
            && st.slots == Three({"s"}, {"t"}, {"s", "t"})
            && st.sessions == map["s" := Session(G, "h", false), "t" := Session(G, "i", false)]
  {
    BusyRunMiddle();
    RunSnoc(BUSY_RUN, 4, 1);
    Granted(Run(BUSY_RUN[..4], 1), G, "i", "t", 1);
    assert BUSY_RUN[..5] == BUSY_RUN;
    assert {"s"} + {"t"} == {"s", "t"} && {} + {"t"} == {"t"};
  }

  /**
   * A host-role slot's own set is not so bounded, because it also counts the sessions it requested itself: here it
   * exceeds the limit, and its owner is busy for others, without a single inbound session.
   */
  lemma OwnSetCanExceedQuota()
    ensures var st := Run(BUSY_RUN, 1);
            && ProperRun(BUSY_RUN, 1)
            && G in st.slots && |st.slots[G].sessions| > 1 && InboundOf(st, "g") == {}
            && Request(st, H, "g", None, "u", 1).1 == Busy
  {
    BusyRunEnd();
    assert |{"s", "t"}| == 2;
  }

  lemma RunSnoc(ops: seq<Op>, n: nat, maxInbound: nat)
    requires n < |ops|
    ensures Run(ops[..n + 1], maxInbound) == Step(Run(ops[..n], maxInbound), ops[n], maxInbound)
    ensures ProperRun(ops[..n + 1], maxInbound)
            <==> ProperRun(ops[..n], maxInbound) && Proper(Run(ops[..n], maxInbound), ops[n])
  {
    assert ops[..n + 1][..n] == ops[..n];
  }
}
