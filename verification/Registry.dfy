/**
 * The rendezvous registry: online role slots and sessions in memory, and the messages and audit hooks that every
 * operation causes. The two-level table of the source (id, then role) is one map keyed by (id, role) here, so the
 * removal of an id without roles needs no step of its own.
 */
module Registry {
  import opened Base

  type DeviceId = string
  type SessionId = string
  type ConnId = nat

  datatype Kind = Host | Controller

  /** A role of a device: the key of a slot, and one side of a session. */
  datatype Side = Side(id: DeviceId, kind: Kind)

  datatype Meta = Meta(wanIp: Option<string>, canWake: bool, accountId: Option<string>)

  datatype Slot = Slot(conn: ConnId, lastSeen: int, sessions: set<SessionId>, meta: Meta)

  datatype Session = Session(controller: Side, hostId: DeviceId, ready: bool)

  function HostSide(s: Session): Side { Side(s.hostId, Host) }

  predicate IsSide(s: Session, side: Side) { side == s.controller || side == HostSide(s) }

  /** The other side; a session whose two sides are the same slot has itself as its peer. */
  function PeerOf(s: Session, side: Side): Side
    requires IsSide(s, side)
  {
    if side == s.controller then HostSide(s) else s.controller
  }

  datatype Role = Offerer | Answerer
  datatype SignalKind = Offer | Answer | Ice | End

  datatype Message =
    | IncomingRequest(sid: SessionId, passwordKind: Option<string>, iceFor: DeviceId)
    | ConnectReady(sid: SessionId, role: Role, iceFor: DeviceId)
    | ConnectErrForbidden
    | Signal(sid: SessionId, kind: SignalKind, payload: string)
    | SessionClose(sid: SessionId, reason: string)
    | WakeDispatch(mac: string)

  /** What the registry does outwardly, and, for the record, the changes of its session table. */
  datatype Event =
    | Sent(to: Side, conn: ConnId, msg: Message)
    | Closed(conn: ConnId)
    | StartHook(sid: SessionId, controllerId: DeviceId, hostId: DeviceId)
    | EndHook(sid: SessionId, controllerId: DeviceId, hostId: DeviceId)
    | Created(sid: SessionId, controller: Side, hostId: DeviceId)
    | Removed(sid: SessionId, who: Side)

  datatype State = State(slots: map<Side, Slot>, sessions: map<SessionId, Session>, log: seq<Event>)

  const EMPTY := State(map[], map[], [])

  // ------------------------------------------------------------- operations

  function Note(st: State, e: Event): State { st.(log := st.log + [e]) }

  /** `this.slot(side)?.conn.send(msg)`. */
  function Send(st: State, to: Side, msg: Message): State {
    if to in st.slots then Note(st, Sent(to, st.slots[to].conn, msg)) else st
  }

  function AddTo(st: State, side: Side, sid: SessionId): State {
    if side in st.slots then
      st.(slots := st.slots[side := st.slots[side].(sessions := st.slots[side].sessions + {sid})])
    else st
  }

  function DropFrom(st: State, side: Side, sid: SessionId): State {
    if side in st.slots then
      st.(slots := st.slots[side := st.slots[side].(sessions := st.slots[side].sessions - {sid})])
    else st
  }

  function Online(st: State, side: Side, conn: ConnId, meta: Meta, now: int): State {
    var st1 := if side in st.slots && st.slots[side].conn != conn then Note(st, Closed(st.slots[side].conn)) else st;
    var sessions := if side in st.slots then st.slots[side].sessions else {};
    st1.(slots := st.slots[side := Slot(conn, now, sessions, meta)])
  }

  /** One side of a torn-down session forgets it and, unless it asked for it, is told. */
  function Dismiss(st: State, side: Side, sid: SessionId, reason: string, who: Side): State {
    var st1 := DropFrom(st, side, sid);
    if side == who then st1 else Send(st1, side, SessionClose(sid, reason))
  }

  function Teardown(st: State, sid: SessionId, reason: string, who: Side): State {
    if sid !in st.sessions then st
    else
      var s := st.sessions[sid];
      var st1 := Note(st.(sessions := st.sessions - {sid}), Removed(sid, who));
      var st2 := if s.ready then Note(st1, EndHook(sid, s.controller.id, s.hostId)) else st1;
      Dismiss(Dismiss(st2, s.controller, sid, reason, who), HostSide(s), sid, reason, who)
  }

  /** Tearing down a list of sessions one after the other. */
  function TeardownAll(st: State, sids: seq<SessionId>, reason: string, who: Side): State {
    if sids == [] then st
    else Teardown(TeardownAll(st, sids[..|sids| - 1], reason, who), sids[|sids| - 1], reason, who)
  }

  /** Whether going offline has any effect: the slot is there, and held by the given connection if one is given. */
  predicate Leaves(st: State, side: Side, conn: Option<ConnId>) {
    side in st.slots && (conn.Some? ==> st.slots[side].conn == conn.value)
  }

  predicate Lists(order: seq<SessionId>, sids: set<SessionId>) {
    (forall x :: x in order ==> x in sids) && forall x :: x in sids ==> x in order
  }

  /** `order` is the order in which the snapshot of the slot's sessions is gone through. */
  function Offline(st: State, side: Side, conn: Option<ConnId>, order: seq<SessionId>): State {
    if !Leaves(st, side, conn) then st
    else TeardownAll(st.(slots := st.slots - {side}), order, "peer_offline", side)
  }

  datatype ConnectResult = Connected(sid: SessionId) | Unavailable | Busy

  function Request(
      st: State, caller: Side, target: DeviceId, passwordKind: Option<string>, sid: SessionId, maxInbound: nat)
    : (State, ConnectResult)
  {
    var host := Side(target, Host);
    if host !in st.slots then (st, Unavailable)
    else if |st.slots[host].sessions| >= maxInbound then (st, Busy)
    else
      var st1 := Note(st.(sessions := st.sessions[sid := Session(caller, target, false)]), Created(sid, caller, target));
      var st2 := AddTo(AddTo(st1, host, sid), caller, sid);
      (Send(st2, host, IncomingRequest(sid, passwordKind, target)), Connected(sid))
  }

  predicate MayAccept(st: State, sid: SessionId, who: Side) {
    sid in st.sessions && who == HostSide(st.sessions[sid]) && !st.sessions[sid].ready
  }

  function Accept(st: State, sid: SessionId, who: Side): (State, bool) {
    if !MayAccept(st, sid, who) then (st, false)
    else
      var s := st.sessions[sid];
      var st1 := Note(st.(sessions := st.sessions[sid := s.(ready := true)]), StartHook(sid, s.controller.id, s.hostId));
      var st2 := Send(st1, HostSide(s), ConnectReady(sid, Offerer, s.hostId));
      (Send(st2, s.controller, ConnectReady(sid, Answerer, s.controller.id)), true)
  }

  function Reject(st: State, sid: SessionId, who: Side, reason: Option<string>): (State, bool) {
    if sid !in st.sessions || who != HostSide(st.sessions[sid]) then (st, false)
    else
      var st1 := Send(st, st.sessions[sid].controller, ConnectErrForbidden);
      (Teardown(st1, sid, if reason.Some? then reason.value else "rejected", who), true)
  }

  /** The sender is a member and its peer's slot is registered. */
  predicate PeerPresent(st: State, sid: SessionId, side: Side) {
    sid in st.sessions && IsSide(st.sessions[sid], side) && PeerOf(st.sessions[sid], side) in st.slots
  }

  function Relay(st: State, sid: SessionId, from: Side, kind: SignalKind, payload: string): (State, bool) {
    if !PeerPresent(st, sid, from) then (st, false)
    else (Send(st, PeerOf(st.sessions[sid], from), Signal(sid, kind, payload)), true)
  }

  function Close(st: State, sid: SessionId, reason: Option<string>, who: Side): (State, bool) {
    if !PeerPresent(st, sid, who) then (st, false)
    else (Teardown(st, sid, if reason.Some? then reason.value else "closed", who), true)
  }

  // ------------------------------------------------------------------ object

  class Registry {
    var slots: map<Side, Slot>
    var sessions: map<SessionId, Session>
    const maxInbound: nat
    ghost var log: seq<Event>

    ghost function View(): State reads this { State(slots, sessions, log) }

    constructor (maxInbound: Option<nat>)
      ensures View() == EMPTY && this.maxInbound == if maxInbound.Some? then maxInbound.value else 4
    {
      slots, sessions, log := map[], map[], [];
      this.maxInbound := if maxInbound.Some? then maxInbound.value else 4;
    }

    method SendTo(side: Side, msg: Message)
      modifies this`log
      ensures View() == Send(old(View()), side, msg)
    {
      if side in slots {
        log := log + [Sent(side, slots[side].conn, msg)];
      }
    }

    method GoOnline(side: Side, conn: ConnId, meta: Meta, now: int)
      modifies this
      ensures View() == Online(old(View()), side, conn, meta, now)
    {
      var sids: set<SessionId> := {};
      if side in slots {
        sids := slots[side].sessions;
        if slots[side].conn != conn {
          log := log + [Closed(slots[side].conn)];
        }
      }
      slots := slots[side := Slot(conn, now, sids, meta)];
    }

    method GoOffline(side: Side, conn: Option<ConnId>) returns (ghost order: seq<SessionId>)
      modifies this
      ensures Leaves(old(View()), side, conn) ==> Lists(order, old(slots)[side].sessions)
      ensures View() == Offline(old(View()), side, conn, order)
    {
      order := [];
      if side !in slots || (conn.Some? && slots[side].conn != conn.value) {
        return;
      }
      var left := slots[side].sessions;
      slots := slots - {side};
      ghost var base := View();
      while left != {}
        invariant View() == TeardownAll(base, order, "peer_offline", side)
        invariant left <= old(slots)[side].sessions
        invariant Lists(order, old(slots)[side].sessions - left)
        decreases left
      {
        var sid :| sid in left;
        TearDown(sid, "peer_offline", side);
        assert (order + [sid])[..|order|] == order;
        order := order + [sid];
        left := left - {sid};
      }
    }

    method TearDown(sid: SessionId, reason: string, who: Side)
      modifies this
      ensures View() == Teardown(old(View()), sid, reason, who)
    {
      if sid !in sessions {
        return;
      }
      var s := sessions[sid];
      sessions := sessions - {sid};
      log := log + [Removed(sid, who)];
      if s.ready {
        log := log + [EndHook(sid, s.controller.id, s.hostId)];
      }
      DismissSide(s.controller, sid, reason, who);
      DismissSide(HostSide(s), sid, reason, who);
    }

    method DismissSide(side: Side, sid: SessionId, reason: string, who: Side)
      modifies this
      ensures View() == Dismiss(old(View()), side, sid, reason, who)
    {
      if side !in slots {
        return;
      }
      slots := slots[side := slots[side].(sessions := slots[side].sessions - {sid})];
      if side != who {
        SendTo(side, SessionClose(sid, reason));
      }
    }

    /** `sid` is what the id generator returns. */
    method RequestConnect(caller: Side, target: DeviceId, passwordKind: Option<string>, sid: SessionId)
      returns (r: ConnectResult)
      modifies this
      ensures (View(), r) == Request(old(View()), caller, target, passwordKind, sid, maxInbound)
    {
      var host := Side(target, Host);
      if host !in slots {
        return Unavailable;
      }
      if |slots[host].sessions| >= maxInbound {
        return Busy;
      }
      sessions := sessions[sid := Session(caller, target, false)];
      log := log + [Created(sid, caller, target)];
      slots := slots[host := slots[host].(sessions := slots[host].sessions + {sid})];
      if caller in slots {
        slots := slots[caller := slots[caller].(sessions := slots[caller].sessions + {sid})];
      }
      SendTo(host, IncomingRequest(sid, passwordKind, target));
      r := Connected(sid);
    }

    method AcceptConnect(sid: SessionId, who: Side) returns (ok: bool)
      modifies this
      ensures (View(), ok) == Accept(old(View()), sid, who)
    {
      if sid !in sessions || who != HostSide(sessions[sid]) || sessions[sid].ready {
        return false;
      }
      var s := sessions[sid];
      sessions := sessions[sid := s.(ready := true)];
      log := log + [StartHook(sid, s.controller.id, s.hostId)];
      SendTo(HostSide(s), ConnectReady(sid, Offerer, s.hostId));
      SendTo(s.controller, ConnectReady(sid, Answerer, s.controller.id));
      ok := true;
    }

    method RejectConnect(sid: SessionId, who: Side, reason: Option<string>) returns (ok: bool)
      modifies this
      ensures (View(), ok) == Reject(old(View()), sid, who, reason)
    {
      if sid !in sessions || who != HostSide(sessions[sid]) {
        return false;
      }
      SendTo(sessions[sid].controller, ConnectErrForbidden);
      TearDown(sid, if reason.Some? then reason.value else "rejected", who);
      ok := true;
    }

    method PeerSlotOf(s: Session, side: Side) returns (peer: Option<Side>)
      ensures peer == if IsSide(s, side) && PeerOf(s, side) in slots then Some(PeerOf(s, side)) else None
    {
      peer := None;
      if s.controller == side {
        peer := if HostSide(s) in slots then Some(HostSide(s)) else None;
      } else if HostSide(s) == side {
        peer := if s.controller in slots then Some(s.controller) else None;
      }
    }

    method RelaySignal(sid: SessionId, from: Side, kind: SignalKind, payload: string) returns (ok: bool)
      modifies this
      ensures (View(), ok) == Relay(old(View()), sid, from, kind, payload)
    {
      if sid !in sessions {
        return false;
      }
      var peer := PeerSlotOf(sessions[sid], from);
      if peer.None? {
        return false;
      }
      SendTo(peer.value, Signal(sid, kind, payload));
      ok := true;
    }

    method CloseSession(sid: SessionId, reason: Option<string>, who: Side) returns (ok: bool)
      modifies this
      ensures (View(), ok) == Close(old(View()), sid, reason, who)
    {
      if sid !in sessions {
        return false;
      }
      var peer := PeerSlotOf(sessions[sid], who);
      if peer.None? {
        return false;
      }
      TearDown(sid, if reason.Some? then reason.value else "closed", who);
      ok := true;
    }
  }
}
