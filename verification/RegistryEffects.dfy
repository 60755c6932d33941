/**
 * What every operation of the registry does outwardly, in the terms of its tables and messages: what it returns, what
 * is in the tables afterwards, and the whole of what it sends, to whom and in which order.
 */
module RegistryEffects {
  import opened Base
  import opened Registry
  import opened RegistryInvariant
  import Sockets

  /** A message to a side: one event if its slot is registered, and nothing otherwise. */
  function Told(slots: map<Side, Slot>, to: Side, m: Message): seq<Event> {
    if to in slots then [Sent(to, slots[to].conn, m)] else []
  }

  /** The slots with one session id taken out of, or put into, the sets of two sides. */
  function Forget(slots: map<Side, Slot>, sid: SessionId, a: Side, b: Side): map<Side, Slot> {
    map k | k in slots :: if k == a || k == b then slots[k].(sessions := slots[k].sessions - {sid}) else slots[k]
  }

  function Enlist(slots: map<Side, Slot>, sid: SessionId, a: Side, b: Side): map<Side, Slot> {
    map k | k in slots :: if k == a || k == b then slots[k].(sessions := slots[k].sessions + {sid}) else slots[k]
  }

  /** Registering takes the slot over with its sessions and closes another connection that held it, and that alone. */
  lemma OnlineDoes(st: State, side: Side, conn: ConnId, meta: Meta, now: int)
    ensures var st1 := Online(st, side, conn, meta, now);
            && st1.sessions == st.sessions
            && st1.slots.Keys == st.slots.Keys + {side}
            && (forall k :: k in st.slots && k != side ==> st1.slots[k] == st.slots[k])
            && st1.slots[side].conn == conn && st1.slots[side].lastSeen == now && st1.slots[side].meta == meta
            && st1.slots[side].sessions == (if side in st.slots then st.slots[side].sessions else {})
            && st1.log == st.log + if side in st.slots && st.slots[side].conn != conn then [Closed(st.slots[side].conn)] else []
  {
    assert st.log + [] == st.log;
  }

  /** A request is refused without effect, or granted: the session is pending on both sides and the host is asked. */
  lemma RequestDoes(
      st: State, caller: Side, target: DeviceId, kind: Option<string>, sid: SessionId, maxInbound: nat)
    ensures var (st1, r) := Request(st, caller, target, kind, sid, maxInbound);
            var host := Side(target, Host);
            && (r == Unavailable <==> host !in st.slots)
            && (r == Busy <==> host in st.slots && |st.slots[host].sessions| >= maxInbound)
            && (!r.Connected? ==> st1 == st)
            && (r.Connected? ==>
                  && r.sid == sid
                  && st1.sessions == st.sessions[sid := Session(caller, target, false)]
                  && st1.slots == Enlist(st.slots, sid, host, caller)
                  && st1.log == st.log + [Created(sid, caller, target)]
                                + [Sent(host, st.slots[host].conn, IncomingRequest(sid, kind, target))])
  {
  }

  /** Only the host of a pending session accepts it: it is ready, the hook fires, and each side that is there is told. */
  lemma AcceptDoes(st: State, sid: SessionId, who: Side)
    ensures var (st1, ok) := Accept(st, sid, who);
            && (ok <==> sid in st.sessions && who == Side(st.sessions[sid].hostId, Host) && !st.sessions[sid].ready)
            && (!ok ==> st1 == st)
            && (ok ==>
                  var s := st.sessions[sid];
                  && st1.slots == st.slots && st1.sessions == st.sessions[sid := Session(s.controller, s.hostId, true)]
                  && st1.log == st.log + [StartHook(sid, s.controller.id, s.hostId)]
                                + Told(st.slots, who, ConnectReady(sid, Offerer, s.hostId))
                                + Told(st.slots, s.controller, ConnectReady(sid, Answerer, s.controller.id)))
  {
    if MayAccept(st, sid, who) {
      var s := st.sessions[sid];
      var st1 := Note(st.(sessions := st.sessions[sid := s.(ready := true)]), StartHook(sid, s.controller.id, s.hostId));
      SendTells(st1, who, ConnectReady(sid, Offerer, s.hostId));
      SendTells(Send(st1, who, ConnectReady(sid, Offerer, s.hostId)), s.controller,
                ConnectReady(sid, Answerer, s.controller.id));
    }
  }

  lemma SendTells(st: State, to: Side, m: Message)
    ensures var st1 := Send(st, to, m);
            st1.slots == st.slots && st1.sessions == st.sessions && st1.log == st.log + Told(st.slots, to, m)
  {
    assert st.log + [] == st.log;
  }

  /** A signal from one side of a live session goes unchanged, and once, to the other side if that is registered. */
  lemma RelayDoes(st: State, sid: SessionId, from: Side, kind: SignalKind, payload: string)
    ensures var (st1, ok) := Relay(st, sid, from, kind, payload);
            if sid in st.sessions && (from == st.sessions[sid].controller || from == Side(st.sessions[sid].hostId, Host)) then
              var s := st.sessions[sid];
              var other := if from == s.controller then Side(s.hostId, Host) else s.controller;
              && (ok <==> other in st.slots)
              && st1 == st.(log := st.log + Told(st.slots, other, Signal(sid, kind, payload)))
            else !ok && st1 == st
  {
    assert st.log + [] == st.log;
  }

  /** So in every run such a relay delivers exactly one signal. */
  lemma RelayDelivers(ops: seq<Op>, k: nat, maxInbound: nat)
    requires k < |ops| && ops[k].RelaySignal?
    ensures var st, st1, op := Run(ops[..k], maxInbound), Run(ops[..k + 1], maxInbound), ops[k];
            op.sid in st.sessions ==>
              var c, h := st.sessions[op.sid].controller, Side(st.sessions[op.sid].hostId, Host);
              && (op.from == c && h in st.slots ==>
                    st1.log == st.log + [Sent(h, st.slots[h].conn, Signal(op.sid, op.kind, op.payload))])
              && (op.from == h && h != c && c in st.slots ==>
                    st1.log == st.log + [Sent(c, st.slots[c].conn, Signal(op.sid, op.kind, op.payload))])
  {
    var op := ops[k];
    RunSnoc(ops, k, maxInbound);
    RelayDoes(Run(ops[..k], maxInbound), op.sid, op.from, op.kind, op.payload);
  }

  /** The events of a session's end: its removal, the end hook if it was ready, and the word to each side but the one. */
  function Ending(st: State, sid: SessionId, who: Side, reason: string): seq<Event>
    requires sid in st.sessions
  {
    var s := st.sessions[sid];
    var c, h, word := s.controller, Side(s.hostId, Host), SessionClose(sid, reason);
    [Removed(sid, who)] + (if s.ready then [EndHook(sid, c.id, s.hostId)] else [])
    + (if who == c then [] else Told(st.slots, c, word)) + (if who == h then [] else Told(st.slots, h, word))
  }

  lemma DismissDoes(st: State, side: Side, sid: SessionId, reason: string, who: Side)
    ensures var st1 := Dismiss(st, side, sid, reason, who);
            && st1.sessions == st.sessions && st1.slots == Forget(st.slots, sid, side, side)
            && st1.log == st.log + if side == who then [] else Told(st.slots, side, SessionClose(sid, reason))
  {
    assert DropFrom(st, side, sid).slots == Forget(st.slots, sid, side, side);
    assert st.log + [] == st.log;
  }

  /** A session is torn down: it leaves the table and both sets, and nothing else changes or is sent. */
  lemma TeardownDoes(st: State, sid: SessionId, reason: string, who: Side)
    requires sid in st.sessions
    ensures var st1, s := Teardown(st, sid, reason, who), st.sessions[sid];
            && st1.sessions == st.sessions - {sid}
            && st1.slots == Forget(st.slots, sid, s.controller, Side(s.hostId, Host))
            && st1.log == st.log + Ending(st, sid, who, reason)
  {
    var s := st.sessions[sid];
    var c, h := s.controller, Side(s.hostId, Host);
    var head := [Removed(sid, who)] + if s.ready then [EndHook(sid, c.id, s.hostId)] else [];
    var st1 := Note(st.(sessions := st.sessions - {sid}), Removed(sid, who));
    var st2 := if s.ready then Note(st1, EndHook(sid, c.id, s.hostId)) else st1;
    assert st2.log == st.log + head by {
      Assoc(st.log, [Removed(sid, who)], [EndHook(sid, c.id, s.hostId)]);
      assert [Removed(sid, who)] + [] == [Removed(sid, who)];
    }
    DismissDoes(st2, c, sid, reason, who);
    DismissDoes(Dismiss(st2, c, sid, reason, who), h, sid, reason, who);
    TwoForget(st.slots, sid, c, h);
    var one, two := if c == who then [] else Told(st.slots, c, SessionClose(sid, reason)),
                    if h == who then [] else Told(st.slots, h, SessionClose(sid, reason));
    assert Told(Forget(st.slots, sid, c, c), h, SessionClose(sid, reason)) == Told(st.slots, h, SessionClose(sid, reason));
    Assoc(st.log, head, one);
    Assoc(st.log, head + one, two);
  }

  lemma TwoForget(slots: map<Side, Slot>, sid: SessionId, a: Side, b: Side)
    ensures Forget(Forget(slots, sid, a, a), sid, b, b) == Forget(slots, sid, a, b)
  {
    if a == b && a in slots {
      assert slots[a].sessions - {sid} - {sid} == slots[a].sessions - {sid};
    }
  }

  /** A rejection by the host, and by nobody else: the controller hears "forbidden", and the session is torn down. */
  lemma RejectDoes(st: State, sid: SessionId, who: Side, reason: Option<string>)
    ensures var (st1, ok) := Reject(st, sid, who, reason);
            && (ok <==> sid in st.sessions && who == Side(st.sessions[sid].hostId, Host))
            && (!ok ==> st1 == st)
            && (ok ==>
                  var s, why := st.sessions[sid], if reason.Some? then reason.value else "rejected";
                  && st1.sessions == st.sessions - {sid} && st1.slots == Forget(st.slots, sid, s.controller, who)
                  && st1.log == st.log + Told(st.slots, s.controller, ConnectErrForbidden) + Ending(st, sid, who, why))
  {
    if sid in st.sessions && who == HostSide(st.sessions[sid]) {
      SendTells(st, st.sessions[sid].controller, ConnectErrForbidden);
      TeardownDoes(Send(st, st.sessions[sid].controller, ConnectErrForbidden), sid,
                   if reason.Some? then reason.value else "rejected", who);
    }
  }

  /** A close by a side whose peer is registered, and by nobody else, tears the session down. */
  lemma CloseDoes(st: State, sid: SessionId, reason: Option<string>, who: Side)
    ensures var (st1, ok) := Close(st, sid, reason, who);
            && (ok <==> sid in st.sessions
                        && var c, h := st.sessions[sid].controller, Side(st.sessions[sid].hostId, Host);
                           (who == c && h in st.slots) || (who == h && h != c && c in st.slots))
            && (!ok ==> st1 == st)
            && (ok ==>
                  var s, why := st.sessions[sid], if reason.Some? then reason.value else "closed";
                  && st1.sessions == st.sessions - {sid}
                  && st1.slots == Forget(st.slots, sid, s.controller, Side(s.hostId, Host))
                  && st1.log == st.log + Ending(st, sid, who, why))
  {
    if sid in st.sessions {
      TeardownDoes(st, sid, if reason.Some? then reason.value else "closed", who);
    }
  }

  /**
   * In every reachable state a close that succeeds leaves no trace of the session, in the table or in any slot's set,
   * and leaves all other sessions and all else of the slots as they were; besides the removal it causes the end hook, if
   * the session was ready, and the word to the other side, if there is another and it is registered.
   */
  lemma CloseEnds(ops: seq<Op>, maxInbound: nat, sid: SessionId, reason: Option<string>, who: Side)
    requires ProperRun(ops, maxInbound)
    ensures var st := Run(ops, maxInbound);
            var (st1, ok) := Close(st, sid, reason, who);
            ok ==>
              && sid in st.sessions && st1.sessions == st.sessions - {sid}
              && st1.slots.Keys == st.slots.Keys
              && (forall k :: k in st.slots ==> st1.slots[k] == st.slots[k].(sessions := st.slots[k].sessions - {sid}))
              && var s := st.sessions[sid];
                 var other := if who == s.controller then Side(s.hostId, Host) else s.controller;
                 var word := SessionClose(sid, if reason.Some? then reason.value else "closed");
                 st1.log == st.log + [Removed(sid, who)] + (if s.ready then [EndHook(sid, s.controller.id, s.hostId)] else [])
                            + (if other != who then [Sent(other, st.slots[other].conn, word)] else [])
  {
    var st := Run(ops, maxInbound);
    var (st1, ok) := Close(st, sid, reason, who);
    CloseDoes(st, sid, reason, who);
    RunAgrees(ops, maxInbound, false);
    if ok {
      forall k | k in st.slots ensures st1.slots[k] == st.slots[k].(sessions := st.slots[k].sessions - {sid}) {
        OthersForgetNothing(st, sid, k);
      }
      EndingOfOne(st, sid, who, if reason.Some? then reason.value else "closed");
    }
  }

  /** A slot that is no side of the session does not hold it. */
  lemma OthersForgetNothing(st: State, sid: SessionId, k: Side)
    requires Inv(st, false) && sid in st.sessions && k in st.slots
    ensures !IsSide(st.sessions[sid], k) ==> st.slots[k].sessions - {sid} == st.slots[k].sessions
  {
    assert Holds(st, k, sid) ==> IsSide(st.sessions[sid], k);
  }

  lemma EndingOfOne(st: State, sid: SessionId, who: Side, reason: string)
    requires sid in st.sessions && IsSide(st.sessions[sid], who)
    requires PeerOf(st.sessions[sid], who) in st.slots
    ensures var s := st.sessions[sid];
            var other := if who == s.controller then Side(s.hostId, Host) else s.controller;
            st.log + Ending(st, sid, who, reason)
            == st.log + [Removed(sid, who)] + (if s.ready then [EndHook(sid, s.controller.id, s.hostId)] else [])
               + (if other != who then [Sent(other, st.slots[other].conn, SessionClose(sid, reason))] else [])
  {
  }

  // ------------------------------------------------------ through the sockets

  /** A message about a session is carried out for the device and role the socket registered as, and for none other. */
  lemma CommandDoes(w: Sockets.World, conn: ConnId, c: Sockets.Command, maxInbound: nat)
    requires conn in w.sockets
    ensures var w1, identity := Sockets.Perform(w, Sockets.Commanded(conn, c), maxInbound), w.sockets[conn].identity;
            && w1.sockets == w.sockets
            && w1.reg == if identity == None then w.reg
                         else if c.Accept? then Accept(w.reg, c.sid, identity.value).0
                         else if c.Reject? then Reject(w.reg, c.sid, identity.value, c.reason).0
                         else if c.Relay? then Relay(w.reg, c.sid, identity.value, c.kind, c.payload).0
                         else Close(w.reg, c.sid, c.reason, identity.value).0
  {
    if w.sockets[conn].identity.Some? {
      Sockets.ApplyOne(w.reg, Sockets.CommandOp(w.sockets[conn].identity.value, c), maxInbound);
    }
  }

  /** A granted request is made in the name of the socket's identity. */
  lemma RequestedDoes(
      w: Sockets.World, conn: ConnId, target: DeviceId, kind: Option<string>, sid: SessionId, maxInbound: nat)
    requires Sockets.Possible(w, Sockets.RequestDone(conn, target, kind, sid))
    ensures var w1 := Sockets.Perform(w, Sockets.RequestDone(conn, target, kind, sid), maxInbound);
            && w1.sockets == w.sockets
            && w1.reg == if w.sockets[conn].identity == None then w.reg
                         else Request(w.reg, w.sockets[conn].identity.value, target, kind, sid, maxInbound).0
  {
    if w.sockets[conn].identity.Some? {
      Sockets.ApplyOne(w.reg, RequestConnect(w.sockets[conn].identity.value, target, kind, sid), maxInbound);
    }
  }

  /**
   * What two sockets see: a signal sent by the socket of one side of a live session arrives, once, at the connection
   * that holds the other side, and nothing else is sent or changed.
   */
  lemma SignalArrives(
      w: Sockets.World, conn: ConnId, sid: SessionId, kind: SignalKind, payload: string, maxInbound: nat)
    requires conn in w.sockets && sid in w.reg.sessions
    ensures var w1 := Sockets.Perform(w, Sockets.Commanded(conn, Sockets.Relay(sid, kind, payload)), maxInbound);
            var c, h, me := w.reg.sessions[sid].controller, Side(w.reg.sessions[sid].hostId, Host), w.sockets[conn].identity;
            var reached := if me == Some(c) then Told(w.reg.slots, h, Signal(sid, kind, payload))
                           else if me == Some(h) then Told(w.reg.slots, c, Signal(sid, kind, payload))
                           else [];
            w1 == w.(reg := w.reg.(log := w.reg.log + reached))
  {
    CommandDoes(w, conn, Sockets.Relay(sid, kind, payload), maxInbound);
    assert w.reg.log + [] == w.reg.log;
    if w.sockets[conn].identity.Some? {
      RelayDoes(w.reg, sid, w.sockets[conn].identity.value, kind, payload);
    }
  }
}
