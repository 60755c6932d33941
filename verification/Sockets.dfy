/**
 * The signalling endpoint: what each WebSocket's handlers do to the registry, with the handlers cut at their awaits.
 * A registration may complete, and a request may be granted, after the socket has been replaced or even closed.
 */
module Sockets {
  import opened Base
  import opened Registry
  import opened RegistryInvariant

  /** The variables of one connection's handlers. */
  class SocketHandler {
    const conn: ConnId
    const registry: Registry
    var identity: Option<Side>

    constructor (conn: ConnId, registry: Registry)
      ensures this.conn == conn && this.registry == registry && identity == None
    {
      this.conn, this.registry, identity := conn, registry, None;
    }

    /** The end of a `register`, after the device was found and its secret verified. */
    method Registered(side: Side, meta: Meta, now: int) returns (ghost order: seq<SessionId>)
      modifies this, registry
      ensures identity == Some(side)
      ensures Releases(old(registry.View()), old(identity), conn) ==>
                Lists(order, old(registry.View()).slots[old(identity).value].sessions)
      ensures registry.View() == Apply(old(registry.View()), RegisterOps(old(identity), conn, side, meta, now, order),
                                       registry.maxInbound)
    {
      order := [];
      ghost var before := registry.View();
      if identity.Some? {
        order := registry.GoOffline(identity.value, Some(conn));
      }
      ghost var ops := RegisterOps(identity, conn, side, meta, now, order);
      identity := Some(side);
      registry.GoOnline(side, conn, meta, now);
      assert ops[..|ops| - 1] == ReleaseOps(old(identity), conn, order);
      ApplyRelease(before, old(identity), conn, order, registry.maxInbound);
    }

    /** The end of a `connect_request`, after the limiter and the target's lists let it pass. */
    method Requested(target: DeviceId, passwordKind: Option<string>, sid: SessionId) returns (r: Option<ConnectResult>)
      modifies registry
      ensures r.Some? <==> identity.Some?
      ensures if identity.Some? then
                (registry.View(), r.value)
                == Request(old(registry.View()), identity.value, target, passwordKind, sid, registry.maxInbound)
              else registry.View() == old(registry.View())
    {
      r := None;
      if identity.Some? {
        var result := registry.RequestConnect(identity.value, target, passwordKind, sid);
        r := Some(result);
      }
    }

    /** A message about a session, carried out in the name of the socket's identity. */
    method Commanded(c: Command)
      modifies registry
      ensures registry.View()
              == if identity.Some? then Step(old(registry.View()), CommandOp(identity.value, c), registry.maxInbound)
                 else old(registry.View())
    {
      if identity.None? {
        return;
      }
      var side := identity.value;
      match c
      case Accept(sid) => var _ := registry.AcceptConnect(sid, side);
      case Reject(sid, reason) => var _ := registry.RejectConnect(sid, side, reason);
      case Relay(sid, kind, payload) => var _ := registry.RelaySignal(sid, side, kind, payload);
      case Close(sid, reason) => var _ := registry.CloseSession(sid, reason, side);
    }

    /** The socket's close event. */
    method SocketClosed() returns (ghost order: seq<SessionId>)
      modifies registry
      ensures Releases(old(registry.View()), identity, conn) ==>
                Lists(order, old(registry.View()).slots[identity.value].sessions)
      ensures registry.View() == Apply(old(registry.View()), ReleaseOps(identity, conn, order), registry.maxInbound)
    {
      order := [];
      ghost var before := registry.View();
      if identity.Some? {
        order := registry.GoOffline(identity.value, Some(conn));
      }
      ApplyRelease(before, identity, conn, order, registry.maxInbound);
    }
  }

  /** Registry operations one after the other. */
  function Apply(st: State, ops: seq<Op>, maxInbound: nat): State {
    if ops == [] then st else Step(Apply(st, ops[..|ops| - 1], maxInbound), ops[|ops| - 1], maxInbound)
  }

  predicate Releases(st: State, identity: Option<Side>, conn: ConnId) {
    identity.Some? && Leaves(st, identity.value, Some(conn))
  }

  function ReleaseOps(identity: Option<Side>, conn: ConnId, order: seq<SessionId>): seq<Op> {
    if identity.Some? then [GoOffline(identity.value, Some(conn), order)] else []
  }

  function RegisterOps(
      identity: Option<Side>, conn: ConnId, side: Side, meta: Meta, now: int, order: seq<SessionId>): seq<Op>
  {
    ReleaseOps(identity, conn, order) + [GoOnline(side, conn, meta, now)]
  }

  lemma ApplyOne(st: State, op: Op, maxInbound: nat)
    ensures Apply(st, [op], maxInbound) == Step(st, op, maxInbound)
  {
    assert [op][..0] == [];
  }

  lemma ApplyRelease(st: State, identity: Option<Side>, conn: ConnId, order: seq<SessionId>, maxInbound: nat)
    ensures Apply(st, ReleaseOps(identity, conn, order), maxInbound)
            == if identity.Some? then Offline(st, identity.value, Some(conn), order) else st
  {
    if identity.Some? {
      ApplyOne(st, GoOffline(identity.value, Some(conn), order), maxInbound);
    }
  }

  // ------------------------------------------------------------- all sockets

  /** What is known of a socket; `late` records that a registration completed after its close. */
  datatype Socket = Socket(identity: Option<Side>, closed: bool, late: bool)

  datatype World = World(reg: State, sockets: map<ConnId, Socket>)

  datatype Command =
    | Accept(sid: SessionId)
    | Reject(sid: SessionId, reason: Option<string>)
    | Relay(sid: SessionId, kind: SignalKind, payload: string)
    | Close(sid: SessionId, reason: Option<string>)

  datatype Act =
    | Opened(conn: ConnId)
    | RegisterDone(conn: ConnId, side: Side, meta: Meta, now: int, order: seq<SessionId>)
    | RequestDone(conn: ConnId, target: DeviceId, passwordKind: Option<string>, sid: SessionId)
    | Commanded(conn: ConnId, command: Command)
    | CloseSeen(conn: ConnId, order: seq<SessionId>)

  const NOTHING := World(EMPTY, map[])

  function CommandOp(side: Side, c: Command): Op {
    match c
    case Accept(sid) => AcceptConnect(sid, side)
    case Reject(sid, reason) => RejectConnect(sid, side, reason)
    case Relay(sid, kind, payload) => RelaySignal(sid, side, kind, payload)
    case Close(sid, reason) => CloseSession(sid, reason, side)
  }

  /** The registry operations of one handler step; messages of a socket without identity are refused. */
  function OpsOf(w: World, a: Act): seq<Op>
    requires !a.Opened? ==> a.conn in w.sockets
  {
    match a
    case Opened(_) => []
    case RegisterDone(conn, side, meta, now, order) =>
      RegisterOps(w.sockets[conn].identity, conn, side, meta, now, order)
    case CloseSeen(conn, order) => ReleaseOps(w.sockets[conn].identity, conn, order)
    case RequestDone(conn, target, pk, sid) =>
      if w.sockets[conn].identity.Some? then [RequestConnect(w.sockets[conn].identity.value, target, pk, sid)] else []
    case Commanded(conn, c) =>
      if w.sockets[conn].identity.Some? then [CommandOp(w.sockets[conn].identity.value, c)] else []
  }

  /** A socket opens once; everything else happens on a socket that was opened, and it is closed at most once. */
  predicate Possible(w: World, a: Act) {
    match a
    case Opened(conn) => conn !in w.sockets
    case RegisterDone(conn, _, _, _, order) =>
      conn in w.sockets && (Releases(w.reg, w.sockets[conn].identity, conn) ==>
                              Lists(order, w.reg.slots[w.sockets[conn].identity.value].sessions))
    case CloseSeen(conn, order) =>
      conn in w.sockets && !w.sockets[conn].closed
      && (Releases(w.reg, w.sockets[conn].identity, conn) ==>
            Lists(order, w.reg.slots[w.sockets[conn].identity.value].sessions))
    case RequestDone(conn, _, _, sid) => conn in w.sockets && FreshId(w.reg.log, sid)
    case Commanded(conn, _) => conn in w.sockets
  }

  function Perform(w: World, a: Act, maxInbound: nat): World
    requires Possible(w, a)
  {
    World(Apply(w.reg, OpsOf(w, a), maxInbound),
          match a
          case Opened(conn) => w.sockets[conn := Socket(None, false, false)]
          case RegisterDone(conn, side, _, _, _) =>
            w.sockets[conn := Socket(Some(side), w.sockets[conn].closed, w.sockets[conn].closed)]
          case CloseSeen(conn, _) => w.sockets[conn := w.sockets[conn].(closed := true, late := false)]
          case _ => w.sockets)
  }

  /**
   * Every slot is held by a socket whose own identity names that slot; and a closed socket holds none unless a
   * registration completed on it after its close.
   */
  ghost predicate Owned(w: World) {
    forall side :: side in w.reg.slots ==>
      var conn := w.reg.slots[side].conn;
      conn in w.sockets && w.sockets[conn].identity == Some(side) && (w.sockets[conn].closed ==> w.sockets[conn].late)
  }

  // ------------------------------------------------------- who holds what

  /** The connection that holds each slot. */
  function Holders(st: State): map<Side, ConnId> { map side | side in st.slots :: st.slots[side].conn }

  /** Without what one connection holds. */
  function Freed(h: map<Side, ConnId>, conn: ConnId): map<Side, ConnId> {
    map side | side in h && h[side] != conn :: h[side]
  }

  /** Holding is decided by completed registrations and closes alone. */
  function NextHolders(h: map<Side, ConnId>, a: Act): map<Side, ConnId> {
    match a
    case RegisterDone(conn, side, _, _, _) => Freed(h, conn)[side := conn]
    case CloseSeen(conn, _) => Freed(h, conn)
    case _ => h
  }

  predicate Absent(h: map<Side, ConnId>, conn: ConnId) { forall side :: side in h ==> h[side] != conn }

  predicate Distinct(h: map<Side, ConnId>) { forall s, t :: s in h && t in h && h[s] == h[t] ==> s == t }

  predicate HeldBy(h: map<Side, ConnId>, side: Side, conn: ConnId) { side in h && h[side] == conn }

  lemma NextAbsent(h: map<Side, ConnId>, a: Act, conn: ConnId)
    requires Absent(h, conn) && !Registers(a, conn)
    ensures Absent(NextHolders(h, a), conn)
  {
  }

  lemma NextDistinct(h: map<Side, ConnId>, a: Act)
    requires Distinct(h)
    ensures Distinct(NextHolders(h, a))
  {
  }

  /** Without registering, a connection holds what it held, unless it closed or was replaced. */
  lemma NextHeldBy(h: map<Side, ConnId>, a: Act, side: Side, conn: ConnId)
    requires !Registers(a, conn)
    ensures HeldBy(NextHolders(h, a), side, conn)
            <==> HeldBy(h, side, conn) && !Replaces(a, side) && !(a.CloseSeen? && a.conn == conn)
  {
  }

  predicate Registers(a: Act, conn: ConnId) { a.RegisterDone? && a.conn == conn }

  predicate Replaces(a: Act, side: Side) { a.RegisterDone? && a.side == side }

  lemma TeardownHolders(st: State, sid: SessionId, reason: string, who: Side)
    ensures Holders(Teardown(st, sid, reason, who)) == Holders(st)
  {
    if sid in st.sessions {
      var _ := TeardownShape(st, sid, reason, who);
    }
  }

  lemma {:induction false} TeardownAllHolders(st: State, sids: seq<SessionId>, reason: string, who: Side)
    ensures Holders(TeardownAll(st, sids, reason, who)) == Holders(st)
  {
    if sids != [] {
      TeardownAllHolders(st, sids[..|sids| - 1], reason, who);
      TeardownHolders(TeardownAll(st, sids[..|sids| - 1], reason, who), sids[|sids| - 1], reason, who);
    }
  }

  lemma OfflineHolders(st: State, side: Side, conn: Option<ConnId>, order: seq<SessionId>)
    ensures Holders(Offline(st, side, conn, order)) == if Leaves(st, side, conn) then Holders(st) - {side} else Holders(st)
  {
    if Leaves(st, side, conn) {
      TeardownAllHolders(st.(slots := st.slots - {side}), order, "peer_offline", side);
    }
  }

  /** A request and a command change who holds what as little as a teardown does. */
  lemma OtherHolders(st: State, op: Op, maxInbound: nat)
    requires !op.GoOnline? && !op.GoOffline?
    ensures Holders(Step(st, op, maxInbound)) == Holders(st)
  {
    match op
    case RejectConnect(sid, who, reason) =>
      if sid in st.sessions {
        TeardownHolders(Send(st, st.sessions[sid].controller, ConnectErrForbidden), sid,
                        if reason.Some? then reason.value else "rejected", who);
      }
    case CloseSession(sid, reason, who) =>
      TeardownHolders(st, sid, if reason.Some? then reason.value else "closed", who);
    case _ =>
  }

  /** A socket that releases its identity holds nothing afterwards, and nobody else loses anything. */
  lemma ReleaseHolders(w: World, conn: ConnId, order: seq<SessionId>, maxInbound: nat)
    requires Owned(w) && conn in w.sockets
    ensures Holders(Apply(w.reg, ReleaseOps(w.sockets[conn].identity, conn, order), maxInbound))
            == Freed(Holders(w.reg), conn)
  {
    var identity := w.sockets[conn].identity;
    ApplyRelease(w.reg, identity, conn, order, maxInbound);
    if identity.Some? {
      OfflineHolders(w.reg, identity.value, Some(conn), order);
    }
  }

  lemma PerformHolders(w: World, a: Act, maxInbound: nat)
    requires Owned(w) && Possible(w, a)
    ensures Holders(Perform(w, a, maxInbound).reg) == NextHolders(Holders(w.reg), a)
  {
    var ops := OpsOf(w, a);
    match a
    case Opened(_) =>
    case RegisterDone(conn, side, meta, now, order) =>
      ReleaseHolders(w, conn, order, maxInbound);
      assert ops[..|ops| - 1] == ReleaseOps(w.sockets[conn].identity, conn, order);
    case CloseSeen(conn, order) => ReleaseHolders(w, conn, order, maxInbound);
    case _ =>
      if ops != [] {
        ApplyOne(w.reg, ops[0], maxInbound);
        OtherHolders(w.reg, ops[0], maxInbound);
      }
  }

  lemma PerformOwned(w: World, a: Act, maxInbound: nat)
    requires Owned(w) && Possible(w, a)
    ensures Owned(Perform(w, a, maxInbound))
  {
    PerformHolders(w, a, maxInbound);
    var w1 := Perform(w, a, maxInbound);
    forall side | side in w1.reg.slots
      ensures var conn := w1.reg.slots[side].conn;
              && conn in w1.sockets && w1.sockets[conn].identity == Some(side)
              && (w1.sockets[conn].closed ==> w1.sockets[conn].late)
    {
      assert side in Holders(w1.reg) && Holders(w1.reg)[side] == w1.reg.slots[side].conn;
      assert side in Holders(w.reg) ==> Holders(w.reg)[side] == w.reg.slots[side].conn;
    }
  }

  // -------------------------------------------------------------------- runs

  function Run(acts: seq<Act>, maxInbound: nat): Option<World> {
    if acts == [] then Some(NOTHING)
    else
      var prev := Run(acts[..|acts| - 1], maxInbound);
      if prev.Some? && Possible(prev.value, acts[|acts| - 1]) then
        Some(Perform(prev.value, acts[|acts| - 1], maxInbound))
      else None
  }

  /**
   * Slot ownership: under any interleaving of registrations, replacements, requests and closes, a connection holds at
   * most one slot, the one its socket's own identity names; and if its socket is closed, only because a registration
   * completed after the close.
   */
  lemma {:induction false} OneSlotPerSocket(acts: seq<Act>, maxInbound: nat)
    requires Run(acts, maxInbound).Some?
    ensures var w := Run(acts, maxInbound).value;
            && Owned(w)
            && forall s, t :: s in w.reg.slots && t in w.reg.slots && w.reg.slots[s].conn == w.reg.slots[t].conn ==> s == t
  {
    if acts != [] {
      OneSlotPerSocket(acts[..|acts| - 1], maxInbound);
      PerformOwned(Run(acts[..|acts| - 1], maxInbound).value, acts[|acts| - 1], maxInbound);
    }
  }

  /** Who holds what after a sequence of acts, from the acts alone. */
  function HoldersRun(acts: seq<Act>): map<Side, ConnId> {
    if acts == [] then map[] else NextHolders(HoldersRun(acts[..|acts| - 1]), acts[|acts| - 1])
  }

  lemma {:induction false} HoldersOfRun(acts: seq<Act>, maxInbound: nat)
    requires Run(acts, maxInbound).Some?
    ensures Holders(Run(acts, maxInbound).value.reg) == HoldersRun(acts)
  {
    if acts != [] {
      var init := acts[..|acts| - 1];
      HoldersOfRun(init, maxInbound);
      OneSlotPerSocket(init, maxInbound);
      PerformHolders(Run(init, maxInbound).value, acts[|acts| - 1], maxInbound);
    }
  }

  /** Act `n` took a slot from `conn`, which has not registered since. */
  ghost predicate Replaced(acts: seq<Act>, n: nat, conn: ConnId) {
    && n < |acts| && acts[n].RegisterDone? && acts[n].conn != conn
    && HeldBy(HoldersRun(acts[..n]), acts[n].side, conn)
    && forall k :: n < k < |acts| ==> !Registers(acts[k], conn)
  }

  lemma {:induction false} HoldersDistinct(acts: seq<Act>)
    ensures Distinct(HoldersRun(acts))
  {
    if acts != [] {
      HoldersDistinct(acts[..|acts| - 1]);
      NextDistinct(HoldersRun(acts[..|acts| - 1]), acts[|acts| - 1]);
    }
  }

  lemma TakenOver(h: map<Side, ConnId>, a: Act, conn: ConnId)
    requires Distinct(h) && a.RegisterDone? && a.conn != conn && HeldBy(h, a.side, conn)
    ensures Absent(NextHolders(h, a), conn)
  {
  }

  /** A connection holds one slot at most, so one that was replaced holds none until it registers again. */
  lemma {:induction false} ReplacedHoldsNothing(acts: seq<Act>, n: nat, conn: ConnId)
    requires Replaced(acts, n, conn)
    ensures Absent(HoldersRun(acts), conn)
  {
    var init, a := acts[..|acts| - 1], acts[|acts| - 1];
    if n < |acts| - 1 {
      assert acts[..n] == init[..n];
      ReplacedHoldsNothing(init, n, conn);
      NextAbsent(HoldersRun(init), a, conn);
    } else {
      HoldersDistinct(init);
      TakenOver(HoldersRun(init), a, conn);
    }
  }

  /** The late close of a socket whose slot was taken over, however much later, changes nothing in the registry. */
  lemma LateCloseIsHarmless(acts: seq<Act>, maxInbound: nat, n: nat, conn: ConnId, order: seq<SessionId>)
    requires Replaced(acts, n, conn)
    requires Run(acts, maxInbound).Some? && Possible(Run(acts, maxInbound).value, CloseSeen(conn, order))
    ensures var w := Run(acts, maxInbound).value; Perform(w, CloseSeen(conn, order), maxInbound).reg == w.reg
  {
    var w := Run(acts, maxInbound).value;
    ReplacedHoldsNothing(acts, n, conn);
    HoldersOfRun(acts, maxInbound);
    var identity := w.sockets[conn].identity;
    ApplyRelease(w.reg, identity, conn, order, maxInbound);
    if identity.Some? && identity.value in w.reg.slots {
      assert identity.value in Holders(w.reg);
    }
  }

  /** Act `n` registered the closed socket `conn` as `side`, and neither it nor the slot has been registered since. */
  ghost predicate Late(acts: seq<Act>, maxInbound: nat, n: nat, conn: ConnId, side: Side) {
    && n < |acts| && Registers(acts[n], conn) && acts[n].side == side
    && ClosedIn(Run(acts[..n], maxInbound), conn)
    && forall k :: n < k < |acts| ==> !Registers(acts[k], conn) && !Replaces(acts[k], side)
  }

  predicate ClosedIn(w: Option<World>, conn: ConnId) { w.Some? && conn in w.value.sockets && w.value.sockets[conn].closed }

  lemma {:induction false} StaysClosed(acts: seq<Act>, maxInbound: nat, n: nat, conn: ConnId)
    requires n <= |acts| && Run(acts, maxInbound).Some? && ClosedIn(Run(acts[..n], maxInbound), conn)
    ensures ClosedIn(Run(acts, maxInbound), conn)
  {
    if n < |acts| {
      assert acts[..|acts| - 1][..n] == acts[..n];
      StaysClosed(acts[..|acts| - 1], maxInbound, n, conn);
    } else {
      assert acts[..n] == acts;
    }
  }

  /** A registration that completes after the socket's close holds its slot for good, until the slot is taken over. */
  lemma {:induction false} LateHolds(acts: seq<Act>, maxInbound: nat, n: nat, conn: ConnId, side: Side)
    requires Run(acts, maxInbound).Some? && Late(acts, maxInbound, n, conn, side)
    ensures HeldBy(HoldersRun(acts), side, conn)
  {
    var init, a := acts[..|acts| - 1], acts[|acts| - 1];
    if n < |acts| - 1 {
      assert init[..n] == acts[..n];
      LateHolds(init, maxInbound, n, conn, side);
      StaysClosed(init, maxInbound, n, conn);
      NextHeldBy(HoldersRun(init), a, side, conn);
    }
  }

  /** Only the socket's own close closes it. */
  lemma ClosedBefore(acts: seq<Act>, maxInbound: nat, conn: ConnId)
    requires acts != [] && ClosedIn(Run(acts, maxInbound), conn)
    requires var a := acts[|acts| - 1]; !(a.CloseSeen? && a.conn == conn)
    ensures ClosedIn(Run(acts[..|acts| - 1], maxInbound), conn)
  {
    ClosedByClose(Run(acts[..|acts| - 1], maxInbound).value, acts[|acts| - 1], maxInbound, conn);
  }

  lemma ClosedByClose(w: World, a: Act, maxInbound: nat, conn: ConnId)
    requires Possible(w, a) && ClosedIn(Some(Perform(w, a, maxInbound)), conn) && !(a.CloseSeen? && a.conn == conn)
    ensures ClosedIn(Some(w), conn)
  {
  }

  lemma LateNow(acts: seq<Act>, maxInbound: nat, conn: ConnId, side: Side)
    requires acts != [] && ClosedIn(Run(acts, maxInbound), conn) && Registers(acts[|acts| - 1], conn)
    requires HeldBy(HoldersRun(acts), side, conn)
    ensures Late(acts, maxInbound, |acts| - 1, conn, side)
  {
    ClosedBefore(acts, maxInbound, conn);
  }

  lemma LateStays(acts: seq<Act>, maxInbound: nat, n: nat, conn: ConnId, side: Side)
    requires acts != [] && Late(acts[..|acts| - 1], maxInbound, n, conn, side)
    requires !Registers(acts[|acts| - 1], conn) && !Replaces(acts[|acts| - 1], side)
    ensures Late(acts, maxInbound, n, conn, side)
  {
    assert acts[..|acts| - 1][..n] == acts[..n];
  }

  /** And that is the only way in which a closed socket holds a slot. */
  lemma {:induction false} ClosedHoldsLate(acts: seq<Act>, maxInbound: nat, conn: ConnId, side: Side) returns (n: nat)
    requires ClosedIn(Run(acts, maxInbound), conn) && HeldBy(HoldersRun(acts), side, conn)
    ensures Late(acts, maxInbound, n, conn, side)
    decreases |acts|
  {
    var init, a := acts[..|acts| - 1], acts[|acts| - 1];
    if Registers(a, conn) {
      LateNow(acts, maxInbound, conn, side);
      n := |acts| - 1;
    } else {
      NextHeldBy(HoldersRun(init), a, side, conn);
      ClosedBefore(acts, maxInbound, conn);
      n := ClosedHoldsLate(init, maxInbound, conn, side);
      LateStays(acts, maxInbound, n, conn, side);
    }
  }

  /** In every run a closed socket holds a slot exactly when it registered for it after its close and was not replaced. */
  lemma ClosedHolderIff(acts: seq<Act>, maxInbound: nat, conn: ConnId, side: Side)
    requires ClosedIn(Run(acts, maxInbound), conn)
    ensures HeldBy(Holders(Run(acts, maxInbound).value.reg), side, conn)
            <==> exists n: nat :: Late(acts, maxInbound, n, conn, side)
  {
    HoldersOfRun(acts, maxInbound);
    if HeldBy(HoldersRun(acts), side, conn) {
      var n := ClosedHoldsLate(acts, maxInbound, conn, side);
    }
    forall n: nat | Late(acts, maxInbound, n, conn, side) ensures HeldBy(HoldersRun(acts), side, conn) {
      LateHolds(acts, maxInbound, n, conn, side);
    }
  }

  /** Index agreement holds under the sockets too: every handler step is made of proper registry operations. */
  lemma {:induction false} SocketsAgree(acts: seq<Act>, maxInbound: nat)
    requires Run(acts, maxInbound).Some?
    ensures Inv(Run(acts, maxInbound).value.reg, false)
  {
    if acts != [] {
      var init, a := acts[..|acts| - 1], acts[|acts| - 1];
      SocketsAgree(init, maxInbound);
      var w := Run(init, maxInbound).value;
      var ops := OpsOf(w, a);
      match a {
        case Opened(_) =>
        case RegisterDone(conn, side, meta, now, order) =>
          ReleaseKeeps(w.reg, w.sockets[conn].identity, conn, order, maxInbound);
          assert ops[..|ops| - 1] == ReleaseOps(w.sockets[conn].identity, conn, order);
          StepKeeps(Apply(w.reg, ops[..|ops| - 1], maxInbound), false, ops[|ops| - 1], maxInbound);
        case CloseSeen(conn, order) => ReleaseKeeps(w.reg, w.sockets[conn].identity, conn, order, maxInbound);
        case _ =>
          if ops != [] {
            ApplyOne(w.reg, ops[0], maxInbound);
            StepKeeps(w.reg, false, ops[0], maxInbound);
          }
      }
    }
  }

  lemma ReleaseKeeps(st: State, identity: Option<Side>, conn: ConnId, order: seq<SessionId>, maxInbound: nat)
    requires Inv(st, false)
    requires Releases(st, identity, conn) ==> Lists(order, st.slots[identity.value].sessions)
    ensures Inv(Apply(st, ReleaseOps(identity, conn, order), maxInbound), false)
  {
    ApplyRelease(st, identity, conn, order, maxInbound);
    if identity.Some? {
      OfflineKeeps(st, false, identity.value, Some(conn), order);
    }
  }

  lemma RunSnoc(acts: seq<Act>, a: Act, w: World, maxInbound: nat)
    requires Run(acts, maxInbound) == Some(w) && Possible(w, a)
    ensures Run(acts + [a], maxInbound) == Some(Perform(w, a, maxInbound))
  {
    assert (acts + [a])[..|acts|] == acts;
  }

  /** Such a run: the registration completes after the close and leaves the slot to a socket that is gone. */
  lemma LateRegistrationLingers(side: Side, meta: Meta, now: int, maxInbound: nat)
    ensures var acts := [Opened(1), CloseSeen(1, []), RegisterDone(1, side, meta, now, [])];
            && ClosedIn(Run(acts, maxInbound), 1)
            && HeldBy(Holders(Run(acts, maxInbound).value.reg), side, 1)
  {
    var open, shut, register := Opened(1), CloseSeen(1, []), RegisterDone(1, side, meta, now, []);
    var w1 := Perform(NOTHING, open, maxInbound);
    var w2 := Perform(w1, shut, maxInbound);
    RunSnoc([], open, NOTHING, maxInbound);
    RunSnoc([open], shut, w1, maxInbound);
    RunSnoc([open, shut], register, w2, maxInbound);
    assert [] + [open] == [open] && [open] + [shut] == [open, shut];
    assert [open, shut] + [register] == [open, shut, register];
    OneSlotPerSocket([open, shut], maxInbound);
    PerformHolders(w2, register, maxInbound);
  }
}
