/**
 * The life of one session as its messages and hooks tell it, over whole runs of the registry, and where relayed
 * signals come from.
 */
module RegistryLifecycle {
  import opened Base
  import opened Registry
  import opened RegistryInvariant

  // ----------------------------------------------------------- the automaton

  /** How far a session id has got, judged by the log alone. */
  datatype Phase =
    | Unborn
    | Live(controller: Side, host: Side, asked: bool, started: bool, offered: bool, answered: bool)
    | Gone(controller: Side, host: Side, who: Side, started: bool, ended: bool, told: set<Side>)
    | Broken

  /**
   * One event in the life of session `sid`; an event out of turn breaks it. In turn are: the request to the host; the
   * start hook, once; then the offerer's and the answerer's `connect_ready`, each once and to its own side; signals from
   * one side to the other while the session lives; the removal, by one of the sides; then the end hook, once, if there
   * was a start; then one `session_close` to each side other than the one that ended the session.
   */
  function Next(p: Phase, sid: SessionId, e: Event): Phase {
    match e
    case Created(x, c, h) =>
      if x != sid then p else if p.Unborn? then Live(c, Side(h, Host), false, false, false, false) else Broken
    case StartHook(x, c, h) =>
      if x != sid then p
      else if p.Live? && p.asked && !p.started && c == p.controller.id && h == p.host.id then
        Live(p.controller, p.host, true, true, p.offered, p.answered)
      else Broken
    case Removed(x, who) =>
      if x != sid then p
      else if p.Live? && p.asked && (who == p.controller || who == p.host) then
        Gone(p.controller, p.host, who, p.started, false, {})
      else Broken
    case EndHook(x, c, h) =>
      if x != sid then p
      else if p.Gone? && p.started && !p.ended && p.told == {} && c == p.controller.id && h == p.host.id then
        p.(ended := true)
      else Broken
    case Closed(_) => p
    case Sent(to, _, m) => NextMessage(p, sid, to, m)
  }

  function NextMessage(p: Phase, sid: SessionId, to: Side, m: Message): Phase {
    match m
    case IncomingRequest(x, _, ice) =>
      if x != sid then p
      else if p.Live? && !p.asked && to == p.host && ice == p.host.id then p.(asked := true)
      else Broken
    case ConnectReady(x, Offerer, ice) =>
      if x != sid then p
      else if p.Live? && p.started && !p.offered && !p.answered && to == p.host && ice == p.host.id then p.(offered := true)
      else Broken
    case ConnectReady(x, Answerer, ice) =>
      if x != sid then p
      else if p.Live? && p.started && !p.answered && to == p.controller && ice == p.controller.id then p.(answered := true)
      else Broken
    case Signal(x, _, _) =>
      if x != sid then p
      else if p.Live? && p.asked && (to == p.controller || to == p.host) then p
      else Broken
    case SessionClose(x, _) =>
      if x != sid then p
      else if p.Gone? && to != p.who && (to == p.controller || to == p.host) && to !in p.told
              && (p.started ==> p.ended) then p.(told := p.told + {to})
      else Broken
    case _ => p
  }

  function PhaseOf(log: seq<Event>, sid: SessionId): Phase {
    if log == [] then Unborn else Next(PhaseOf(log[..|log| - 1], sid), sid, log[|log| - 1])
  }

  lemma PhaseSnoc(log: seq<Event>, e: Event, sid: SessionId)
    ensures PhaseOf(log + [e], sid) == Next(PhaseOf(log, sid), sid, e)
  {
    assert (log + [e])[..|log|] == log;
  }

  /** An event that concerns another id, or none, changes nothing. */
  predicate Foreign(e: Event, sid: SessionId) {
    match e
    case Created(x, _, _) => x != sid
    case StartHook(x, _, _) => x != sid
    case Removed(x, _) => x != sid
    case EndHook(x, _, _) => x != sid
    case Closed(_) => true
    case Sent(_, _, m) =>
      match m
      case IncomingRequest(x, _, _) => x != sid
      case ConnectReady(x, _, _) => x != sid
      case Signal(x, _, _) => x != sid
      case SessionClose(x, _) => x != sid
      case _ => true
  }

  /** The phase that the session table calls for. */
  ghost predicate Matches(st: State, sid: SessionId) {
    var p := PhaseOf(st.log, sid);
    if sid in st.sessions then
      var s := st.sessions[sid];
      p.Live? && p.controller == s.controller && p.host == HostSide(s) && p.asked && p.started == s.ready
        && (!s.ready ==> !p.offered && !p.answered)
    else
      p.Unborn? || (p.Gone? && p.started == p.ended)
  }

  ghost predicate LifeInv(st: State) {
    forall sid :: Matches(st, sid)
  }

  lemma {:induction false} UnbornIsFresh(log: seq<Event>, sid: SessionId)
    requires FreshId(log, sid)
    ensures PhaseOf(log, sid) == Unborn || PhaseOf(log, sid) == Broken
  {
    if log != [] {
      var n := |log| - 1;
      assert !(log[n].Created? && log[n].sid == sid);
      UnbornIsFresh(log[..n], sid);
    }
  }

  // ------------------------------------------------------------------- steps

  /** The phase of a session after one of its sides was dismissed. */
  lemma DismissPhase(st: State, side: Side, sid: SessionId, reason: string, who: Side, x: SessionId)
    requires var p := PhaseOf(st.log, sid);
             p.Gone? && p.who == who && (side == p.controller || side == p.host) && side !in p.told && p.started == p.ended
    ensures var st1 := Dismiss(st, side, sid, reason, who);
            var p := PhaseOf(st.log, sid);
            && (x != sid ==> PhaseOf(st1.log, x) == PhaseOf(st.log, x))
            && (PhaseOf(st1.log, sid) == p || PhaseOf(st1.log, sid) == p.(told := p.told + {side}))
            && (side == who ==> PhaseOf(st1.log, sid) == p)
  {
    var st0 := DropFrom(st, side, sid);
    if side != who && side in st0.slots {
      PhaseSnoc(st.log, Sent(side, st0.slots[side].conn, SessionClose(sid, reason)), sid);
      PhaseSnoc(st.log, Sent(side, st0.slots[side].conn, SessionClose(sid, reason)), x);
    }
  }

  /** The first half of a teardown: the session leaves the table and the end hook fires if it had started. */
  function Struck(st: State, sid: SessionId, who: Side): State
    requires sid in st.sessions
  {
    var s := st.sessions[sid];
    var st1 := Note(st.(sessions := st.sessions - {sid}), Removed(sid, who));
    if s.ready then Note(st1, EndHook(sid, s.controller.id, s.hostId)) else st1
  }

  lemma StruckPhase(st: State, sid: SessionId, who: Side, x: SessionId)
    requires sid in st.sessions && Matches(st, sid) && IsSide(st.sessions[sid], who)
    ensures var log1, s := Struck(st, sid, who).log, st.sessions[sid];
            && (x != sid ==> PhaseOf(log1, x) == PhaseOf(st.log, x))
            && PhaseOf(log1, sid) == Gone(s.controller, HostSide(s), who, s.ready, s.ready, {})
  {
    var s := st.sessions[sid];
    var removed, end := Removed(sid, who), EndHook(sid, s.controller.id, s.hostId);
    PhaseSnoc(st.log, removed, sid);
    PhaseSnoc(st.log, removed, x);
    PhaseSnoc(st.log + [removed], end, sid);
    PhaseSnoc(st.log + [removed], end, x);
  }

  /** A teardown of a live session by one of its sides ends its life in good order and touches no other. */
  lemma TeardownPhase(st: State, sid: SessionId, reason: string, who: Side, x: SessionId)
    requires sid in st.sessions && Matches(st, sid) && IsSide(st.sessions[sid], who)
    ensures var st1 := Teardown(st, sid, reason, who);
            && (x != sid ==> PhaseOf(st1.log, x) == PhaseOf(st.log, x))
            && PhaseOf(st1.log, sid).Gone?
            && PhaseOf(st1.log, sid).started == PhaseOf(st1.log, sid).ended == st.sessions[sid].ready
  {
    var s := st.sessions[sid];
    StruckPhase(st, sid, who, x);
    var st2 := Struck(st, sid, who);
    DismissPhase(st2, s.controller, sid, reason, who, x);
    DismissPhase(Dismiss(st2, s.controller, sid, reason, who), HostSide(s), sid, reason, who, x);
  }

  lemma TeardownLife(st: State, sid: SessionId, reason: string, who: Side)
    requires LifeInv(st) && (sid in st.sessions ==> IsSide(st.sessions[sid], who))
    ensures LifeInv(Teardown(st, sid, reason, who))
  {
    if sid in st.sessions {
      var st1 := Teardown(st, sid, reason, who);
      var _ := TeardownShape(st, sid, reason, who);
      forall x ensures Matches(st1, x) {
        assert Matches(st, x) && Matches(st, sid);
        TeardownPhase(st, sid, reason, who, x);
      }
    }
  }

  lemma {:induction false} TeardownAllLife(st: State, sids: seq<SessionId>, reason: string, who: Side)
    requires LifeInv(st) && forall sid :: sid in sids && sid in st.sessions ==> IsSide(st.sessions[sid], who)
    ensures LifeInv(TeardownAll(st, sids, reason, who))
  {
    if sids != [] {
      var n := |sids| - 1;
      TeardownAllLife(st, sids[..n], reason, who);
      TeardownAllShrinks(st, sids[..n], reason, who);
      TeardownLife(TeardownAll(st, sids[..n], reason, who), sids[n], reason, who);
    }
  }

  lemma RequestLife(st: State, caller: Side, target: DeviceId, pk: Option<string>, sid: SessionId, maxInbound: nat)
    requires LifeInv(st) && FreshId(st.log, sid)
    ensures LifeInv(Request(st, caller, target, pk, sid, maxInbound).0)
  {
    var (st1, r) := Request(st, caller, target, pk, sid, maxInbound);
    var host := Side(target, Host);
    if r.Connected? {
      assert Matches(st, sid);
      UnbornIsFresh(st.log, sid);
      var made, ask := Created(sid, caller, target), Sent(host, st.slots[host].conn, IncomingRequest(sid, pk, target));
      assert st1.log == st.log + [made] + [ask];
      forall x ensures Matches(st1, x) {
        assert Matches(st, x);
        PhaseSnoc(st.log, made, x);
        PhaseSnoc(st.log + [made], ask, x);
      }
    }
  }

  lemma SendPhase(st: State, to: Side, m: Message, x: SessionId)
    ensures PhaseOf(Send(st, to, m).log, x)
            == if to in st.slots then NextMessage(PhaseOf(st.log, x), x, to, m) else PhaseOf(st.log, x)
  {
    if to in st.slots {
      PhaseSnoc(st.log, Sent(to, st.slots[to].conn, m), x);
    }
  }

  /** How accepting moves the phases: that of the session through start and the messages its slots allow, no other. */
  lemma AcceptPhase(st: State, sid: SessionId, who: Side, x: SessionId)
    requires MayAccept(st, sid, who) && Matches(st, sid)
    ensures var st1, p := Accept(st, sid, who).0, PhaseOf(st.log, sid);
            && (x != sid ==> PhaseOf(st1.log, x) == PhaseOf(st.log, x))
            && PhaseOf(st1.log, sid) == Live(p.controller, p.host, true, true, p.host in st.slots, p.controller in st.slots)
  {
    var s := st.sessions[sid];
    var start := StartHook(sid, s.controller.id, s.hostId);
    var st1 := Note(st.(sessions := st.sessions[sid := s.(ready := true)]), start);
    var offer, answer := ConnectReady(sid, Offerer, s.hostId), ConnectReady(sid, Answerer, s.controller.id);
    PhaseSnoc(st.log, start, x);
    PhaseSnoc(st.log, start, sid);
    SendPhase(st1, HostSide(s), offer, x);
    SendPhase(st1, HostSide(s), offer, sid);
    SendPhase(Send(st1, HostSide(s), offer), s.controller, answer, x);
    SendPhase(Send(st1, HostSide(s), offer), s.controller, answer, sid);
  }

  lemma AcceptLife(st: State, sid: SessionId, who: Side)
    requires LifeInv(st)
    ensures LifeInv(Accept(st, sid, who).0)
  {
    if MayAccept(st, sid, who) {
      var st1 := Accept(st, sid, who).0;
      assert st1.sessions == st.sessions[sid := st.sessions[sid].(ready := true)];
      forall x ensures Matches(st1, x) {
        assert Matches(st, x) && Matches(st, sid);
        AcceptPhase(st, sid, who, x);
      }
    }
  }

  lemma StepLife(st: State, op: Op, maxInbound: nat)
    requires Inv(st, false) && LifeInv(st) && Proper(st, op)
    ensures LifeInv(Step(st, op, maxInbound))
  {
    var st1 := Step(st, op, maxInbound);
    match op
    case GoOnline(side, conn, meta, now) =>
      forall x ensures Matches(st1, x) {
        assert Matches(st, x);
        if side in st.slots {
          PhaseSnoc(st.log, Closed(st.slots[side].conn), x);
        }
      }
    case GoOffline(side, held, order) =>
      if Leaves(st, side, held) {
        var gone := st.(slots := st.slots - {side});
        forall x ensures Matches(gone, x) {
          assert Matches(st, x);
        }
        forall sid | sid in order && sid in gone.sessions ensures IsSide(gone.sessions[sid], side) {
          assert Holds(st, side, sid);
        }
        TeardownAllLife(gone, order, "peer_offline", side);
      }
    case RequestConnect(caller, target, pk, sid) => RequestLife(st, caller, target, pk, sid, maxInbound);
    case AcceptConnect(sid, who) => AcceptLife(st, sid, who);
    case RejectConnect(sid, who, reason) =>
      if sid in st.sessions && who == HostSide(st.sessions[sid]) {
        var told := Send(st, st.sessions[sid].controller, ConnectErrForbidden);
        forall x ensures Matches(told, x) {
          assert Matches(st, x);
          SendPhase(st, st.sessions[sid].controller, ConnectErrForbidden, x);
        }
        TeardownLife(told, sid, if reason.Some? then reason.value else "rejected", who);
      }
    case RelaySignal(sid, from, kind, payload) =>
      if PeerPresent(st, sid, from) {
        forall x ensures Matches(st1, x) {
          assert Matches(st, x) && Matches(st, sid);
          SendPhase(st, PeerOf(st.sessions[sid], from), Signal(sid, kind, payload), x);
        }
      }
    case CloseSession(sid, reason, who) =>
      if PeerPresent(st, sid, who) {
        TeardownLife(st, sid, if reason.Some? then reason.value else "closed", who);
      }
  }

  /** In every reachable state every session id that ever occurred has lived, or lives, in good order. */
  lemma {:induction false} LifeInGoodOrder(ops: seq<Op>, maxInbound: nat)
    requires ProperRun(ops, maxInbound)
    ensures LifeInv(Run(ops, maxInbound))
  {
    if ops != [] {
      var init := ops[..|ops| - 1];
      LifeInGoodOrder(init, maxInbound);
      RunAgrees(init, maxInbound, false);
      StepLife(Run(init, maxInbound), ops[|ops| - 1], maxInbound);
    }
  }

  // ------------------------------------------------------------------ counts

  /** The kinds of event to be counted. */
  datatype Which = Ask | Start | Finish | ReadyAs(role: Role) | CloseTo(side: Side)

  predicate Is(w: Which, sid: SessionId, e: Event) {
    match w
    case Ask => e.Sent? && e.msg.IncomingRequest? && e.msg.sid == sid
    case Start => e.StartHook? && e.sid == sid
    case Finish => e.EndHook? && e.sid == sid
    case ReadyAs(role) => e.Sent? && e.msg.ConnectReady? && e.msg.sid == sid && e.msg.role == role
    case CloseTo(side) => e.Sent? && e.to == side && e.msg.SessionClose? && e.msg.sid == sid
  }

  function Count(log: seq<Event>, w: Which, sid: SessionId): nat {
    if log == [] then 0
    else
      var n := Count(log[..|log| - 1], w, sid);
      if Is(w, sid, log[|log| - 1]) then n + 1 else n
  }

  /** How many events of a kind a phase stands for. */
  function Due(p: Phase, w: Which): nat {
    match (p, w)
    case (Live(_, _, asked, _, _, _), Ask) => if asked then 1 else 0
    case (Live(_, _, _, started, _, _), Start) => if started then 1 else 0
    case (Live(_, _, _, _, offered, _), ReadyAs(Offerer)) => if offered then 1 else 0
    case (Live(_, _, _, _, _, answered), ReadyAs(Answerer)) => if answered then 1 else 0
    case (Gone(_, _, _, _, _, _), Ask) => 1
    case (Gone(_, _, _, started, _, _), Start) => if started then 1 else 0
    case (Gone(_, _, _, _, ended, _), Finish) => if ended then 1 else 0
    case (Gone(_, _, _, _, _, _), ReadyAs(_)) => 1
    case (Gone(_, _, _, _, _, told), CloseTo(side)) => if side in told then 1 else 0
    case _ => 0
  }

  /** A log in which no event of `sid` is out of turn has them in the numbers its phase shows. */
  lemma {:induction false} PhaseCounts(log: seq<Event>, sid: SessionId, w: Which)
    requires !PhaseOf(log, sid).Broken?
    ensures var p := PhaseOf(log, sid);
            if p.Gone? && w.ReadyAs? then Count(log, w, sid) <= 1 else Count(log, w, sid) == Due(p, w)
  {
    if log != [] {
      PhaseCounts(log[..|log| - 1], sid, w);
    }
  }

  /**
   * Session lifecycle: in every reachable state an id that has lived got exactly one request to its host, at most one
   * `connect_ready` per role and at most one `session_close` per side; its start hook fired exactly once if it became
   * ready and never otherwise; its end hook fired exactly once if it had started and is over; and the ids started but
   * not ended are exactly the ready sessions.
   */
  lemma Lifecycle(ops: seq<Op>, maxInbound: nat, sid: SessionId, side: Side)
    requires ProperRun(ops, maxInbound)
    ensures var st := Run(ops, maxInbound);
            && Count(st.log, Ask, sid) == (if FreshId(st.log, sid) then 0 else 1)
            && Count(st.log, Finish, sid) <= Count(st.log, Start, sid) <= 1
            && (Count(st.log, Start, sid) == 1 && Count(st.log, Finish, sid) == 0
                <==> sid in st.sessions && st.sessions[sid].ready)
            && (sid !in st.sessions ==> Count(st.log, Start, sid) == Count(st.log, Finish, sid))
            && Count(st.log, ReadyAs(Offerer), sid) <= 1 && Count(st.log, ReadyAs(Answerer), sid) <= 1
            && Count(st.log, CloseTo(side), sid) <= if sid in st.sessions then 0 else 1
  {
    LifeInGoodOrder(ops, maxInbound);
    var st := Run(ops, maxInbound);
    assert Matches(st, sid);
    PhaseCounts(st.log, sid, Ask);
    PhaseCounts(st.log, sid, Start);
    PhaseCounts(st.log, sid, Finish);
    PhaseCounts(st.log, sid, ReadyAs(Offerer));
    PhaseCounts(st.log, sid, ReadyAs(Answerer));
    PhaseCounts(st.log, sid, CloseTo(side));
    if FreshId(st.log, sid) {
      UnbornIsFresh(st.log, sid);
    } else {
      BornIfCreated(st.log, sid);
    }
  }

  lemma {:induction false} BornIfCreated(log: seq<Event>, sid: SessionId)
    requires !FreshId(log, sid)
    ensures !PhaseOf(log, sid).Unborn?
  {
    var n := |log| - 1;
    if !(log[n].Created? && log[n].sid == sid) {
      var k :| 0 <= k < |log| && log[k].Created? && log[k].sid == sid;
      assert log[..n][k] == log[k];
      BornIfCreated(log[..n], sid);
    }
  }

  /** In every run a session causes nothing after its removal but its end hook and its closing messages. */
  lemma SilentAfterRemoval(ops: seq<Op>, maxInbound: nat, sid: SessionId, i: nat, k: nat)
    requires ProperRun(ops, maxInbound)
    requires var log := Run(ops, maxInbound).log; i < k < |log| && log[i].Removed? && log[i].sid == sid
    ensures var e := Run(ops, maxInbound).log[k];
            Foreign(e, sid) || (e.EndHook? && e.sid == sid) || (e.Sent? && e.msg.SessionClose? && e.msg.sid == sid)
  {
    LifeInGoodOrder(ops, maxInbound);
    assert Matches(Run(ops, maxInbound), sid);
    SilentInLog(Run(ops, maxInbound).log, sid, i, k);
  }

  lemma {:induction false} SilentInLog(log: seq<Event>, sid: SessionId, i: nat, k: nat)
    requires i < k < |log| && log[i].Removed? && log[i].sid == sid && !PhaseOf(log, sid).Broken?
    ensures Foreign(log[k], sid) || (log[k].EndHook? && log[k].sid == sid)
            || (log[k].Sent? && log[k].msg.SessionClose? && log[k].msg.sid == sid)
  {
    var n := |log| - 1;
    if k < n {
      SilentInLog(log[..n], sid, i, k);
    } else {
      GoneAfterRemoval(log[..n], sid, i);
    }
  }

  lemma {:induction false} GoneAfterRemoval(log: seq<Event>, sid: SessionId, i: nat)
    requires i < |log| && log[i].Removed? && log[i].sid == sid
    ensures PhaseOf(log, sid).Gone? || PhaseOf(log, sid).Broken?
  {
    var n := |log| - 1;
    if i < n {
      GoneAfterRemoval(log[..n], sid, i);
    }
  }

  // -------------------------------------------------------- relay confinement

  predicate IsSignal(e: Event) { e.Sent? && e.msg.Signal? }

  /** The event is the relaying, by this operation in this state, of exactly what the other member sent. */
  predicate RelayedBy(st: State, op: Op, e: Event)
    requires IsSignal(e)
  {
    && op.RelaySignal? && op.sid == e.msg.sid && op.kind == e.msg.kind && op.payload == e.msg.payload
    && op.sid in st.sessions
    && var s := st.sessions[op.sid];
       && ((op.from == s.controller && e.to == HostSide(s)) || (op.from == HostSide(s) && e.to == s.controller))
       && (op.from == e.to <==> s.controller == HostSide(s))
       && e.to in st.slots && e.conn == st.slots[e.to].conn
  }

  lemma {:induction false} TeardownAllSilent(st: State, sids: seq<SessionId>, reason: string, who: Side, k: nat)
    requires |st.log| <= k < |TeardownAll(st, sids, reason, who).log|
    ensures !IsSignal(TeardownAll(st, sids, reason, who).log[k])
    ensures st.log <= TeardownAll(st, sids, reason, who).log
  {
    var n := |sids| - 1;
    var mid := TeardownAll(st, sids[..n], reason, who);
    TeardownAllExtends(st, sids[..n], reason, who);
    TeardownAllExtends(st, sids, reason, who);
    if k < |mid.log| {
      TeardownAllSilent(st, sids[..n], reason, who, k);
      TeardownSilent(mid, sids[n], reason, who);
    } else {
      TeardownSilent(mid, sids[n], reason, who);
    }
  }

  lemma {:induction false} TeardownAllExtends(st: State, sids: seq<SessionId>, reason: string, who: Side)
    ensures st.log <= TeardownAll(st, sids, reason, who).log
  {
    if sids != [] {
      TeardownAllExtends(st, sids[..|sids| - 1], reason, who);
      TeardownSilent(TeardownAll(st, sids[..|sids| - 1], reason, who), sids[|sids| - 1], reason, who);
    }
  }

  /** `later` adds to `log` nothing that is a signal. */
  ghost predicate Silent(log: seq<Event>, later: seq<Event>) {
    log <= later && forall k :: |log| <= k < |later| ==> !IsSignal(later[k])
  }

  lemma DismissSilent(st: State, side: Side, sid: SessionId, reason: string, who: Side)
    ensures Silent(st.log, Dismiss(st, side, sid, reason, who).log)
  {
  }

  lemma TeardownSilent(st: State, sid: SessionId, reason: string, who: Side)
    ensures Silent(st.log, Teardown(st, sid, reason, who).log)
  {
    if sid in st.sessions {
      var s, st2 := st.sessions[sid], Struck(st, sid, who);
      DismissSilent(st2, s.controller, sid, reason, who);
      DismissSilent(Dismiss(st2, s.controller, sid, reason, who), HostSide(s), sid, reason, who);
    }
  }

  /** What a step adds to the log: its signals are those it relays. */
  lemma StepSignals(st: State, op: Op, maxInbound: nat, k: nat)
    requires |st.log| <= k < |Step(st, op, maxInbound).log| && IsSignal(Step(st, op, maxInbound).log[k])
    ensures RelayedBy(st, op, Step(st, op, maxInbound).log[k])
  {
    match op
    case GoOffline(side, held, order) =>
      if Leaves(st, side, held) {
        TeardownAllSilent(st.(slots := st.slots - {side}), order, "peer_offline", side, k);
      }
    case RejectConnect(sid, who, reason) =>
      if sid in st.sessions && who == HostSide(st.sessions[sid]) {
        TeardownSilent(Send(st, st.sessions[sid].controller, ConnectErrForbidden), sid,
                       if reason.Some? then reason.value else "rejected", who);
      }
    case CloseSession(sid, reason, who) =>
      TeardownSilent(st, sid, if reason.Some? then reason.value else "closed", who);
    case _ =>
  }

  lemma StepExtends(st: State, op: Op, maxInbound: nat)
    ensures st.log <= Step(st, op, maxInbound).log
  {
    match op
    case GoOffline(side, held, order) =>
      if Leaves(st, side, held) {
        TeardownAllExtends(st.(slots := st.slots - {side}), order, "peer_offline", side);
      }
    case RejectConnect(sid, who, reason) =>
      if sid in st.sessions && who == HostSide(st.sessions[sid]) {
        TeardownSilent(Send(st, st.sessions[sid].controller, ConnectErrForbidden), sid,
                       if reason.Some? then reason.value else "rejected", who);
      }
    case CloseSession(sid, reason, who) =>
      TeardownSilent(st, sid, if reason.Some? then reason.value else "closed", who);
    case _ =>
  }

  /**
   * Relay confinement: every signal ever delivered is, unchanged, what the other member of that same session sent in
   * the very operation that delivered it. It comes back to its sender only when both sides of the session are one slot.
   */
  lemma {:induction false} SignalsAreConfined(ops: seq<Op>, maxInbound: nat, k: nat) returns (i: nat)
    requires k < |Run(ops, maxInbound).log| && IsSignal(Run(ops, maxInbound).log[k])
    ensures i < |ops| && RelayedBy(Run(ops[..i], maxInbound), ops[i], Run(ops, maxInbound).log[k])
  {
    var n := |ops| - 1;
    var prev := Run(ops[..n], maxInbound);
    StepExtends(prev, ops[n], maxInbound);
    if k < |prev.log| {
      i := SignalsAreConfined(ops[..n], maxInbound, k);
      assert ops[..n][..i] == ops[..i];
    } else {
      i := n;
      StepSignals(prev, ops[n], maxInbound, k);
    }
  }
}
