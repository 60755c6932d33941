/**
 * The host loop: one signalling socket, one request at a time. Everything outside the loop (the socket, the stop and
 * deadline checks, the person who confirms, the session thread) is an environment that answers as it likes and keeps the
 * log of what happens; the loop is proved to keep it to the rules of HostLog.
 */
module HostLoop {
  import opened Base
  import opened HostLog

  // --------------------------------------------------------- the environment

  datatype Received = GotRequest(request: Request) | GotReady(sid: string) | GotAnswer | GotIce | GotOther | SocketError

  function Heard(m: Monitor, r: Received): Monitor {
    if r.GotRequest? then Watch(m, Consumed(r.request.tag, OneTime(r.request)))
    else if r.GotReady? then Watch(m, ReadyRead(r.sid))
    else if r.SocketError? then Watch(m, Broke)
    else m
  }

  /**
   * Answers are arbitrary as long as `budget` lasts; after that the flags are set, the socket fails and nothing more
   * arrives, so that every finite part of a run is part of a run of this environment.
   */
  class Environment {
    var budget: nat
    var received: nat
    var codes: nat
    ghost var log: seq<Event>
    ghost var seen: Monitor

    ghost predicate Valid() reads this {
      && Approved(log) && seen == At(log, |log|) && received == seen.count && codes == seen.code
      && (forall c :: c in seen.burned ==> c <= codes)
    }

    constructor (budget: nat)
      ensures Valid() && log == [] && seen == FRESH && this.budget == budget
    {
      this.budget, received, codes, log, seen := budget, 0, 0, [], FRESH;
    }

    ghost method Record(e: Event)
      requires Approved(log) && seen == At(log, |log|) && InOrder(seen, e)
      modifies this`log, this`seen
      ensures Approved(log) && log == old(log) + [e] && seen == Watch(old(seen), e) == At(log, |log|)
    {
      ApprovedExtends(log, e);
      log, seen := log + [e], Watch(seen, e);
    }

    /** A flag or deadline, read once. */
    method Poll() returns (b: bool)
      requires Valid()
      modifies this`budget
      ensures Valid() && log == old(log) && seen == old(seen)
      ensures if old(budget) == 0 then b && budget == 0 else budget == old(budget) - 1
    {
      if budget == 0 {
        return true;
      }
      budget := budget - 1;
      b := *;
    }

    method Stop() returns (b: bool)
      requires Valid()
      modifies this
      ensures Valid() && seen == if b then Watch(old(seen), StopSeen) else old(seen)
      ensures if old(budget) == 0 then b && budget == 0 else budget == old(budget) - 1
    {
      b := Poll();
      if b {
        Record(StopSeen);
      }
    }

    /** Whether a deadline has passed. */
    method Deadline() returns (b: bool)
      requires Valid() && seen.serving == None
      modifies this
      ensures Valid() && seen == if b then Watch(old(seen), Expired) else old(seen)
      ensures if old(budget) == 0 then b && budget == 0 else budget == old(budget) - 1
    {
      b := Poll();
      if b {
        Record(Expired);
      }
    }

    /** A step of setting up a session, if it can be taken. */
    method Attempt(step: SetupStep, can: bool) returns (b: bool)
      requires Valid() && seen.serving == None
      modifies this
      ensures Valid() && seen == Watch(old(seen), if b then StepDone(step) else StepFailed)
      ensures budget <= old(budget) && (b ==> can)
    {
      b := Poll();
      b := b && can;
      Record(if b then StepDone(step) else StepFailed);
    }

    /** Candidates were read and are used, or those that cannot be are passed over. */
    ghost method UseCandidates()
      requires Valid()
      modifies this`log, this`seen
      ensures Valid() && seen == Watch(old(seen), StepDone(CandidatesRead))
    {
      Record(StepDone(CandidatesRead));
    }

    /** Write an offer or candidates. */
    method WriteSignal(step: SetupStep) returns (ok: bool)
      requires Valid()
      modifies this
      ensures Valid() && budget == old(budget) && seen == Watch(old(seen), if ok then StepDone(step) else Broke)
    {
      ok := *;
      Record(if ok then StepDone(step) else Broke);
    }

    /** Whether a new code is wanted. */
    method Rotate() returns (b: bool)
      requires Valid()
      modifies this
      ensures Valid() && seen == if b then Watch(old(seen), RotateSeen) else old(seen)
      ensures budget <= old(budget)
    {
      b := Poll();
      if b {
        Record(RotateSeen);
      }
    }

    method Connect() returns (up: bool)
      requires Valid() && InOrder(seen, Connected)
      modifies this
      ensures Valid() && budget == old(budget) && seen == if up then Watch(old(seen), Connected) else old(seen)
    {
      up := *;
      if up {
        Record(Connected);
      }
    }

    method Receive() returns (r: Received)
      requires Valid() && |seen.unanswered| <= 1 && !seen.broke
      modifies this
      ensures Valid() && budget <= old(budget) && (old(budget) == 0 ==> r.SocketError?)
      ensures r.GotRequest? ==> r.request.tag == old(seen).count
      ensures seen == Heard(old(seen), r)
    {
      r := *;
      if budget == 0 {
        r := SocketError;
      }
      if r.GotRequest? {
        r := GotRequest(r.request.(tag := received));
        Record(Consumed(received, OneTime(r.request)));
        received := received + 1;
      } else if r.GotReady? {
        Record(ReadyRead(r.sid));
      } else if r.SocketError? {
        Record(Broke);
      }
    }

    /** Write something other than an answer. */
    method Write() returns (ok: bool)
      requires Valid()
      modifies this
      ensures Valid() && budget == old(budget) && seen == old(seen).(broke := old(seen).broke || !ok)
    {
      ok := *;
      if !ok {
        Record(Broke);
      }
    }

    method Reject(tag: nat, why: Reason) returns (ok: bool)
      requires Valid() && InOrder(seen, Rejected(tag, why))
      modifies this
      ensures Valid() && budget == old(budget)
      ensures seen == old(seen).(unanswered := old(seen).unanswered - {tag}, broke := old(seen).broke || !ok,
                                 refused := if why.WhenNoPermanent? then old(seen).refused + {tag} else old(seen).refused)
    {
      Record(Rejected(tag, why));
      ok := Write();
    }

    method Accept(tag: nat, sid: string, code: Option<nat>) returns (ok: bool)
      requires Valid() && InOrder(seen, Accepted(tag, sid, code))
      modifies this
      ensures Valid() && budget == old(budget)
      ensures var m := Watch(old(seen), Accepted(tag, sid, code)); seen == m.(broke := m.broke || !ok)
    {
      Record(Accepted(tag, sid, code));
      ok := Write();
    }

    method ConfirmSwitch(tag: nat) returns (on: bool)
      requires Valid()
      modifies this
      ensures Valid() && budget == old(budget) && seen == Watch(old(seen), Attended(tag, on))
    {
      on := *;
      Record(Attended(tag, on));
    }

    method Ask(rid: nat, tag: nat)
      requires Valid() && rid > seen.lastRid && seen.drained
      modifies this
      ensures Valid() && budget == old(budget) && seen == Watch(old(seen), Minted(rid, tag))
    {
      Record(Minted(rid, tag));
    }

    method Decision() returns (d: Option<(nat, bool)>)
      requires Valid()
      modifies this
      ensures Valid() && (if old(budget) == 0 then d.None? && budget == 0 else budget == old(budget) - 1)
      ensures seen == Watch(old(seen), if d.Some? then Decided(d.value.0, d.value.1) else NoDecision)
    {
      d := None;
      if budget > 0 {
        budget := budget - 1;
        d := *;
      }
      Record(if d.Some? then Decided(d.value.0, d.value.1) else NoDecision);
    }

    /** Whether the session thread has left its media loop. */
    method Done() returns (b: bool)
      requires Valid() && seen.serving.Some?
      modifies this
      ensures Valid() && seen == if b then Watch(old(seen), DoneSeen) else old(seen)
      ensures if old(budget) == 0 then b && budget == 0 else budget == old(budget) - 1
    {
      b := Poll();
      if b {
        Record(DoneSeen);
      }
    }

    method GiveUp()
      requires Valid() && InOrder(seen, GaveUp)
      modifies this
      ensures Valid() && budget == old(budget) && seen == Watch(old(seen), GaveUp)
    {
      Record(GaveUp);
    }

    method StartSession(tag: nat, sid: string)
      requires Valid() && InOrder(seen, Started(tag, sid))
      modifies this
      ensures Valid() && budget == old(budget)
      ensures seen == old(seen).(serving := Some(tag))
    {
      Record(Started(tag, sid));
    }

    method JoinSession(tag: nat, code: Option<nat>)
      requires Valid() && InOrder(seen, Ended(tag, code))
      modifies this
      ensures Valid() && budget == old(budget)
      ensures seen == old(seen).(serving := None, accepted := None,
                                 burned := if code.Some? && !old(seen).broke then old(seen).burned + {code.value}
                                           else old(seen).burned)
    {
      Record(Ended(tag, code));
    }

    /** A new one-time code; codes are numbered, so that a new one is new. */
    method GenerateCode() returns (code: nat)
      requires Valid() && (seen.code == 0 || seen.rotate || seen.code in seen.burned)
      modifies this
      ensures Valid() && budget == old(budget) && seen == Watch(old(seen), NewCode(code)) && code == old(codes) + 1
    {
      codes := codes + 1;
      code := codes;
      Record(NewCode(code));
    }
  }

  // ------------------------------------------------------------------ the loop

  datatype Verdict = Allowed | Denied | NoSocket

  datatype Served = Finished(tail: Option<Request>) | SessionFailed | SocketFailed

  function Tags(r: Option<Request>): map<nat, bool> {
    if r.Some? then map[r.value.tag := OneTime(r.value)] else map[]
  }

  /** The loop is in order, holds exactly the given requests unanswered, serves no session and owes no new code. */
  ghost predicate Holding(m: Monitor, waiting: map<nat, bool>) {
    m.unanswered == waiting && m.serving == None && !m.rotate && forall t :: t in waiting ==> t < m.count
  }

  /** Neither the codes, nor the last accept's, nor the requests refused, nor the last question id have changed. */
  ghost predicate Steady(m0: Monitor, m1: Monitor) {
    && m1.lastRid == m0.lastRid && m1.code == m0.code && m1.burned == m0.burned && m1.rotate == m0.rotate
    && m1.used == m0.used && m1.refused == m0.refused
  }

  /** Turn down another request with "busy", keeping those that wait. */
  method Busy(env: Environment, other: Request, ghost waiting: map<nat, bool>) returns (ok: bool)
    requires env.Valid() && env.seen.unanswered == waiting[other.tag := OneTime(other)] && other.tag !in waiting
    requires env.seen.accepted.Some? || waiting != map[]
    modifies env
    ensures env.Valid() && env.budget == old(env.budget)
    ensures env.seen == old(env.seen).(unanswered := waiting, broke := old(env.seen).broke || !ok)
  {
    assert env.seen.unanswered.Keys == waiting.Keys + {other.tag};
    assert env.seen.unanswered - {other.tag} == waiting;
    ok := env.Reject(other.tag, WhenBusy);
  }

  /** The host is stopping or the deadline has passed. */
  method OutOfTime(env: Environment) returns (b: bool)
    requires env.Valid() && env.seen.serving == None
    modifies env
    ensures env.Valid() && env.budget <= old(env.budget) && (!b ==> env.budget < old(env.budget))
    ensures env.seen ==
            if b then old(env.seen).(stopped := env.seen.stopped, excuse := true, denial := true) else old(env.seen)
  {
    b := env.Stop();
    if !b {
      b := env.Deadline();
    }
  }

  /** Read a message while a request is in hand or accepted; other requests are answered "busy". */
  method Listen(env: Environment) returns (r: Received, socket: bool)
    requires env.Valid() && Holding(env.seen, env.seen.unanswered) && |env.seen.unanswered| <= 1 && !env.seen.broke
    requires env.seen.accepted.Some? || env.seen.unanswered != map[]
    modifies env
    ensures env.Valid() && env.budget <= old(env.budget) && env.seen.count >= old(env.seen.count)
    ensures env.seen == old(env.seen).(count := env.seen.count, ready := env.seen.ready, broke := !socket)
    ensures env.seen.ready == if r.GotReady? && old(env.seen.ready).None? then Some(r.sid) else old(env.seen.ready)
    ensures r.GotReady? ==> socket
  {
    r := env.Receive();
    socket := !r.SocketError?;
    if r.GotRequest? {
      socket := Busy(env, r.request, old(env.seen.unanswered));
    }
  }

  /** Wait for the person's decision on the request in hand; requests that come meanwhile are answered "busy". */
  method WaitDecision(env: Environment, rid: nat, q: Request) returns (v: Verdict)
    requires env.Valid() && Holding(env.seen, Tags(Some(q))) && !env.seen.broke
    requires env.seen.question == Some((rid, q.tag)) && env.seen.approved == None && !env.seen.denial
    modifies env
    ensures env.Valid() && Holding(env.seen, Tags(Some(q))) && env.budget <= old(env.budget)
    ensures env.seen.broke <==> v.NoSocket?
    ensures env.seen.approved == if v.Allowed? then Some(q.tag) else None
    ensures env.seen.question == Some((rid, q.tag)) && (env.seen.denial <==> v.Denied?)
    ensures Steady(old(env.seen), env.seen)
    ensures env.seen.switch == old(env.seen.switch) && env.seen.accepted == old(env.seen.accepted)
  {
    while true
      invariant env.Valid() && Holding(env.seen, Tags(Some(q))) && !env.seen.broke && env.budget <= old(env.budget)
      invariant env.seen.question == Some((rid, q.tag)) && env.seen.approved == None && !env.seen.denial
      invariant Steady(old(env.seen), env.seen)
      invariant env.seen.switch == old(env.seen.switch) && env.seen.accepted == old(env.seen.accepted)
      decreases env.budget
    {
      var late := OutOfTime(env);
      if late {
        return Denied;
      }
      var d := env.Decision();
      if d.Some? && d.value.0 == rid {
        return if d.value.1 then Allowed else Denied;
      }
      var _, socket := Listen(env);
      if !socket {
        return NoSocket;
      }
    }
  }

  /** A session accepted and announced, `steps` of which are done, with nothing to stop it yet. */
  ghost predicate Preparing(m: Monitor, steps: Setup) {
    Holding(m, map[]) && !m.broke && m.accepted.Some? && m.ready.Some? && !m.excuse && m.steps == steps
  }

  /** Where that may lead: to those steps done, to a cause to give it up, or to a broken socket. */
  ghost predicate Prepared(m0: Monitor, m1: Monitor, done: bool, socket: bool, steps: Setup) {
    && Holding(m1, map[]) && (m1.broke <==> !socket) && (socket ==> m1.excuse == !done)
    && (done ==> socket && m1.steps == steps)
    && Steady(m0, m1) && m1.accepted == m0.accepted && m1.ready == m0.ready
  }

  /** Offer, answer and candidates over the signalling socket, then the handshake; `up` if the session is confirmed. */
  method Establish(env: Environment) returns (up: bool, socket: bool)
    requires env.Valid() && Preparing(env.seen, NO_STEPS)
    modifies env
    ensures env.Valid() && env.budget <= old(env.budget)
    ensures Prepared(old(env.seen), env.seen, up, socket, ALL_STEPS)
  {
    up, socket := MakeOffer(env);
    if up {
      up, socket := AwaitAnswer(env);
    }
    if up {
      up := env.Attempt(KeyConfirmed, true);
    }
  }

  method MakeOffer(env: Environment) returns (made: bool, socket: bool)
    requires env.Valid() && Preparing(env.seen, NO_STEPS)
    modifies env
    ensures env.Valid() && env.budget <= old(env.budget)
    ensures Prepared(old(env.seen), env.seen, made, socket, Setup(true, true, true, false, false, false))
  {
    socket := true;
    made := env.Attempt(OfferMade, true);
    if made {
      socket := env.WriteSignal(OfferWritten);
      if socket {
        socket := env.WriteSignal(CandidatesWritten);
      }
      made := socket;
    }
  }

  method AwaitAnswer(env: Environment) returns (complete: bool, socket: bool)
    requires env.Valid() && Preparing(env.seen, Setup(true, true, true, false, false, false))
    modifies env
    ensures env.Valid() && env.budget <= old(env.budget)
    ensures Prepared(old(env.seen), env.seen, complete, socket, Setup(true, true, true, true, true, false))
  {
    complete, socket := true, true;
    var answered, candidates := false, false;
    while complete && !(answered && candidates)
      invariant env.Valid() && env.budget <= old(env.budget)
      invariant Prepared(old(env.seen), env.seen, complete, socket, Setup(true, true, true, answered, candidates, false))
      decreases env.budget, complete
    {
      complete, socket, answered, candidates := ReadSignal(env, answered, candidates);
    }
  }

  method ReadSignal(env: Environment, hadAnswer: bool, hadCandidates: bool)
    returns (go: bool, socket: bool, answered: bool, candidates: bool)
    requires env.Valid() && Preparing(env.seen, Setup(true, true, true, hadAnswer, hadCandidates, false))
    modifies env
    ensures env.Valid() && env.budget <= old(env.budget) && (go ==> env.budget < old(env.budget))
    ensures Prepared(old(env.seen), env.seen, go, socket, Setup(true, true, true, answered, candidates, false))
  {
    go, socket, answered, candidates := false, true, hadAnswer, hadCandidates;
    var late := env.Deadline();
    if late {
      return;
    }
    var r;
    r, socket := Listen(env);
    if !socket {
      return;
    }
    go := true;
    if r.GotAnswer? {
      go := env.Attempt(AnswerUsed, !answered);
      answered := true;
    } else if r.GotIce? {
      env.UseCandidates();
      candidates := true;
    }
  }

  /** Wait for a `connect_ready` and take up its id, whatever it is; other requests are answered "busy". */
  method AwaitReady(env: Environment, tag: nat) returns (ready: Option<string>, socket: bool)
    requires env.Valid() && Holding(env.seen, map[]) && !env.seen.broke
    requires env.seen.accepted == Some(tag) && env.seen.ready == None && !env.seen.excuse && env.seen.steps == NO_STEPS
    modifies env
    ensures env.Valid() && Holding(env.seen, map[]) && env.budget <= old(env.budget)
    ensures (env.seen.broke <==> !socket) && (ready.Some? ==> socket) && (socket ==> env.seen.excuse == ready.None?)
    ensures Steady(old(env.seen), env.seen) && env.seen.accepted == Some(tag) && env.seen.ready == ready
    ensures env.seen.steps == NO_STEPS
  {
    ready, socket := None, true;
    while ready.None?
      invariant env.Valid() && Holding(env.seen, map[]) && !env.seen.broke && env.budget <= old(env.budget)
      invariant env.seen.accepted == Some(tag) && env.seen.ready == ready && socket && !env.seen.excuse
      invariant env.seen.steps == NO_STEPS
      invariant Steady(old(env.seen), env.seen)
      decreases env.budget, ready.None?
    {
      var late := OutOfTime(env);
      if late {
        return;
      }
      var r;
      r, socket := Listen(env);
      if !socket {
        return;
      }
      if r.GotReady? {
        ready := Some(r.sid);
      }
    }
  }

  /** Accept the request in hand and see the session through. */
  method ServeSession(env: Environment, q: Request, code: Option<nat>) returns (s: Served)
    requires env.Valid() && Holding(env.seen, Tags(Some(q))) && !env.seen.broke && env.seen.accepted == None
    requires Consented(env.seen, q.tag) && Secret(env.seen, q.tag, code)
    modifies env
    ensures env.Valid() && env.budget <= old(env.budget)
    ensures Holding(env.seen, if s.Finished? then Tags(s.tail) else map[])
    ensures s.SessionFailed? ==> env.seen.accepted.Some? && env.seen.excuse
    ensures env.seen.broke <==> s.SocketFailed?
    ensures env.seen.lastRid == old(env.seen.lastRid) && env.seen.code == old(env.seen.code)
    ensures env.seen.refused == old(env.seen.refused) && (s.Finished? ==> env.seen.accepted == None)
    ensures env.seen.burned == old(env.seen.burned) + if s.Finished? && code.Some? then {code.value} else {}
  {
    var ok := env.Accept(q.tag, q.sid, code);
    assert env.seen.unanswered == map[];
    if !ok {
      return SocketFailed;
    }
    var ready, open := AwaitReady(env, q.tag);
    if !open {
      return SocketFailed;
    }
    if ready.None? {
      return SessionFailed;
    }
    var up, socket := Establish(env);
    if !socket {
      return SocketFailed;
    }
    if !up {
      return SessionFailed;
    }
    s := Supervise(env, q.tag, ready.value, code);
  }

  /** The session runs in its own thread; this one keeps the signalling socket alive until the session is over. */
  method Supervise(env: Environment, tag: nat, sid: string, code: Option<nat>) returns (s: Served)
    requires env.Valid() && Holding(env.seen, map[]) && !env.seen.broke
    requires env.seen.accepted == Some(tag) && env.seen.ready == Some(sid) && !env.seen.excuse
    requires env.seen.steps == ALL_STEPS
    requires env.seen.used == Some((tag, code)) && (code.Some? ==> code.value == env.codes)
    modifies env
    ensures env.Valid() && env.budget <= old(env.budget)
    ensures Holding(env.seen, if s.Finished? then Tags(s.tail) else map[])
    ensures env.seen.broke <==> s.SocketFailed?
    ensures !s.SessionFailed?
    ensures env.seen.lastRid == old(env.seen.lastRid) && env.seen.code == old(env.seen.code)
    ensures env.seen.refused == old(env.seen.refused) && (s.Finished? ==> env.seen.accepted == None)
    ensures env.seen.burned == old(env.seen.burned) + if s.Finished? && code.Some? then {code.value} else {}
  {
    env.StartSession(tag, sid);
    var tail, socket := Pulse(env, tag);
    env.JoinSession(tag, code);
    s := if socket then Finished(tail) else SocketFailed;
  }

  /** The loop serves this session and holds exactly the given requests unanswered. */
  ghost predicate Serving(m: Monitor, tag: nat, waiting: map<nat, bool>) {
    m.serving == Some(tag) && m.unanswered == waiting && forall t :: t in waiting ==> t < m.count
  }

  /** Until the session is seen to be over, or the host is stopped, or the socket breaks. */
  method Pulse(env: Environment, tag: nat) returns (tail: Option<Request>, socket: bool)
    requires env.Valid() && Serving(env.seen, tag, map[]) && !env.seen.broke && env.seen.accepted.Some?
    modifies env
    ensures env.Valid() && Serving(env.seen, tag, Tags(tail)) && env.budget <= old(env.budget)
    ensures (env.seen.broke <==> !socket) && (!socket ==> tail == None)
    ensures env.seen.accepted == None || env.seen.excuse || env.seen.broke
    ensures Steady(old(env.seen), env.seen)
  {
    tail, socket := None, true;
    var done := env.Done();
    while !done
      invariant env.Valid() && Serving(env.seen, tag, map[]) && env.budget <= old(env.budget)
      invariant !env.seen.broke && tail == None && socket && (env.seen.accepted == None <==> done)
      invariant Steady(old(env.seen), env.seen)
      decreases env.budget
    {
      var stop := env.Stop();
      if stop {
        return;
      }
      tail, socket := Beat(env, tag);
      if tail.Some? || !socket {
        return;
      }
      done := env.Done();
    }
  }

  /** Read a message during the session: a request is told "busy", unless the session has ended meanwhile. */
  method Beat(env: Environment, tag: nat) returns (tail: Option<Request>, socket: bool)
    requires env.Valid() && Serving(env.seen, tag, map[]) && !env.seen.broke && env.seen.accepted.Some?
    modifies env
    ensures env.Valid() && Serving(env.seen, tag, Tags(tail)) && env.budget <= old(env.budget)
    ensures (env.seen.broke <==> !socket) && (!socket ==> tail == None)
    ensures env.seen.accepted.Some? <==> tail == None
    ensures Steady(old(env.seen), env.seen)
  {
    tail := None;
    var r := env.Receive();
    socket := !r.SocketError?;
    if r.GotRequest? {
      var over := env.Done();
      if over {
        tail := Some(r.request);
      } else {
        socket := Busy(env, r.request, map[]);
      }
    }
  }

  /**
   * The host mode. However the environment behaves: each request read gets exactly one answer, unless it is the one in
   * hand when the socket breaks or the host is stopped; one session is served at a time; a request that comes as a
   * session ends is taken next; an attended request is accepted only after a `true` decision under the id minted for
   * it; a request is turned down only for cause; and a one-time code under which a session was served with the socket
   * intact is not used again.
   */
  method Serve(env: Environment, hasPermanent: bool)
    requires env.Valid() && env.log == []
    modifies env
    ensures env.Valid() && Approved(env.log) && env.seen.stopped && env.seen.serving == None
    ensures |env.seen.unanswered| <= 1 && (hasPermanent ==> env.seen.refused == {})
  {
    var nextRid := 0;
    var code := env.GenerateCode();
    var stop := env.Stop();
    while !stop
      invariant env.Valid() && env.seen.serving == None && (stop ==> env.seen.stopped) && !env.seen.rotate
      invariant |env.seen.unanswered| <= 1
      invariant env.seen.unanswered != map[] || env.seen.accepted.Some? ==> env.seen.broke || stop
      invariant nextRid == env.seen.lastRid && code == env.codes > 0
      invariant code !in env.seen.burned && (hasPermanent ==> env.seen.refused == {})
      decreases env.budget, !stop
    {
      var up := env.Connect();
      if up {
        stop, nextRid, code := ServeSocket(env, hasPermanent, nextRid, code);
        if stop {
          return;
        }
      }
      stop := env.Stop();
    }
  }

  /** One signalling socket, from its registration until it breaks (or the host is stopped: `stop`). */
  method ServeSocket(env: Environment, hasPermanent: bool, rid: nat, firstCode: nat)
    returns (stop: bool, nextRid: nat, code: nat)
    requires env.Valid() && Holding(env.seen, map[]) && !env.seen.broke
    requires rid == env.seen.lastRid && firstCode == env.codes > 0 && firstCode !in env.seen.burned
    requires env.seen.accepted == None
    modifies env
    ensures env.Valid() && env.seen.serving == None && env.budget <= old(env.budget)
    ensures !env.seen.rotate && |env.seen.unanswered| <= 1 && (stop ==> env.seen.stopped) && (!stop ==> env.seen.broke)
    ensures nextRid == env.seen.lastRid && code == env.codes > 0 && code !in env.seen.burned
    ensures hasPermanent ==> env.seen.refused == old(env.seen.refused)
  {
    nextRid, code := rid, firstCode;
    var pending: Option<Request> := None;
    while true
      invariant env.Valid() && Holding(env.seen, Tags(pending)) && !env.seen.broke && env.budget <= old(env.budget)
      invariant nextRid == env.seen.lastRid && code == env.codes > 0 && code !in env.seen.burned
      invariant env.seen.accepted == None && (hasPermanent ==> env.seen.refused == old(env.seen.refused))
      decreases env.budget
    {
      stop := env.Stop();
      if stop {
        return;
      }
      code := Refresh(env, code);
      var socket, next := Take(env, pending);
      if !socket {
        return;
      }
      pending := None;
      if next.None? {
        continue;
      }
      var q := next.value;
      socket, pending, nextRid, code := Handle(env, hasPermanent, q, nextRid, code);
      if !socket {
        return;
      }
    }
  }

  /** A new code if one is wanted. */
  method Refresh(env: Environment, current: nat) returns (code: nat)
    requires env.Valid() && !env.seen.rotate && current == env.codes > 0 && current !in env.seen.burned
    modifies env
    ensures env.Valid() && env.budget <= old(env.budget) && code == env.codes > 0 && code !in env.seen.burned
    ensures env.seen == old(env.seen).(code := code)
  {
    code := current;
    var rotate := env.Rotate();
    if rotate {
      code := env.GenerateCode();
    }
  }

  /** The request to handle next: the pending one, or what the socket delivers. */
  method Take(env: Environment, pending: Option<Request>) returns (socket: bool, next: Option<Request>)
    requires env.Valid() && Holding(env.seen, Tags(pending)) && !env.seen.broke
    modifies env
    ensures env.Valid() && Holding(env.seen, Tags(next)) && env.budget <= old(env.budget)
    ensures old(env.budget) == 0 && pending.None? ==> !socket
    ensures pending.Some? ==> next == pending
    ensures (env.seen.broke <==> !socket) && (!socket ==> next.None?)
    ensures Steady(old(env.seen), env.seen) && env.seen.accepted == old(env.seen.accepted)
  {
    socket, next := true, pending;
    if pending.None? {
      var r := env.Receive();
      socket := !r.SocketError?;
      next := if r.GotRequest? then Some(r.request) else None;
    }
  }

  /** Answer one request, and serve it if it is accepted; `tail` is a request that came at the end of its session. */
  method Handle(env: Environment, hasPermanent: bool, q: Request, rid: nat, current: nat)
    returns (socket: bool, tail: Option<Request>, nextRid: nat, code: nat)
    requires env.Valid() && Holding(env.seen, Tags(Some(q))) && !env.seen.broke
    requires rid == env.seen.lastRid && current == env.codes > 0 && current !in env.seen.burned
    requires env.seen.accepted == None
    modifies env
    ensures env.Valid() && env.seen.serving == None && env.budget <= old(env.budget)
    ensures if socket then Holding(env.seen, Tags(tail)) && !env.seen.broke
            else env.seen.broke && !env.seen.rotate && |env.seen.unanswered| <= 1
    ensures nextRid == env.seen.lastRid && code == env.codes > 0 && code !in env.seen.burned
    ensures socket ==> env.seen.accepted == None
    ensures env.seen.refused == old(env.seen.refused) + if !OneTime(q) && !hasPermanent then {q.tag} else {}
  {
    tail, code := None, current;
    var v;
    v, nextRid := Admit(env, hasPermanent, q, rid);
    socket := !v.NoSocket?;
    if !v.Allowed? {
      return;
    }
    var s := ServeSession(env, q, if OneTime(q) then Some(code) else None);
    socket := !s.SocketFailed?;
    if s.Finished? {
      if OneTime(q) {
        code := env.GenerateCode();
      }
      tail := s.tail;
    } else if s.SessionFailed? {
      env.GiveUp();
    }
  }

  /** Let a request through, with its consent, or turn it down: without a password for it, or denied. */
  method Admit(env: Environment, hasPermanent: bool, q: Request, rid: nat) returns (v: Verdict, nextRid: nat)
    requires env.Valid() && Holding(env.seen, Tags(Some(q))) && !env.seen.broke
    requires rid == env.seen.lastRid && env.seen.accepted == None
    modifies env
    ensures env.Valid() && env.budget <= old(env.budget)
    ensures env.seen.broke <==> v.NoSocket?
    ensures v.Allowed? ==> Holding(env.seen, Tags(Some(q))) && Consented(env.seen, q.tag) && (OneTime(q) || hasPermanent)
    ensures v.Denied? ==> Holding(env.seen, map[])
    ensures v.NoSocket? ==> env.seen.serving == None && |env.seen.unanswered| <= 1
    ensures nextRid == env.seen.lastRid && env.seen.accepted == None
    ensures Steady(old(env.seen).(lastRid := nextRid, refused := env.seen.refused), env.seen)
    ensures env.seen.refused == old(env.seen.refused) + if !OneTime(q) && !hasPermanent then {q.tag} else {}
  {
    nextRid := rid;
    assert Tags(Some(q)) - {q.tag} == map[];
    if !OneTime(q) && !hasPermanent {
      var ok := env.Reject(q.tag, WhenNoPermanent);
      return if ok then Denied else NoSocket, nextRid;
    }
    v, nextRid := Consent(env, q, nextRid);
    if v.Denied? {
      var ok := env.Reject(q.tag, WhenDenied);
      if !ok {
        v := NoSocket;
      }
    }
  }

  /** In attended mode, ask the person about the request in hand under a new id. */
  method Consent(env: Environment, q: Request, rid: nat) returns (v: Verdict, nextRid: nat)
    requires env.Valid() && Holding(env.seen, Tags(Some(q))) && !env.seen.broke && rid == env.seen.lastRid
    modifies env
    ensures env.Valid() && Holding(env.seen, Tags(Some(q))) && env.budget <= old(env.budget)
    ensures env.seen.broke <==> v.NoSocket?
    ensures v.Allowed? ==> Consented(env.seen, q.tag)
    ensures v.Denied? ==> env.seen.switch == Some((q.tag, true)) && env.seen.question == Some((nextRid, q.tag))
    ensures v.Denied? ==> env.seen.approved == None && env.seen.denial
    ensures nextRid == env.seen.lastRid && Steady(old(env.seen).(lastRid := nextRid), env.seen)
    ensures env.seen.accepted == old(env.seen.accepted)
  {
    v, nextRid := Allowed, rid;
    var on := env.ConfirmSwitch(q.tag);
    if on {
      nextRid := nextRid + 1;
      DrainDecisions(env);
      env.Ask(nextRid, q.tag);
      v := WaitDecision(env, nextRid, q);
    }
  }

  /** Decisions on earlier questions that came too late are thrown away before a new one is asked. */
  method DrainDecisions(env: Environment)
    requires env.Valid()
    modifies env
    ensures env.Valid() && env.budget <= old(env.budget)
    ensures env.seen == old(env.seen).(approved := env.seen.approved, denial := env.seen.denial, drained := true)
  {
    var more := true;
    while more
      invariant env.Valid() && env.budget <= old(env.budget)
      invariant env.seen ==
                old(env.seen).(approved := env.seen.approved, denial := env.seen.denial, drained := env.seen.drained)
      invariant more || env.seen.drained
      decreases env.budget, more
    {
      var d := env.Decision();
      more := d.Some?;
    }
  }
}
