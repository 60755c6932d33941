/**
 * What the host loop may do: the events it can cause and see, the rules by which a monitor watches them, and what holds
 * of every log that keeps to the rules.
 */
module HostLog {
  import opened Base

  /** An incoming request; `tag` tells apart the deliveries, whatever their session ids. */
  datatype Request = Request(tag: nat, sid: string, passwordKind: Option<string>)

  predicate OneTime(q: Request) { q.passwordKind == Some("one_time") }

  /** The reasons the host gives: "busy", "denied" and "no_permanent". */
  datatype Reason = WhenBusy | WhenDenied | WhenNoPermanent

  /** What has to be done between a `connect_ready` and the start of the session. */
  datatype SetupStep = OfferMade | OfferWritten | CandidatesWritten | AnswerUsed | CandidatesRead | KeyConfirmed

  /** Which of them have been done. */
  datatype Setup = Setup(made: bool, offer: bool, written: bool, answer: bool, read: bool, confirmed: bool)

  const NO_STEPS := Setup(false, false, false, false, false, false)
  const ALL_STEPS := Setup(true, true, true, true, true, true)

  function With(s: Setup, step: SetupStep): Setup {
    match step
    case OfferMade => s.(made := true)
    case OfferWritten => s.(offer := true)
    case CandidatesWritten => s.(written := true)
    case AnswerUsed => s.(answer := true)
    case CandidatesRead => s.(read := true)
    case KeyConfirmed => s.(confirmed := true)
  }

  datatype Event =
    | Connected                                // a new signalling socket is registered
    | Broke                                    // the socket failed on reading or writing
    | StopSeen                                 // the stop flag was read as set
    | Expired                                  // a deadline was found to have passed
    | StepDone(step: SetupStep)                // a step of setting up a session succeeded
    | StepFailed                               // one failed
    | RotateSeen                               // the request for a new code was read as set
    | Consumed(tag: nat, oneTime: bool)        // a request was read from the socket, by one-time code or not
    | Rejected(tag: nat, why: Reason)          // connect_reject was written (or the socket failed on it)
    | Accepted(tag: nat, sid: string, code: Option<nat>)  // connect_accept likewise, with the one-time code to be used
    | ReadyRead(sid: string)                   // a connect_ready was read
    | Attended(tag: nat, on: bool)             // the confirm switch was read for this request
    | Minted(rid: nat, tag: nat)               // the person was asked about this request under a new id
    | Decided(rid: nat, allow: bool)           // a decision was read
    | NoDecision                               // none was waiting to be read
    | GaveUp                                   // the accepted session did not come about
    | Started(tag: nat, sid: string)           // the session thread was started, with the id it uses
    | DoneSeen                                 // it was seen to be over
    | Ended(tag: nat, code: Option<nat>)       // it was joined
    | NewCode(number: nat)                     // a one-time code was generated and shown

  // ------------------------------------------------------------- the monitor

  /**
   * What has been seen so far: requests read but not answered and whether they ask for the one-time code, those lost
   * with a socket, the last reading of the confirm switch and for which request, the first `connect_ready` since the last
   * accept, whether all decisions had been read, the question being asked, the request it approved and whether there is
   * cause to deny it, the session accepted and not yet over, the steps done towards it and whether there is cause to give
   * it up, the request and the code of the last accept, the session being served, the codes used up, whether a new one is
   * wanted, and the requests refused for want of a permanent password.
   */
  datatype Monitor = Monitor(
    count: nat, unanswered: map<nat, bool>, lost: set<nat>,
    switch: Option<(nat, bool)>, ready: Option<string>,
    drained: bool, lastRid: nat, question: Option<(nat, nat)>, approved: Option<nat>, denial: bool,
    accepted: Option<nat>, steps: Setup, excuse: bool, used: Option<(nat, Option<nat>)>, serving: Option<nat>,
    code: nat, burned: set<nat>, rotate: bool, refused: set<nat>,
    broke: bool, stopped: bool)

  const FRESH :=
    Monitor(0, map[], {}, None, None, false, 0, None, None, false, None, NO_STEPS, false, None, None, 0, {}, false, {},
            false, false)

  /**
   * A request is turned down for cause: another one is in hand or a session is under way; or the person was asked about
   * it and said no or not in time, or the host is stopping; or it does not come with the one-time code.
   */
  predicate Cause(m: Monitor, t: nat, why: Reason) {
    match why
    case WhenBusy => m.accepted.Some? || m.unanswered.Keys != {t}
    case WhenDenied =>
      m.switch == Some((t, true)) && m.question.Some? && m.question.value.1 == t && m.approved != Some(t) && m.denial
    case WhenNoPermanent => t in m.unanswered && !m.unanswered[t]
  }

  /** The confirm switch was read for this request, and if it was on, the request was approved and nothing denies it. */
  predicate Consented(m: Monitor, t: nat) {
    m.switch.Some? && m.switch.value.0 == t && (m.switch.value.1 ==> m.approved == Some(t) && !m.denial)
  }

  /** The password of a waiting request: the current code, not used up and not to be replaced, or the permanent one. */
  predicate Secret(m: Monitor, t: nat, code: Option<nat>) {
    && t in m.unanswered && !m.rotate
    && if m.unanswered[t] then code == Some(m.code) && m.code > 0 && m.code !in m.burned else code == None
  }

  /** The rules: whether an event may come next. */
  predicate InOrder(m: Monitor, e: Event) {
    match e
    case Connected =>
      // at most the request in hand may be lost, or an accepted session left, and only to a broken socket
      |m.unanswered| <= 1 && (m.unanswered != map[] || m.accepted.Some? ==> m.broke) && m.serving == None
    case Consumed(t, _) =>
      // nothing is read while an earlier request waits, other than the one in hand
      t == m.count && |m.unanswered| <= 1 && !m.broke
    case Rejected(t, why) => t in m.unanswered && Cause(m, t, why)
    case Accepted(t, _, code) =>
      m.accepted == None && m.serving == None && !m.broke && Consented(m, t) && Secret(m, t, code)
    case Expired => m.serving == None
    case StepFailed => m.serving == None
    case Minted(rid, _) => rid > m.lastRid && m.drained
    case GaveUp => m.accepted.Some? && m.serving == None && m.excuse
    case Started(t, sid) =>
      && m.serving == None && m.accepted == Some(t) && m.ready == Some(sid) && m.steps == ALL_STEPS
      && !m.excuse && !m.broke
    case DoneSeen => m.serving.Some?
    case Ended(t, code) =>
      // once it is seen to be over, or the host is stopping, or the socket broke
      && m.serving == Some(t) && (m.accepted == None || m.excuse || m.broke)
      && m.used == Some((t, code)) && (code.Some? ==> code.value == m.code)
    case NewCode(c) =>
      // only at first, when asked for, or when the last one is used up
      c > m.code && c !in m.burned && (m.code == 0 || m.rotate || m.code in m.burned)
    case _ => true
  }

  /** The session accepted last is over, or its socket is. */
  predicate Over(e: Event) { e.DoneSeen? || e.GaveUp? || e.Ended? || e.Connected? }

  /** A decision on the question being asked. */
  predicate Current(m: Monitor, e: Event) { e.Decided? && m.question.Some? && m.question.value.0 == e.rid }

  /** The next state of the monitor. */
  function Watch(m: Monitor, e: Event): Monitor {
    Monitor(
      count := if e.Consumed? then m.count + 1 else m.count,
      unanswered := if e.Connected? then map[]
                    else if e.Consumed? then m.unanswered[e.tag := e.oneTime]
                    else if e.Rejected? || e.Accepted? then m.unanswered - {e.tag}
                    else m.unanswered,
      lost := if e.Connected? then m.lost + m.unanswered.Keys else m.lost,
      switch := if e.Attended? then Some((e.tag, e.on)) else m.switch,
      ready := if e.Accepted? then None else if e.ReadyRead? && m.ready.None? then Some(e.sid) else m.ready,
      drained := if e.Decided? then false else m.drained || e.NoDecision?,
      lastRid := if e.Minted? then e.rid else m.lastRid,
      question := if e.Minted? then Some((e.rid, e.tag)) else m.question,
      approved := if e.Minted? then None
                  else if Current(m, e) && e.allow then Some(m.question.value.1)
                  else m.approved,
      denial := if e.Minted? then false else m.denial || e.StopSeen? || e.Expired? || (Current(m, e) && !e.allow),
      accepted := if e.Accepted? then Some(e.tag) else if Over(e) then None else m.accepted,
      steps := if e.Accepted? then NO_STEPS else if e.StepDone? then With(m.steps, e.step) else m.steps,
      excuse := if e.Accepted? then false else m.excuse || e.StopSeen? || e.Expired? || e.StepFailed?,
      used := if e.Accepted? then Some((e.tag, e.code)) else m.used,
      serving := if e.Started? then Some(e.tag) else if e.Ended? then None else m.serving,
      code := if e.NewCode? then e.number else m.code,
      burned := if e.Ended? && e.code.Some? && !m.broke then m.burned + {e.code.value} else m.burned,
      rotate := if e.NewCode? then false else m.rotate || e.RotateSeen?,
      refused := if e.Rejected? && e.why.WhenNoPermanent? then m.refused + {e.tag} else m.refused,
      broke := if e.Connected? then false else m.broke || e.Broke?,
      stopped := m.stopped || e.StopSeen?)
  }

  // ------------------------------------------- what an approved log looks like

  /** The monitor after the first `n` events. */
  function At(log: seq<Event>, n: nat): Monitor
    requires n <= |log|
    decreases n, 0
  {
    if n == 0 then FRESH else After(log, n - 1)
  }

  /** The monitor after event `n`. */
  function After(log: seq<Event>, n: nat): Monitor
    requires n < |log|
    decreases n, 1
  {
    Watch(At(log, n), log[n])
  }

  lemma {:induction false} AtExtends(log: seq<Event>, more: seq<Event>, n: nat)
    requires n <= |log|
    ensures At(log + more, n) == At(log, n)
  {
    if n > 0 {
      AtExtends(log, more, n - 1);
    }
  }

  predicate Kept(log: seq<Event>, k: nat)
    requires k < |log|
  {
    InOrder(At(log, k), log[k])
  }

  /** No event of the log was against the rules. */
  ghost predicate Approved(log: seq<Event>) { forall k: nat :: k < |log| ==> Kept(log, k) }

  lemma ApprovedExtends(log: seq<Event>, e: Event)
    requires Approved(log) && InOrder(At(log, |log|), e)
    ensures Approved(log + [e]) && At(log + [e], |log| + 1) == Watch(At(log, |log|), e)
  {
    forall k: nat | k <= |log| ensures Kept(log + [e], k) && At(log + [e], k) == At(log, k) {
      AtExtends(log, [e], k);
      assert k < |log| ==> Kept(log, k);
    }
  }

  predicate Answers(e: Event, tag: nat) { (e.Rejected? || e.Accepted?) && e.tag == tag }

  function AnswerCount(log: seq<Event>, tag: nat, n: nat): nat
    requires n <= |log|
  {
    if n == 0 then 0
    else if Answers(log[n - 1], tag) then AnswerCount(log, tag, n - 1) + 1
    else AnswerCount(log, tag, n - 1)
  }

  /** A request has been answered as often as it should have. */
  predicate Settled(m: Monitor, tag: nat, answers: nat) {
    && (tag in m.unanswered ==> tag < m.count && tag !in m.lost) && (tag in m.lost ==> tag < m.count)
    && answers == if tag < m.count && tag !in m.unanswered && tag !in m.lost then 1 else 0
  }

  lemma SettledStep(m: Monitor, e: Event, tag: nat, answers: nat)
    requires Settled(m, tag, answers) && InOrder(m, e)
    ensures Settled(Watch(m, e), tag, if Answers(e, tag) then answers + 1 else answers)
  {
  }

  /** Every request read has exactly one answer, except those still in hand and those lost with a broken socket. */
  lemma {:induction false} AnsweredOnce(log: seq<Event>, tag: nat, n: nat)
    requires n <= |log| && Approved(log)
    ensures Settled(At(log, n), tag, AnswerCount(log, tag, n))
  {
    if n > 0 {
      assert Kept(log, n - 1);
      AnsweredOnce(log, tag, n - 1);
      SettledStep(At(log, n - 1), log[n - 1], tag, AnswerCount(log, tag, n - 1));
    }
  }

  lemma {:induction false} QuestionTraced(log: seq<Event>, rid: nat, tag: nat, n: nat) returns (asked: nat)
    requires n <= |log| && At(log, n).question == Some((rid, tag))
    ensures asked < n && log[asked] == Minted(rid, tag) && forall k :: asked < k < n ==> !log[k].Minted?
  {
    if log[n - 1].Minted? {
      asked := n - 1;
    } else {
      asked := QuestionTraced(log, rid, tag, n - 1);
    }
  }

  /** An approval comes from a `true` decision under the id that the last question, about that request, was minted with. */
  lemma {:induction false} ApprovalTraced(log: seq<Event>, tag: nat, n: nat) returns (asked: nat, decided: nat)
    requires n <= |log| && At(log, n).approved == Some(tag)
    ensures asked < decided < n && log[asked].Minted? && log[asked].tag == tag
    ensures log[decided] == Decided(log[asked].rid, true)
    ensures forall k :: asked < k < n ==> !log[k].Minted?
  {
    var m, e := At(log, n - 1), log[n - 1];
    if e.Decided? && e.allow && m.question.Some? && m.question.value.0 == e.rid {
      asked := QuestionTraced(log, e.rid, tag, n - 1);
      decided := n - 1;
    } else {
      asked, decided := ApprovalTraced(log, tag, n - 1);
    }
  }

  lemma {:induction false} LastRidBound(log: seq<Event>, i: nat, n: nat)
    requires i < n <= |log| && Approved(log) && log[i].Minted?
    ensures log[i].rid <= At(log, n).lastRid
  {
    assert Kept(log, n - 1);
    if i < n - 1 {
      LastRidBound(log, i, n - 1);
    }
  }

  /** Question ids are minted in increasing order, so an id belongs to one question. */
  lemma MintedOnce(log: seq<Event>, i: nat, k: nat)
    requires Approved(log) && i < k < |log| && log[i].Minted? && log[k].Minted?
    ensures log[i].rid < log[k].rid
  {
    LastRidBound(log, i, k);
    assert Kept(log, k);
  }

  lemma {:induction false} SwitchTraced(log: seq<Event>, n: nat) returns (i: nat)
    requires n <= |log| && At(log, n).switch.Some?
    ensures i < n && log[i] == Attended(At(log, n).switch.value.0, At(log, n).switch.value.1)
    ensures forall k :: i < k < n ==> !log[k].Attended?
  {
    if log[n - 1].Attended? {
      i := n - 1;
    } else {
      i := SwitchTraced(log, n - 1);
    }
  }

  /**
   * Before every accept the confirm switch was read for that very request; and if it was on, there was a `true` decision
   * bearing the id minted for the request, with no other question asked since, no `false`, no stop and no deadline.
   */
  lemma AcceptWasApproved(log: seq<Event>, k: nat) returns (read: nat, asked: nat, decided: nat)
    requires Approved(log) && k < |log| && log[k].Accepted?
    ensures read < k && log[read].Attended? && log[read].tag == log[k].tag
    ensures forall j :: read < j < k ==> !log[j].Attended?
    ensures log[read].on ==>
      && asked < decided < k && log[asked].Minted? && log[asked].tag == log[k].tag
      && log[decided] == Decided(log[asked].rid, true)
      && forall j :: asked < j < k ==> !log[j].Minted? && !Denies(log[j], log[asked].rid)
  {
    assert Kept(log, k);
    read := SwitchTraced(log, k);
    asked, decided := 0, 0;
    if log[read].on {
      asked, decided := ApprovalTraced(log, log[k].tag, k);
      Outcome(log, asked, k);
    }
  }

  lemma {:induction false} AcceptedTraced(log: seq<Event>, n: nat) returns (i: nat)
    requires n <= |log| && At(log, n).accepted.Some?
    ensures i < n && log[i].Accepted? && log[i].tag == At(log, n).accepted.value
    ensures forall k :: i < k < n ==> !Over(log[k]) && !log[k].Accepted?
  {
    if log[n - 1].Accepted? {
      i := n - 1;
    } else {
      i := AcceptedTraced(log, n - 1);
    }
  }

  // ------------------------------------------------- which session is served

  /** The ids accepted on the current signalling socket, and those of the `connect_ready` messages read from it. */
  function Accepts(log: seq<Event>, n: nat): seq<string>
    requires n <= |log|
  {
    if n == 0 || log[n - 1].Connected? then []
    else Accepts(log, n - 1) + if log[n - 1].Accepted? then [log[n - 1].sid] else []
  }

  function Readies(log: seq<Event>, n: nat): seq<string>
    requires n <= |log|
  {
    if n == 0 || log[n - 1].Connected? then []
    else Readies(log, n - 1) + if log[n - 1].ReadyRead? then [log[n - 1].sid] else []
  }

  /**
   * What the server does on the socket of event `k`, when `accepted` are all the ids accepted on it, once each, and
   * `answered` all those the server answers: it answers in turn and not before it is asked, but may leave out accepts,
   * as it does when a session is gone.
   */
  ghost predicate Answering(log: seq<Event>, k: nat, accepted: seq<string>, answered: seq<string>)
    requires k <= |log|
  {
    && Accepts(log, k) <= accepted && Distinct(accepted)
    && Readies(log, k) <= answered && Subsequence(answered, accepted)
    && forall sid :: sid in Readies(log, k) ==> sid in Accepts(log, k)
  }

  /** What the first `connect_ready` since an accept is: the one after those read before the accept. */
  lemma {:induction false} FirstReady(log: seq<Event>, i: nat, n: nat)
    requires i < n <= |log| && log[i].Accepted? && forall k :: i < k < n ==> !log[k].Accepted? && !log[k].Connected?
    ensures Accepts(log, n) == Accepts(log, i + 1)
    ensures Readies(log, i) <= Readies(log, n)
    ensures At(log, n).ready
            == if |Readies(log, n)| == |Readies(log, i)| then None else Some(Readies(log, n)[|Readies(log, i)|])
  {
    if n - 1 > i {
      FirstReady(log, i, n - 1);
    }
  }

  /** Every answer to an accept before event `i` had been read by then. */
  ghost predicate AllRead(log: seq<Event>, i: nat, answered: seq<string>)
    requires i <= |log|
  {
    forall sid :: sid in Accepts(log, i) && sid in answered ==> sid in Readies(log, i)
  }

  /** What comes right after those `read` is the answer to the last accept iff no earlier answer was still to come. */
  lemma NextAnswer(before: seq<string>, last: string, accepted: seq<string>, read: seq<string>, answered: seq<string>)
    requires before + [last] <= accepted && Distinct(accepted) && Subsequence(answered, accepted)
    requires |read| < |answered| && read <= answered && answered[|read|] in before + [last]
    ensures answered[|read|] == last <==> forall sid :: sid in before && sid in answered ==> sid in read
  {
    var m, n := |read|, |before|;
    assert accepted[n] == last;
    if answered[m] == last {
      forall sid | sid in before && sid in answered ensures sid in read {
        var j: nat :| j < n && before[j] == sid;
        assert accepted[j] == sid;
        var p: nat :| p < |answered| && answered[p] == sid;
        assert p < m;
        assert read[p] == sid;
      }
    } else {
      assert answered[m] in before;
    }
  }

  /**
   * The session served is always one accepted on this socket; and it is the one just accepted if and only if no earlier
   * accept's answer was still to be read when it was accepted.
   */
  lemma ServedIffAllRead(log: seq<Event>, k: nat, accepted: seq<string>, answered: seq<string>) returns (i: nat)
    requires Approved(log) && k < |log| && log[k].Started? && Answering(log, k, accepted, answered)
    ensures i < k && log[i].Accepted? && log[i].tag == log[k].tag && forall j :: i < j < k ==> !log[j].Accepted?
    ensures log[k].sid in Accepts(log, i + 1)
    ensures log[k].sid == log[i].sid <==> AllRead(log, i, answered)
  {
    assert Kept(log, k);
    i := AcceptedTraced(log, k);
    FirstReady(log, i, k);
    var before, read := Accepts(log, i), Readies(log, i);
    assert Accepts(log, k) == before + [log[i].sid];
    assert log[k].sid == Readies(log, k)[|read|] == answered[|read|];
    NextAnswer(before, log[i].sid, accepted, read, answered);
  }

  /** The host is free to accept a request under the given password. */
  predicate Free(m: Monitor, oneTime: bool, code: Option<nat>) {
    && m.unanswered == map[] && m.accepted == None && m.serving == None && !m.broke && !m.rotate
    && if oneTime then code == Some(m.code) && m.code > 0 && m.code !in m.burned else code == None
  }

  function Granted(m: Monitor, code: Option<nat>): Monitor {
    m.(count := m.count + 1, switch := Some((m.count, false)), accepted := Some(m.count), used := Some((m.count, code)),
       steps := NO_STEPS, excuse := false, ready := None)
  }

  predicate KeptFrom(log: seq<Event>, i: nat, n: nat)
    requires n <= |log|
  {
    forall k: nat :: i <= k < n ==> Kept(log, k)
  }

  lemma KeptJoins(log: seq<Event>, i: nat, j: nat, n: nat)
    requires i <= j <= n <= |log| && KeptFrom(log, i, j) && KeptFrom(log, j, n)
    ensures KeptFrom(log, i, n)
  {
  }

  lemma FirstCode(log: seq<Event>)
    requires |log| >= 2 && log[0] == NewCode(1) && log[1] == Connected
    ensures KeptFrom(log, 0, 2) && At(log, 2) == FRESH.(code := 1)
  {
    assert At(log, 0) == FRESH;
    assert At(log, 1) == FRESH.(code := 1);
  }

  function Taken(m: Monitor, oneTime: bool): Monitor {
    m.(count := m.count + 1, unanswered := map[m.count := oneTime])
  }

  /** Two events in order, and where they lead. */
  predicate Two(m: Monitor, a: Event, b: Event, end: Monitor) {
    InOrder(m, a) && InOrder(Watch(m, a), b) && Watch(Watch(m, a), b) == end
  }

  lemma AfterOne(log: seq<Event>, n: nat)
    requires n < |log| && InOrder(At(log, n), log[n])
    ensures KeptFrom(log, n, n + 1) && At(log, n + 1) == Watch(At(log, n), log[n])
  {
  }

  lemma AfterTwo(log: seq<Event>, n: nat, end: Monitor)
    requires n + 2 <= |log| && Two(At(log, n), log[n], log[n + 1], end)
    ensures KeptFrom(log, n, n + 2) && At(log, n + 2) == end
  {
    AfterOne(log, n);
    AfterOne(log, n + 1);
    KeptJoins(log, n, n + 1, n + 2);
  }

  lemma Accepting(log: seq<Event>, n: nat, oneTime: bool, sid: string, code: Option<nat>)
    requires n + 3 <= |log| && Free(At(log, n), oneTime, code)
    requires var t := At(log, n).count;
             log[n] == Consumed(t, oneTime) && log[n + 1] == Attended(t, false) && log[n + 2] == Accepted(t, sid, code)
    ensures KeptFrom(log, n, n + 3) && At(log, n + 3) == Granted(At(log, n), code)
  {
    Taking(log, n, oneTime);
    Granting(At(log, n), oneTime, sid, code);
    AfterTwo(log, n + 1, Granted(At(log, n), code));
    KeptJoins(log, n, n + 1, n + 3);
  }

  lemma Taking(log: seq<Event>, n: nat, oneTime: bool)
    requires n < |log| && log[n] == Consumed(At(log, n).count, oneTime)
    requires At(log, n).unanswered == map[] && !At(log, n).broke
    ensures KeptFrom(log, n, n + 1) && At(log, n + 1) == Taken(At(log, n), oneTime)
  {
  }

  lemma Granting(m: Monitor, oneTime: bool, sid: string, code: Option<nat>)
    requires Free(m, oneTime, code)
    ensures Two(Taken(m, oneTime), Attended(m.count, false), Accepted(m.count, sid, code), Granted(m, code))
  {
    var asked := Taken(m, oneTime).(switch := Some((m.count, false)));
    assert Watch(Taken(m, oneTime), Attended(m.count, false)) == asked;
    assert asked.unanswered - {m.count} == map[];
  }

  lemma GivingUp(m: Monitor)
    requires m.accepted.Some? && m.serving == None
    ensures Two(m, Expired, GaveUp, m.(excuse := true, denial := true, accepted := None))
  {
  }

  const SETUP := [StepDone(OfferMade), StepDone(OfferWritten), StepDone(CandidatesWritten), StepDone(AnswerUsed),
                  StepDone(CandidatesRead), StepDone(KeyConfirmed)]

  function Folded(log: seq<Event>, i: nat, n: nat): Setup
    requires i <= n <= |log| && forall j :: i <= j < n ==> log[j].StepDone?
  {
    if n == i then NO_STEPS else With(Folded(log, i, n - 1), log[n - 1].step)
  }

  lemma {:induction false} StepsDone(log: seq<Event>, i: nat, n: nat)
    requires i <= n <= |log| && (forall j :: i <= j < n ==> log[j].StepDone?) && At(log, i).steps == NO_STEPS
    ensures KeptFrom(log, i, n) && At(log, n) == At(log, i).(steps := Folded(log, i, n))
  {
    if i < n {
      StepsDone(log, i, n - 1);
      AfterOne(log, n - 1);
      KeptJoins(log, i, n - 1, n);
    }
  }

  predicate SetupAt(log: seq<Event>, n: nat)
    requires n + 6 <= |log|
  {
    forall i :: 0 <= i < 6 ==> log[n + i] == SETUP[i]
  }

  lemma SetupFolded(log: seq<Event>, n: nat)
    requires n + 6 <= |log| && SetupAt(log, n)
    ensures (forall j :: n <= j < n + 6 ==> log[j].StepDone?) && Folded(log, n, n + 6) == ALL_STEPS
  {
    assert forall j :: n <= j < n + 6 ==> log[j] == SETUP[j - n] by {
      assert forall i :: 0 <= i < 6 ==> log[n + i] == SETUP[i];
    }
    assert Folded(log, n, n + 1) == Setup(true, false, false, false, false, false);
    assert Folded(log, n, n + 2) == Setup(true, true, false, false, false, false);
    assert Folded(log, n, n + 3) == Setup(true, true, true, false, false, false);
    assert Folded(log, n, n + 4) == Setup(true, true, true, true, false, false);
    assert Folded(log, n, n + 5) == Setup(true, true, true, true, true, false);
  }

  lemma SettingUp(log: seq<Event>, n: nat)
    requires n + 6 <= |log| && SetupAt(log, n) && At(log, n).steps == NO_STEPS
    ensures KeptFrom(log, n, n + 6) && At(log, n + 6) == At(log, n).(steps := ALL_STEPS)
  {
    SetupFolded(log, n);
    StepsDone(log, n, n + 6);
  }

  /** The events from a `connect_ready` to the start of the session. */
  predicate StartsAt(log: seq<Event>, n: nat, tag: nat, sid: string)
    requires n + 8 <= |log|
  {
    log[n] == ReadyRead(sid) && SetupAt(log, n + 1) && log[n + 7] == Started(tag, sid)
  }

  lemma Starting(log: seq<Event>, n: nat, m: Monitor, tag: nat, sid: string)
    requires n + 8 <= |log| && At(log, n) == m && StartsAt(log, n, tag, sid)
    requires m.accepted == Some(tag) && m.serving == None && m.ready == None && !m.excuse && !m.broke
    requires m.steps == NO_STEPS
    ensures KeptFrom(log, n, n + 8)
    ensures At(log, n + 8) == m.(ready := Some(sid), steps := ALL_STEPS, serving := Some(tag))
  {
    ReadyNow(log, n, m, sid);
    SettingUp(log, n + 1);
    KeptJoins(log, n, n + 1, n + 7);
    StartNow(log, n + 7, m.(ready := Some(sid)), tag, sid);
    KeptJoins(log, n, n + 7, n + 8);
  }

  lemma ReadyNow(log: seq<Event>, n: nat, m: Monitor, sid: string)
    requires n < |log| && At(log, n) == m && log[n] == ReadyRead(sid) && m.ready == None
    ensures KeptFrom(log, n, n + 1) && At(log, n + 1) == m.(ready := Some(sid))
  {
  }

  lemma StartNow(log: seq<Event>, n: nat, m: Monitor, tag: nat, sid: string)
    requires n < |log| && At(log, n) == m.(steps := ALL_STEPS) && log[n] == Started(tag, sid)
    requires m.accepted == Some(tag) && m.serving == None && m.ready == Some(sid) && !m.excuse && !m.broke
    ensures KeptFrom(log, n, n + 1) && At(log, n + 1) == m.(steps := ALL_STEPS, serving := Some(tag))
  {
  }

  lemma Breaking(m: Monitor, tag: nat)
    requires m.unanswered == map[] && m.serving == Some(tag) && m.used == Some((tag, Some(m.code)))
    ensures Two(m, Broke, Ended(tag, Some(m.code)), m.(broke := true, serving := None, accepted := None))
  {
  }

  /**
   * A log of the loop in which an accept is given up and the next request accepted, with `sid` in the answer that is
   * read then.
   */
  predicate Retried(log: seq<Event>, a: string, b: string, sid: string) {
    && |log| == 18 && a != b && log[0] == NewCode(1) && log[1] == Connected
    && log[2] == Consumed(0, false) && log[3] == Attended(0, false) && log[4] == Accepted(0, a, None)
    && log[5] == Expired && log[6] == GaveUp
    && log[7] == Consumed(1, false) && log[8] == Attended(1, false) && log[9] == Accepted(1, b, None)
    && StartsAt(log, 10, 1, sid)
  }

  lemma RetriedIsApproved(log: seq<Event>, a: string, b: string, sid: string)
    requires Retried(log, a, b, sid)
    ensures Approved(log)
  {
    FirstCode(log);
    Accepting(log, 2, false, a, None);
    var given := At(log, 5).(excuse := true, denial := true, accepted := None);
    GivingUp(At(log, 5));
    AfterTwo(log, 5, given);
    Accepting(log, 7, false, b, None);
    Starting(log, 10, Granted(given, None), 1, sid);
    assert KeptFrom(log, 5, 18);
  }

  predicate Quiet(e: Event) { !e.Connected? && !e.Accepted? && !e.ReadyRead? }

  lemma {:induction false} QuietTraffic(log: seq<Event>, i: nat, n: nat)
    requires i <= n <= |log| && forall j :: i <= j < n ==> Quiet(log[j])
    ensures Accepts(log, n) == Accepts(log, i) && Readies(log, n) == Readies(log, i)
  {
    if i < n {
      QuietTraffic(log, i, n - 1);
    }
  }

  lemma RetriedTraffic(log: seq<Event>, a: string, b: string, sid: string)
    requires Retried(log, a, b, sid)
    ensures Accepts(log, 17) == [a, b] && Readies(log, 17) == [sid]
  {
    QuietTraffic(log, 2, 4);
    assert Accepts(log, 5) == [a] && Readies(log, 5) == [];
    QuietTraffic(log, 5, 9);
    assert Accepts(log, 10) == [a, b] && Readies(log, 10) == [];
    SetupFolded(log, 11);
    QuietTraffic(log, 11, 17);
  }

  lemma RetriedAnswering(log: seq<Event>, a: string, b: string, sid: string, answered: seq<string>, at: seq<nat>)
    requires Retried(log, a, b, sid) && sid in [a, b] && Embeds(answered, [a, b], at) && [sid] <= answered
    ensures Answering(log, 17, [a, b], answered)
  {
    RetriedTraffic(log, a, b, sid);
  }

  /** The answer to the accept that was given up comes late, and its session is served as the next one. */
  lemma StaleAnswerIsServed(log: seq<Event>, a: string, b: string)
    requires Retried(log, a, b, a)
    ensures Approved(log) && Answering(log, 17, [a, b], [a, b]) && log[17].sid == log[4].sid != log[9].sid
  {
    RetriedIsApproved(log, a, b, a);
    RetriedAnswering(log, a, b, a, [a, b], [0, 1]);
  }

  /** The accept that was given up is never answered, because its session is gone, and the next one is served. */
  lemma GoneSessionIsSkipped(log: seq<Event>, a: string, b: string)
    requires Retried(log, a, b, b)
    ensures Approved(log) && Answering(log, 17, [a, b], [b]) && log[17].sid == log[9].sid
  {
    RetriedIsApproved(log, a, b, b);
    RetriedAnswering(log, a, b, b, [b], [1]);
  }

  /**
   * A request is told "busy" only while another one is in hand or after an accept whose session has not been seen to
   * be over: never when the host is free, and not when it comes as a session ends.
   */
  lemma BusyHasCause(log: seq<Event>, k: nat) returns (i: nat)
    requires Approved(log) && k < |log| && log[k].Rejected? && log[k].why == WhenBusy
    ensures At(log, k).unanswered.Keys - {log[k].tag} != {}
            || (i < k && log[i].Accepted? && forall j :: i < j < k ==> !Over(log[j]))
  {
    assert Kept(log, k);
    var m := At(log, k);
    i := 0;
    if m.accepted.Some? {
      i := AcceptedTraced(log, k);
    }
    OthersWait(m.unanswered.Keys, log[k].tag);
  }

  lemma OthersWait(waiting: set<nat>, tag: nat)
    requires tag in waiting
    ensures waiting - {tag} != {} <==> waiting != {tag}
  {
    assert waiting == waiting - {tag} + {tag};
  }

  /** If a session has started and none is being served, one has ended in between. */
  lemma {:induction false} EndBefore(log: seq<Event>, i: nat, n: nat) returns (j: nat)
    requires i < n <= |log| && log[i].Started? && At(log, n).serving == None
    ensures i < j < n && log[j].Ended?
  {
    if log[n - 1].Ended? {
      j := n - 1;
    } else {
      j := EndBefore(log, i, n - 1);
    }
  }

  /** Between the starts of two sessions the first one has ended. */
  lemma SessionsDoNotOverlap(log: seq<Event>, i: nat, k: nat) returns (j: nat)
    requires Approved(log) && i < k < |log| && log[i].Started? && log[k].Started?
    ensures i < j < k && log[j].Ended?
  {
    assert Kept(log, k);
    j := EndBefore(log, i, k);
  }

  lemma {:induction false} BurnedStays(log: seq<Event>, i: nat, n: nat)
    requires i < n <= |log| && log[i].Ended? && log[i].code.Some? && !At(log, i).broke
    ensures log[i].code.value in At(log, n).burned
  {
    if i < n - 1 {
      BurnedStays(log, i, n - 1);
    }
  }

  /** A one-time code under which a session ended with the socket intact is in no later accept. */
  lemma CodesAreNotReused(log: seq<Event>, i: nat, k: nat)
    requires Approved(log) && i < k < |log| && log[k].Accepted?
    requires log[i].Ended? && log[i].code.Some? && !At(log, i).broke
    ensures log[k].code != log[i].code
  {
    assert Kept(log, k);
    BurnedStays(log, i, k);
  }

  predicate NoNewCode(log: seq<Event>, i: nat, n: nat)
    requires n <= |log|
  {
    forall j :: i <= j < n ==> !log[j].NewCode?
  }

  lemma CodeNext(log: seq<Event>, n: nat)
    requires 0 < n <= |log| && Approved(log)
    ensures if log[n - 1].NewCode? then At(log, n).code > At(log, n - 1).code else At(log, n).code == At(log, n - 1).code
  {
    assert Kept(log, n - 1);
  }

  lemma {:induction false} CodeGrows(log: seq<Event>, i: nat, n: nat)
    requires i <= n <= |log| && Approved(log)
    ensures At(log, i).code <= At(log, n).code
  {
    if i < n {
      CodeNext(log, n);
      CodeGrows(log, i, n - 1);
    }
  }

  lemma {:induction false} CodeTraced(log: seq<Event>, i: nat, n: nat, code: nat) returns (j: nat)
    requires i <= n <= |log| && At(log, i).code == code && At(log, n).code != code
    ensures i <= j < n && log[j].NewCode?
  {
    if log[n - 1].NewCode? {
      j := n - 1;
    } else {
      j := CodeTraced(log, i, n - 1, code);
    }
  }

  /** Codes are numbered upwards, so the current code is unchanged exactly if none was generated. */
  lemma CodeSince(log: seq<Event>, i: nat, n: nat)
    requires i <= n <= |log| && Approved(log)
    ensures At(log, i).code == At(log, n).code <==> NoNewCode(log, i, n)
  {
    if At(log, i).code != At(log, n).code {
      var j := CodeTraced(log, i, n, At(log, i).code);
    }
    if !NoNewCode(log, i, n) {
      var j :| i <= j < n && log[j].NewCode?;
      CodeGrows(log, i, j);
      CodeNext(log, j + 1);
      CodeGrows(log, j + 1, n);
    }
  }

  lemma CodeAt(log: seq<Event>, k: nat)
    requires Approved(log) && k < |log| && (log[k].Accepted? || log[k].Ended?) && log[k].code.Some?
    ensures log[k].code == Some(At(log, k).code)
  {
    assert Kept(log, k);
  }

  /**
   * A later accept uses the code of an ended session again if and only if no code was generated in between; and then the
   * socket had broken by the end of that session.
   */
  lemma CodeReusedIff(log: seq<Event>, i: nat, k: nat)
    requires Approved(log) && i < k < |log| && log[i].Ended? && log[i].code.Some? && log[k].Accepted? && log[k].code.Some?
    ensures log[k].code == log[i].code <==> NoNewCode(log, i, k)
    ensures log[k].code == log[i].code ==> At(log, i).broke
  {
    CodeAt(log, i);
    CodeAt(log, k);
    CodeSince(log, i, k);
    if !At(log, i).broke {
      CodesAreNotReused(log, i, k);
    }
  }

  /** A log of the loop in which the socket breaks during a session, and its code serves the next one. */
  predicate BrokenSession(log: seq<Event>, a: string, b: string) {
    && |log| == 19 && log[0] == NewCode(1) && log[1] == Connected
    && log[2] == Consumed(0, true) && log[3] == Attended(0, false) && log[4] == Accepted(0, a, Some(1))
    && StartsAt(log, 5, 0, a) && log[13] == Broke && log[14] == Ended(0, Some(1))
    && log[15] == Connected && log[16] == Consumed(1, true) && log[17] == Attended(1, false)
    && log[18] == Accepted(1, b, Some(1))
  }

  lemma Reconnecting(log: seq<Event>, n: nat)
    requires n < |log| && log[n] == Connected
    requires var m := At(log, n); m.unanswered == map[] && m.accepted == None && m.serving == None
    ensures Kept(log, n) && At(log, n + 1) == At(log, n).(broke := false)
  {
    assert At(log, n).lost + At(log, n).unanswered.Keys == At(log, n).lost;
  }

  const BROKEN := Granted(FRESH.(code := 1), Some(1)).(serving := None, accepted := None)

  lemma SessionBreaks(log: seq<Event>, a: string, b: string)
    requires BrokenSession(log, a, b)
    ensures KeptFrom(log, 0, 15) && At(log, 15) == BROKEN.(ready := Some(a), steps := ALL_STEPS, broke := true)
  {
    FirstCode(log);
    Accepting(log, 2, true, a, Some(1));
    var m := Granted(FRESH.(code := 1), Some(1));
    Starting(log, 5, m, 0, a);
    var started := m.(ready := Some(a), steps := ALL_STEPS, serving := Some(0));
    Breaking(started, 0);
    AfterTwo(log, 13, started.(broke := true, serving := None, accepted := None));
  }

  lemma CodeSurvivesBrokenSocket(log: seq<Event>, a: string, b: string)
    requires BrokenSession(log, a, b)
    ensures Approved(log) && log[18].code == log[14].code
  {
    SessionBreaks(log, a, b);
    Reconnecting(log, 15);
    Accepting(log, 16, true, b, Some(1));
    assert KeptFrom(log, 15, 19);
  }

  // ------------------------------------------------------ under which password

  /** What is known of a waiting request is what was read of it. */
  lemma {:induction false} WaitingTraced(log: seq<Event>, tag: nat, n: nat) returns (read: nat)
    requires n <= |log| && tag in At(log, n).unanswered
    ensures read < n && log[read] == Consumed(tag, At(log, n).unanswered[tag])
  {
    if log[n - 1].Consumed? && log[n - 1].tag == tag {
      read := n - 1;
    } else {
      read := WaitingTraced(log, tag, n - 1);
    }
  }

  lemma {:induction false} CountBound(log: seq<Event>, i: nat, n: nat)
    requires i < n <= |log| && Approved(log) && log[i].Consumed?
    ensures log[i].tag < At(log, n).count
  {
    assert Kept(log, n - 1);
    if i < n - 1 {
      CountBound(log, i, n - 1);
    }
  }

  /** No two requests read bear the same tag. */
  lemma ReadOnce(log: seq<Event>, i: nat, k: nat)
    requires Approved(log) && i < k < |log| && log[i].Consumed? && log[k].Consumed?
    ensures log[i].tag < log[k].tag
  {
    CountBound(log, i, k);
    assert Kept(log, k);
  }

  lemma {:induction false} CodeMade(log: seq<Event>, n: nat) returns (made: nat)
    requires n <= |log| && At(log, n).code > 0
    ensures made < n && log[made] == NewCode(At(log, n).code) && NoNewCode(log, made + 1, n)
  {
    if log[n - 1].NewCode? {
      made := n - 1;
    } else {
      made := CodeMade(log, n - 1);
    }
  }

  /**
   * A request that asks for the one-time code is accepted under the code generated last before, and any other request
   * under no one-time code.
   */
  lemma AcceptedPassword(log: seq<Event>, k: nat) returns (read: nat, made: nat)
    requires Approved(log) && k < |log| && log[k].Accepted?
    ensures read < k && log[read].Consumed? && log[read].tag == log[k].tag
    ensures if log[read].oneTime
            then made < k && log[made].NewCode? && log[k].code == Some(log[made].number) && NoNewCode(log, made + 1, k)
            else log[k].code == None
  {
    assert Kept(log, k);
    made := 0;
    read := WaitingTraced(log, log[k].tag, k);
    if log[read].oneTime {
      made := CodeMade(log, k);
    }
  }

  lemma {:induction false} UsedTraced(log: seq<Event>, n: nat) returns (i: nat)
    requires n <= |log| && At(log, n).used.Some?
    ensures i < n && log[i].Accepted? && At(log, n).used == Some((log[i].tag, log[i].code))
    ensures forall k :: i < k < n ==> !log[k].Accepted?
  {
    if log[n - 1].Accepted? {
      i := n - 1;
    } else {
      i := UsedTraced(log, n - 1);
    }
  }

  /** A session ends as that of the last accept, with the code it was accepted under. */
  lemma EndedPassword(log: seq<Event>, k: nat) returns (i: nat)
    requires Approved(log) && k < |log| && log[k].Ended?
    ensures i < k && log[i].Accepted? && log[i].tag == log[k].tag && log[i].code == log[k].code
    ensures forall j :: i < j < k ==> !log[j].Accepted?
  {
    assert Kept(log, k);
    i := UsedTraced(log, k);
  }

  lemma {:induction false} RotateStays(log: seq<Event>, j: nat, n: nat)
    requires j < n <= |log| && log[j].RotateSeen? && NoNewCode(log, j, n)
    ensures At(log, n).rotate
  {
    if j < n - 1 {
      RotateStays(log, j, n - 1);
    }
  }

  lemma {:induction false} RotateTraced(log: seq<Event>, n: nat) returns (j: nat)
    requires n <= |log| && At(log, n).rotate
    ensures j < n && log[j].RotateSeen? && NoNewCode(log, j, n)
  {
    if log[n - 1].RotateSeen? {
      j := n - 1;
    } else {
      j := RotateTraced(log, n - 1);
    }
  }

  lemma {:induction false} BurnTraced(log: seq<Event>, code: nat, n: nat) returns (j: nat)
    requires n <= |log| && code in At(log, n).burned
    ensures j < n && log[j].Ended? && log[j].code == Some(code) && !At(log, j).broke
  {
    if log[n - 1].Ended? && log[n - 1].code == Some(code) && !At(log, n - 1).broke {
      j := n - 1;
    } else {
      j := BurnTraced(log, code, n - 1);
    }
  }

  /** Once a new code is asked for, one is generated before anything else is accepted. */
  lemma RotationPrecedesAccept(log: seq<Event>, j: nat, k: nat)
    requires Approved(log) && j < k < |log| && log[j].RotateSeen? && log[k].Accepted?
    ensures !NoNewCode(log, j, k)
  {
    assert Kept(log, k);
    if NoNewCode(log, j, k) {
      RotateStays(log, j, k);
    }
  }

  /**
   * After the first code, one is generated only when it was asked for or a session under the last one ended with the
   * socket intact, since the code before.
   */
  lemma NewCodeHasCause(log: seq<Event>, i: nat, k: nat) returns (j: nat)
    requires Approved(log) && i < k < |log| && log[i].NewCode? && log[k].NewCode?
    ensures j < k && NoNewCode(log, j, k)
    ensures log[j].RotateSeen? || (log[j].Ended? && log[j].code == Some(At(log, k).code) && !At(log, j).broke)
  {
    assert Kept(log, k);
    CodeNext(log, i + 1);
    CodeGrows(log, i + 1, k);
    if At(log, k).rotate {
      j := RotateTraced(log, k);
    } else {
      j := BurnTraced(log, At(log, k).code, k);
      CodeAt(log, j);
      CodeSince(log, j, k);
    }
  }

  // ------------------------------------------------------- when it is given up

  /** The host is stopping, a deadline has passed, or a step of setting up the session has failed. */
  predicate Interruption(e: Event) { e.StopSeen? || e.Expired? || e.StepFailed? }

  lemma {:induction false} ExcuseTraced(log: seq<Event>, n: nat) returns (j: nat)
    requires n <= |log| && At(log, n).excuse
    ensures j < n && Interruption(log[j]) && forall k :: j < k < n ==> !log[k].Accepted?
  {
    if Interruption(log[n - 1]) {
      j := n - 1;
    } else {
      j := ExcuseTraced(log, n - 1);
    }
  }

  lemma {:induction false} ExcuseStays(log: seq<Event>, j: nat, n: nat)
    requires j < n <= |log| && Interruption(log[j]) && forall k :: j < k < n ==> !log[k].Accepted?
    ensures At(log, n).excuse
  {
    if j < n - 1 {
      ExcuseStays(log, j, n - 1);
    }
  }

  /** An accepted session is given up only after a stop, a deadline or a failed step since its accept. */
  lemma GivenUpForCause(log: seq<Event>, k: nat) returns (i: nat, j: nat)
    requires Approved(log) && k < |log| && log[k].GaveUp?
    ensures i < j < k && log[i].Accepted? && Interruption(log[j])
    ensures forall l :: i < l < k ==> !log[l].Accepted? && !Over(log[l])
  {
    assert Kept(log, k);
    i := AcceptedTraced(log, k);
    j := ExcuseTraced(log, k);
  }

  lemma OtherStep(s: Setup, other: SetupStep, step: SetupStep)
    requires other != step
    ensures With(With(s, other), step) == With(s, other) <==> With(s, step) == s
  {
  }

  lemma {:induction false} StepTraced(log: seq<Event>, step: SetupStep, n: nat) returns (j: nat)
    requires n <= |log| && With(At(log, n).steps, step) == At(log, n).steps
    ensures j < n && log[j] == StepDone(step) && forall k :: j < k < n ==> !log[k].Accepted?
  {
    if log[n - 1] == StepDone(step) {
      j := n - 1;
    } else {
      if log[n - 1].StepDone? {
        OtherStep(At(log, n - 1).steps, log[n - 1].step, step);
      }
      j := StepTraced(log, step, n - 1);
    }
  }

  /**
   * A session starts for the last accept, only once every step of setting it up has succeeded since, up to the
   * confirmation of the key; and nothing has interrupted it since.
   */
  lemma StartedInTime(log: seq<Event>, k: nat) returns (i: nat)
    requires Approved(log) && k < |log| && log[k].Started?
    ensures i < k && log[i].Accepted? && log[i].tag == log[k].tag
    ensures forall j :: i < j < k ==> !log[j].Accepted? && !Interruption(log[j])
    ensures forall step: SetupStep :: exists j :: i < j < k && log[j] == StepDone(step)
  {
    assert Kept(log, k);
    i := AcceptedTraced(log, k);
    forall step: SetupStep ensures exists j :: i < j < k && log[j] == StepDone(step) {
      var j := StepTraced(log, step, k);
    }
    forall j | i < j < k ensures !Interruption(log[j]) {
      if Interruption(log[j]) {
        ExcuseStays(log, j, k);
      }
    }
  }

  /** A request is accepted and nothing has happened to its session yet. */
  ghost predicate Hanging(m: Monitor, tag: nat) {
    m.accepted == Some(tag) && !m.excuse && m.serving == None && !m.broke
  }

  lemma StillHanging(m: Monitor, e: Event, tag: nat)
    requires InOrder(m, e) && Hanging(m, tag) && !e.Started? && !Interruption(e) && !e.Broke?
    ensures Hanging(Watch(m, e), tag)
  {
  }

  lemma {:induction false} UnderWay(log: seq<Event>, i: nat, n: nat)
    requires i < n <= |log| && Approved(log) && log[i].Accepted?
    requires forall j :: i < j < n ==> !log[j].Started? && !Interruption(log[j]) && !log[j].Broke?
    ensures Hanging(At(log, n), log[i].tag)
  {
    assert Kept(log, n - 1);
    if i < n - 1 {
      UnderWay(log, i, n - 1);
      StillHanging(At(log, n - 1), log[n - 1], log[i].tag);
    }
  }

  /**
   * Before the next accept, or the next socket, an accepted session is started, unless the host is stopped, a deadline
   * passes, a step fails or the socket breaks.
   */
  lemma AcceptIsFollowed(log: seq<Event>, i: nat, k: nat) returns (j: nat)
    requires Approved(log) && i < k < |log| && log[i].Accepted? && (log[k].Accepted? || log[k].Connected?)
    ensures i < j < k && (log[j].Started? || Interruption(log[j]) || log[j].Broke?)
  {
    assert Kept(log, k);
    if forall j :: i < j < k ==> !log[j].Started? && !Interruption(log[j]) && !log[j].Broke? {
      UnderWay(log, i, k);
      assert false;
    } else {
      j :| i < j < k && (log[j].Started? || Interruption(log[j]) || log[j].Broke?);
    }
  }

  /** A session is being served and there is no cause yet to leave it. */
  ghost predicate Running(m: Monitor, tag: nat) {
    m.serving == m.accepted == Some(tag) && !m.excuse && !m.broke
  }

  lemma StillRunning(m: Monitor, e: Event, tag: nat)
    requires InOrder(m, e) && Running(m, tag) && !e.DoneSeen? && !e.StopSeen? && !e.Broke?
    ensures Running(Watch(m, e), tag)
  {
  }

  lemma {:induction false} RunsOn(log: seq<Event>, i: nat, n: nat)
    requires i < n <= |log| && Approved(log) && log[i].Started?
    requires forall j :: i < j < n ==> !log[j].DoneSeen? && !log[j].StopSeen? && !log[j].Broke?
    ensures Running(At(log, n), log[i].tag)
  {
    assert Kept(log, n - 1);
    if i < n - 1 {
      RunsOn(log, i, n - 1);
      StillRunning(At(log, n - 1), log[n - 1], log[i].tag);
    }
  }

  lemma {:induction false} ServingTraced(log: seq<Event>, n: nat) returns (i: nat)
    requires n <= |log| && At(log, n).serving.Some?
    ensures i < n && log[i].Started? && log[i].tag == At(log, n).serving.value
    ensures forall k :: i < k < n ==> !log[k].Started? && !log[k].Ended?
  {
    if log[n - 1].Started? {
      i := n - 1;
    } else {
      i := ServingTraced(log, n - 1);
    }
  }

  /** A session that was started is joined only once it is seen to be over, the host is stopped or the socket broke. */
  lemma EndedForCause(log: seq<Event>, k: nat) returns (i: nat, j: nat)
    requires Approved(log) && k < |log| && log[k].Ended?
    ensures i < j < k && log[i].Started? && log[i].tag == log[k].tag
    ensures log[j].DoneSeen? || log[j].StopSeen? || log[j].Broke?
  {
    assert Kept(log, k);
    i := ServingTraced(log, k);
    if forall j :: i < j < k ==> !log[j].DoneSeen? && !log[j].StopSeen? && !log[j].Broke? {
      RunsOn(log, i, k);
      assert false;
    } else {
      j :| i < j < k && (log[j].DoneSeen? || log[j].StopSeen? || log[j].Broke?);
    }
  }

  lemma {:induction false} DrainTraced(log: seq<Event>, n: nat) returns (j: nat)
    requires n <= |log| && At(log, n).drained
    ensures j < n && log[j].NoDecision? && forall k :: j < k < n ==> !log[k].Decided?
  {
    if log[n - 1].NoDecision? {
      j := n - 1;
    } else {
      j := DrainTraced(log, n - 1);
    }
  }

  /** A question is asked only when the decisions were found read away, so none read after it was waiting before that. */
  lemma AskedWhenDrained(log: seq<Event>, k: nat) returns (j: nat)
    requires Approved(log) && k < |log| && log[k].Minted?
    ensures j < k && log[j].NoDecision? && forall l :: j < l < k ==> !log[l].Decided?
  {
    assert Kept(log, k);
    j := DrainTraced(log, k);
  }

  /** What settles a question against the request: a stop, the deadline, or `false` under the id of the question. */
  predicate Denies(e: Event, rid: nat) { e.StopSeen? || e.Expired? || e == Decided(rid, false) }

  /** What was decided on a question since it was asked, in order of events. */
  lemma {:induction false} Outcome(log: seq<Event>, asked: nat, n: nat)
    requires asked < n <= |log| && log[asked].Minted? && forall j :: asked < j < n ==> !log[j].Minted?
    ensures var m := At(log, n);
            && m.question == Some((log[asked].rid, log[asked].tag))
            && (m.denial <==> exists j :: asked < j < n && Denies(log[j], log[asked].rid))
            && (m.approved == Some(log[asked].tag) <==>
                exists j :: asked < j < n && log[j] == Decided(log[asked].rid, true))
  {
    if asked < n - 1 {
      Outcome(log, asked, n - 1);
    }
  }

  /**
   * A request is denied only on a question about it: with no `true` under its id, and a `false`, a stop or the deadline
   * since it was asked.
   */
  lemma DeniedForCause(log: seq<Event>, k: nat) returns (asked: nat, j: nat)
    requires Approved(log) && k < |log| && log[k].Rejected? && log[k].why == WhenDenied
    ensures asked < j < k && log[asked].Minted? && log[asked].tag == log[k].tag && Denies(log[j], log[asked].rid)
    ensures forall l :: asked < l < k ==> !log[l].Minted? && log[l] != Decided(log[asked].rid, true)
  {
    assert Kept(log, k);
    asked := QuestionTraced(log, At(log, k).question.value.0, log[k].tag, k);
    Outcome(log, asked, k);
    j :| asked < j < k && Denies(log[j], log[asked].rid);
  }
}
