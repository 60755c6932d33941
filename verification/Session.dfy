/**
 * A direction of the session with the handshake that precedes it on the same channel. Both sides exchange their PAKE and
 * binding messages in batches; whatever else arrives meanwhile is deferred. The sender goes on once it is confirmed,
 * which may be long before the receiver is. This machine refines the plain pipeline. It is told for the media, from host
 * to controller; with the two roles swapped and messages left whole it is the way from controller to host.
 */
module Session {
  import opened Base
  import opened Crypto
  import opened Packets
  import Handshake
  import Pipeline
  import opened Uplink

  /** What travels to the controller: handshake messages, and the chunks and marker of the pipeline. */
  datatype Item = Shake(message: Handshake.Message) | Raw(bytes: seq<Byte>)

  /**
   * The two passwords and fingerprints, the stream cipher under a session key, whether messages travel whole, and the
   * form of handshake messages.
   */
  datatype Params = Params(
    setup: Handshake.Setup, cipher: Handshake.Key -> Aead, whole: bool, json: Handshake.Message -> seq<Byte>)

  /** The line as a side with the given key sees it. */
  function LineUnder(w: Params, key: Handshake.Key): Line { Line(w.cipher(key), w.whole) }

  function Text(w: Params, item: Item): seq<Byte> {
    match item
    case Shake(m) => w.json(m)
    case Raw(b) => b
  }

  /**
   * The host, the items on the network to the controller, those in the controller's transport, and the controller: the
   * inbox of its handshake loop, the rest of the batch it is going through (while `busy`; `replied` right after a reply,
   * when the loop drains the transport in the middle of the batch), and the end of the pipeline. `net` holds both
   * handshakes, the controller's first, and the messages under way to the host; its `toA` and `schedule` are histories:
   * the handshake messages the controller has not taken, and which side took one when.
   */
  datatype Session = Session(
    net: Handshake.Net, host: Pipeline.Host, channel: seq<Item>, buffered: seq<Item>,
    inbox: seq<Item>, batch: seq<Item>, busy: bool, replied: bool, viewer: Pipeline.Viewer, schedule: seq<bool>)

  function Items(ms: seq<Handshake.Message>): (items: seq<Item>)
    ensures |items| == |ms|
  {
    seq(|ms|, k requires 0 <= k < |ms| => Shake(ms[k]))
  }

  function Begin(w: Params): Session {
    var n := Handshake.Begin(w.setup);
    Session(n, Pipeline.NEW_HOST, Items(n.toA), [], [], [], false, false, Pipeline.NEW_VIEWER, [])
  }

  datatype Step =
    | HostTakes                  // the host takes a handshake message and replies
    | Produce(plain: seq<Byte>)  // the host, once confirmed, seals and cuts a message into its queue
    | Write                      // the channel accepts the front of the queue
    | Bye                        // the host loop ends and writes the marker
    | Arrive                     // the controller reads the network into its transport
    | Drain                      // its transport hands over a message
    | TakeBatch                  // its handshake loop starts on what lies in its inbox
    | Take                       // and takes the next message of the batch
    | EndBatch                   // until the batch is empty
    | Confirm                    // it finds the handshake confirmed and goes on with the deferred messages alone
    | Consume                    // one pass of the controller loop over its inbox

  predicate Waiting(s: Handshake.State) { s.AwaitingPake? || s.AwaitingBinding? }

  predicate Hosting(st: Session) { st.net.b.state.Confirmed? && !st.host.done }

  /** The network is read between batches only; in a batch the transport is drained only after a reply. */
  predicate Enabled(w: Params, st: Session, s: Step) {
    match s
    case HostTakes => st.net.toB != []
    case Produce(p) =>
      Hosting(st) && FitsOn(LineUnder(w, st.net.b.state.confirmed), st.host, p)
    case Write => Hosting(st) && st.host.queue != []
    case Bye => Hosting(st)
    case Arrive => st.channel != [] && !st.busy
    case Drain => MayDrain(st)
    case TakeBatch => !st.viewer.confirmed && !st.busy && Waiting(st.net.a.state)
    case Take => st.busy && st.batch != []
    case EndBatch => st.busy && st.batch == []
    case Confirm => !st.viewer.confirmed && !st.busy && st.net.a.state.Confirmed?
    case Consume => st.viewer.confirmed && !st.viewer.ended && st.net.a.state.Confirmed?
  }

  predicate MayDrain(st: Session) {
    st.buffered != []
    && (if st.viewer.confirmed then !st.viewer.ended else if st.busy then st.replied else Waiting(st.net.a.state))
  }

  function HostTook(st: Session): Session
    requires st.net.toB != []
  {
    var reply := Handshake.Respond(st.net.b.ownFp, st.net.b.peerFp, st.net.b.state, st.net.toB[0]).1;
    st.(net := Handshake.Deliver(st.net, false), channel := st.channel + Items(Handshake.Sent(reply)),
        schedule := st.schedule + [false])
  }

  /** The host sends an item behind everything it sent before. */
  function HostSent(st: Session, host: Pipeline.Host, bytes: seq<Byte>): Session {
    st.(host := host, channel := st.channel + [Raw(bytes)])
  }

  function Arrived(st: Session): Session
    requires st.channel != []
  {
    st.(channel := st.channel[1..], buffered := st.buffered + [st.channel[0]])
  }

  function Drained(w: Params, st: Session): Session
    requires st.buffered != []
  {
    var st1 := st.(buffered := st.buffered[1..]);
    if st.viewer.confirmed then
      st1.(viewer := st.viewer.(inbox := st.viewer.inbox + [Text(w, st.buffered[0])]))
    else st1.(inbox := st.inbox + [st.buffered[0]])
  }

  function Batched(st: Session): Session { st.(batch := st.inbox, inbox := [], busy := true, replied := false) }

  /** One message of the batch: the handshake takes it and may reply, or it is deferred. */
  function Taken(st: Session): Session
    requires st.batch != []
  {
    match st.batch[0]
    case Raw(b) =>
      st.(batch := st.batch[1..], replied := false, viewer := st.viewer.(deferred := st.viewer.deferred + [b]))
    case Shake(m) =>
      var (s, reply) := Handshake.Respond(st.net.a.ownFp, st.net.a.peerFp, st.net.a.state, m);
      var n := st.net.(a := st.net.a.(state := s), toB := st.net.toB + Handshake.Sent(reply),
                       toA := if st.net.toA != [] then st.net.toA[1..] else []);
      st.(batch := st.batch[1..], replied := reply.Some?, net := n, schedule := st.schedule + [true])
  }

  function Rested(st: Session): Session { st.(busy := false, replied := false) }

  /** The inbox of the handshake loop is not handed on. */
  function Resumed(st: Session): Session {
    st.(inbox := [], viewer := st.viewer.(confirmed := true, inbox := st.viewer.deferred, deferred := []))
  }

  function Next(w: Params, st: Session, s: Step): Session
    requires Enabled(w, st, s)
  {
    match s
    case HostTakes => HostTook(st)
    case Produce(p) => st.(host := SealedOn(LineUnder(w, st.net.b.state.confirmed), st.host, p))
    case Write => HostSent(st, Pipeline.Handed(st.host), st.host.queue[0])
    case Bye => HostSent(st, st.host.(done := true), Pipeline.SESSION_BYE)
    case Arrive => Arrived(st)
    case Drain => Drained(w, st)
    case TakeBatch => Batched(st)
    case Take => Taken(st)
    case EndBatch => Rested(st)
    case Confirm => Resumed(st)
    case Consume => st.(viewer := ConsumedOn(LineUnder(w, st.net.a.state.confirmed), st.viewer))
  }

  // ---------------------------------------------------------------- invariant

  /** Everything sent to the controller that it has not taken, oldest first. */
  function Pending(st: Session): seq<Item> { st.batch + st.inbox + st.buffered + st.channel }

  /** The handshake messages are in front. */
  predicate Front(items: seq<Item>, ms: seq<Handshake.Message>) {
    && |ms| <= |items|
    && (forall k :: 0 <= k < |ms| ==> items[k] == Shake(ms[k]))
    && forall k :: |ms| <= k < |items| ==> items[k].Raw?
  }

  /** The host has sent nothing but the handshake before it is confirmed. */
  ghost predicate Met(st: Session) {
    && Front(Pending(st), st.net.toA)
    && (!st.net.b.state.Confirmed? ==> st.host == Pipeline.NEW_HOST && |Pending(st)| == |st.net.toA|)
  }

  /** How far the two handshakes can be apart; `key` is the controller's. */
  ghost predicate Orderly(key: Handshake.Key, n: Handshake.Net) {
    && (n.a.state.AwaitingPake? ==> !n.b.state.Confirmed? && |n.toA| <= 2)
    && (n.a.state.Confirmed? ==> n.toA == [] && n.a.state.confirmed == key)
    && (n.b.state.Confirmed? ==> n.toB == [] && n.b.state.confirmed == key)
    && (n.toA != [] ==> if n.toA[0].Pake? then n.a.state.AwaitingPake? else n.a.state.AwaitingBinding?)
  }

  /** Where the controller's loop is; above all, what its inbox holds when. */
  ghost predicate Looping(st: Session) {
    && (!st.busy ==> st.batch == [] && !st.replied)
    && (st.batch != [] ==> st.inbox == [])
    && (st.replied ==> st.net.a.state.AwaitingBinding? && (st.batch != [] ==> st.buffered == []))
    && (st.net.a.state.Confirmed? ==> st.inbox == [])
    && (if st.viewer.confirmed then st.net.a.state.Confirmed? && !st.busy else st.viewer.inbox == [] && !st.viewer.ended)
  }

  ghost predicate Core(w: Params, st: Session) {
    Met(st) && Looping(st) && Orderly(Handshake.KeyA(w.setup), st.net)
  }

  /** The network is one that the handshake can reach. */
  ghost predicate Shaken(w: Params, st: Session) { Handshake.Run(w.setup, st.schedule) == Some(st.net) }

  ghost predicate Inv(w: Params, st: Session) { Core(w, st) && Shaken(w, st) }

  lemma RunIsOrderly(p: Handshake.Setup, schedule: seq<bool>)
    requires Handshake.Run(p, schedule).Some?
    ensures Orderly(Handshake.KeyA(p), Handshake.Run(p, schedule).value)
  {
    Handshake.RunMeets(p, schedule);
  }

  lemma Delivered(w: Params, st: Session, left: bool)
    requires Shaken(w, st) && (if left then st.net.toA else st.net.toB) != []
    ensures Handshake.Run(w.setup, st.schedule + [left]) == Some(Handshake.Deliver(st.net, left))
    ensures Orderly(Handshake.KeyA(w.setup), Handshake.Deliver(st.net, left))
  {
    assert (st.schedule + [left])[..|st.schedule|] == st.schedule;
    RunIsOrderly(w.setup, st.schedule + [left]);
  }

  // --------------------------------------------------------------- refinement

  function Raws(w: Params, items: seq<Item>): (raws: seq<seq<Byte>>)
    ensures |raws| == |items|
  {
    seq(|items|, k requires 0 <= k < |items| => Text(w, items[k]))
  }

  /** What is pending behind the handshake. */
  ghost function Media(st: Session): seq<Item>
    requires Met(st)
  {
    Pending(st)[|st.net.toA|..]
  }

  /** The pipeline that a session amounts to. */
  ghost function Abs(w: Params, st: Session): Pipeline.Pipe
    requires Met(st)
  {
    Pipeline.Pipe(st.host, Raws(w, Media(st)), st.viewer)
  }

  /** The line of the session: that under the controller's key. */
  function LineOf(w: Params): Line { LineUnder(w, Handshake.KeyA(w.setup)) }

  /** One pipeline state leads to another by the given steps. */
  ghost predicate Leads(l: Line, x: Pipeline.Pipe, steps: seq<Pipeline.Step>, y: Pipeline.Pipe)
    decreases |steps|
  {
    if steps == [] then x == y
    else May(l, x, steps[0]) && Leads(l, Then(l, x, steps[0]), steps[1..], y)
  }

  lemma LeadsByOne(l: Line, x: Pipeline.Pipe, s: Pipeline.Step)
    requires May(l, x, s)
    ensures Leads(l, x, [s], Then(l, x, s))
  {
    assert [s][1..] == [];
  }

  lemma LeadsByTwo(l: Line, x: Pipeline.Pipe, s: Pipeline.Step, t: Pipeline.Step)
    requires May(l, x, s) && May(l, Then(l, x, s), t)
    ensures Leads(l, x, [s, t], Then(l, Then(l, x, s), t))
  {
    LeadsByOne(l, Then(l, x, s), t);
    assert [s, t][1..] == [t];
  }

  lemma {:induction false} RunLeads(
      l: Line, run: seq<Pipeline.Step>, x: Pipeline.Pipe, steps: seq<Pipeline.Step>, y: Pipeline.Pipe)
    requires RunOn(l, run) == Some(x) && Leads(l, x, steps, y)
    ensures RunOn(l, run + steps) == Some(y)
    decreases |steps|
  {
    if steps == [] {
      assert run + steps == run;
    } else {
      MoveFront(run, steps);
      RunOnSnoc(l, run, steps[0], x);
      RunLeads(l, run + [steps[0]], Then(l, x, steps[0]), steps[1..], y);
    }
  }

  /** What a step of the session is in the pipeline: one step, two for a deferred message, or none. */
  function Moves(st: Session, s: Step): seq<Pipeline.Step> {
    match s
    case Produce(p) => [Pipeline.Produce(p)]
    case Write => [Pipeline.Write]
    case Bye => [Pipeline.Bye]
    case Drain => if st.viewer.confirmed then [Pipeline.Deliver] else []
    case Take => if st.batch != [] && st.batch[0].Raw? then [Pipeline.Deliver, Pipeline.Defer] else []
    case Confirm => [Pipeline.Confirm]
    case Consume => [Pipeline.Consume]
    case _ => []
  }

  ghost predicate Refined(w: Params, st: Session, st1: Session, moves: seq<Pipeline.Step>)
    requires Met(st)
  {
    Inv(w, st1) && Leads(LineOf(w), Abs(w, st), moves, Abs(w, st1))
  }

  /** Moving messages along changes nothing in the pipeline. */
  lemma Shifted(w: Params, st: Session, st1: Session)
    requires Inv(w, st) && Looping(st1) && Pending(st1) == Pending(st)
    requires st1.net == st.net && st1.host == st.host && st1.viewer == st.viewer && st1.schedule == st.schedule
    ensures Refined(w, st, st1, [])
  {
  }

  lemma ArriveRefines(w: Params, st: Session)
    requires Inv(w, st) && st.channel != [] && !st.busy
    ensures Refined(w, st, Arrived(st), [])
  {
    MoveFront(st.batch + st.inbox + st.buffered, st.channel);
    Assoc(st.batch + st.inbox, st.buffered, [st.channel[0]]);
    Shifted(w, st, Arrived(st));
  }

  lemma DrainShifts(w: Params, st: Session)
    requires Inv(w, st) && MayDrain(st) && !st.viewer.confirmed
    ensures Refined(w, st, Drained(w, st), [])
  {
    MoveFront(st.batch + st.inbox, st.buffered);
    Assoc(st.batch, st.inbox, [st.buffered[0]]);
    Shifted(w, st, Drained(w, st));
  }

  lemma BatchRefines(w: Params, st: Session)
    requires Inv(w, st) && !st.viewer.confirmed && !st.busy && Waiting(st.net.a.state)
    ensures Refined(w, st, Batched(st), [])
  {
    assert st.batch + st.inbox == st.inbox + [];
    Shifted(w, st, Batched(st));
  }

  lemma RestRefines(w: Params, st: Session)
    requires Inv(w, st) && st.busy && st.batch == []
    ensures Refined(w, st, Rested(st), [])
  {
    Shifted(w, st, Rested(st));
  }

  lemma FrontMore(items: seq<Item>, ms: seq<Handshake.Message>, more: seq<Handshake.Message>)
    requires Front(items, ms) && |items| == |ms|
    ensures Front(items + Items(more), ms + more) && |items + Items(more)| == |ms + more|
  {
  }

  lemma HostTakesRefines(w: Params, st: Session)
    requires Inv(w, st) && st.net.toB != []
    ensures Refined(w, st, HostTook(st), [])
  {
    var st1, n1 := HostTook(st), Handshake.Deliver(st.net, false);
    Delivered(w, st, false);
    var reply := Handshake.Respond(st.net.b.ownFp, st.net.b.peerFp, st.net.b.state, st.net.toB[0]).1;
    Assoc(st.batch + st.inbox + st.buffered, st.channel, Items(Handshake.Sent(reply)));
    FrontMore(Pending(st), st.net.toA, Handshake.Sent(reply));
    assert Media(st) == [] && Media(st1) == [];
  }

  lemma ProduceRefines(w: Params, st: Session, p: seq<Byte>)
    requires Inv(w, st) && Enabled(w, st, Produce(p))
    ensures Refined(w, st, st.(host := SealedOn(LineOf(w), st.host, p)), [Pipeline.Produce(p)])
  {
    LeadsByOne(LineOf(w), Abs(w, st), Pipeline.Produce(p));
  }

  /** An item the host sends when it is confirmed lands at the end of the pipeline's channel. */
  lemma SentRefines(w: Params, st: Session, host: Pipeline.Host, bytes: seq<Byte>)
    requires Inv(w, st) && st.net.b.state.Confirmed?
    ensures var st1 := HostSent(st, host, bytes);
            Inv(w, st1) && Abs(w, st1) == Pipeline.Pipe(host, Abs(w, st).channel + [bytes], st.viewer)
  {
    SentIsLast(st, host, bytes);
    FrontRaw(w, Pending(st), st.net.toA, bytes);
  }

  lemma SentIsLast(st: Session, host: Pipeline.Host, bytes: seq<Byte>)
    ensures Pending(HostSent(st, host, bytes)) == Pending(st) + [Raw(bytes)]
  {
    Assoc(st.batch + st.inbox + st.buffered, st.channel, [Raw(bytes)]);
  }

  lemma FrontRaw(w: Params, items: seq<Item>, ms: seq<Handshake.Message>, bytes: seq<Byte>)
    requires Front(items, ms)
    ensures Front(items + [Raw(bytes)], ms)
    ensures Raws(w, (items + [Raw(bytes)])[|ms|..]) == Raws(w, items[|ms|..]) + [bytes]
  {
    assert (items + [Raw(bytes)])[|ms|..] == items[|ms|..] + [Raw(bytes)];
  }

  lemma WriteRefines(w: Params, st: Session)
    requires Inv(w, st) && Enabled(w, st, Write)
    ensures Refined(w, st, HostSent(st, Pipeline.Handed(st.host), st.host.queue[0]), [Pipeline.Write])
  {
    SentRefines(w, st, Pipeline.Handed(st.host), st.host.queue[0]);
    LeadsByOne(LineOf(w), Abs(w, st), Pipeline.Write);
  }

  lemma ByeRefines(w: Params, st: Session)
    requires Inv(w, st) && Enabled(w, st, Bye)
    ensures Refined(w, st, HostSent(st, st.host.(done := true), Pipeline.SESSION_BYE), [Pipeline.Bye])
  {
    SentRefines(w, st, st.host.(done := true), Pipeline.SESSION_BYE);
    LeadsByOne(LineOf(w), Abs(w, st), Pipeline.Bye);
  }

  /** The oldest pending message is the first of the batch. */
  lemma FirstPending(st: Session)
    requires st.batch != []
    ensures Pending(st) != [] && Pending(st)[0] == st.batch[0]
    ensures st.batch[1..] + st.inbox + st.buffered + st.channel == Pending(st)[1..]
  {
    var rest := st.batch[1..] + st.inbox + st.buffered + st.channel;
    assert Pending(st) == [st.batch[0]] + rest;
  }

  /** A reply finds the transport empty if the batch goes on: by then the host can only have sent two messages. */
  lemma TakenLoops(w: Params, st: Session)
    requires Inv(w, st) && st.busy && st.batch != [] && st.batch[0].Shake?
    ensures Looping(Taken(st))
  {
    FirstPending(st);
    assert st.net.toA != [] && st.batch[0].message == st.net.toA[0];
    if st.batch[0].message.Pake? {
      assert |Pending(st)| <= 2;
    }
  }

  /** The handshake message in front of a batch is the next one that the controller's handshake is to take. */
  lemma TakenIsNext(w: Params, st: Session)
    requires Inv(w, st) && st.busy && st.batch != [] && st.batch[0].Shake?
    ensures st.net.toA != [] && Taken(st).net == Handshake.Deliver(st.net, true)
    ensures Pending(Taken(st)) == Pending(st)[1..]
  {
    FirstPending(st);
    assert st.batch[0].message == st.net.toA[0];
  }

  lemma FrontTail(items: seq<Item>, ms: seq<Handshake.Message>)
    requires Front(items, ms) && ms != []
    ensures Front(items[1..], ms[1..]) && items[1..][|ms[1..]|..] == items[|ms|..]
  {
  }

  lemma TakenMeets(w: Params, st: Session)
    requires Inv(w, st) && st.busy && st.batch != [] && st.batch[0].Shake?
    ensures Met(Taken(st)) && Media(Taken(st)) == Media(st)
  {
    TakenIsNext(w, st);
    FrontTail(Pending(st), st.net.toA);
  }

  lemma TakeShakeRefines(w: Params, st: Session)
    requires Inv(w, st) && st.busy && st.batch != [] && st.batch[0].Shake?
    ensures Refined(w, st, Taken(st), [])
  {
    TakenIsNext(w, st);
    TakenLoops(w, st);
    TakenMeets(w, st);
    Delivered(w, st, true);
  }

  /** Once nothing of the handshake is pending, taking the oldest item takes it off the pipeline's channel. */
  lemma TakenOver(w: Params, st: Session, st1: Session)
    requires Met(st) && Pending(st) != [] && (st.net.toA == [] || Pending(st)[0].Raw?)
    requires st1.net == st.net && st1.host == st.host && Pending(st1) == Pending(st)[1..]
    ensures Met(st1) && Abs(w, st).channel != [] && Abs(w, st).channel[0] == Text(w, Pending(st)[0])
    ensures Abs(w, st1).channel == Abs(w, st).channel[1..]
  {
    assert st.net.toA == [];
    assert Media(st) == Pending(st) && Media(st1) == Pending(st1);
  }

  lemma TakeRawRefines(w: Params, st: Session)
    requires Inv(w, st) && st.busy && st.batch != [] && st.batch[0].Raw?
    ensures Refined(w, st, Taken(st), [Pipeline.Deliver, Pipeline.Defer])
  {
    FirstPending(st);
    TakenOver(w, st, Taken(st));
    LeadsByTwo(LineOf(w), Abs(w, st), Pipeline.Deliver, Pipeline.Defer);
  }

  lemma DrainRefines(w: Params, st: Session)
    requires Inv(w, st) && MayDrain(st) && st.viewer.confirmed
    ensures Refined(w, st, Drained(w, st), [Pipeline.Deliver])
  {
    DrainedIsNext(w, st);
    TakenOver(w, st, Drained(w, st));
    LeadsByOne(LineOf(w), Abs(w, st), Pipeline.Deliver);
  }

  lemma DrainedIsNext(w: Params, st: Session)
    requires st.buffered != [] && st.batch == st.inbox == [] && st.viewer.confirmed
    ensures Pending(st) != [] && Pending(st)[0] == st.buffered[0] && Pending(Drained(w, st)) == Pending(st)[1..]
  {
    assert Pending(st) == st.buffered + st.channel;
  }

  lemma ConfirmRefines(w: Params, st: Session)
    requires Inv(w, st) && Enabled(w, st, Confirm)
    ensures Refined(w, st, Resumed(st), [Pipeline.Confirm])
  {
    LeadsByOne(LineOf(w), Abs(w, st), Pipeline.Confirm);
  }

  lemma ConsumeRefines(w: Params, st: Session)
    requires Inv(w, st) && Enabled(w, st, Consume)
    ensures Refined(w, st, st.(viewer := ConsumedOn(LineOf(w), st.viewer)), [Pipeline.Consume])
  {
    LeadsByOne(LineOf(w), Abs(w, st), Pipeline.Consume);
  }

  /** Every step of the session keeps the invariant and is so many steps of the pipeline. */
  lemma StepRefines(w: Params, st: Session, s: Step)
    requires Inv(w, st) && Enabled(w, st, s)
    ensures Refined(w, st, Next(w, st, s), Moves(st, s))
  {
    match s
    case HostTakes => HostTakesRefines(w, st);
    case Produce(p) => ProduceRefines(w, st, p);
    case Write => WriteRefines(w, st);
    case Bye => ByeRefines(w, st);
    case Arrive => ArriveRefines(w, st);
    case Drain =>
      if st.viewer.confirmed {
        DrainRefines(w, st);
      } else {
        DrainShifts(w, st);
      }
    case TakeBatch => BatchRefines(w, st);
    case Take =>
      if st.batch[0].Raw? {
        TakeRawRefines(w, st);
      } else {
        TakeShakeRefines(w, st);
      }
    case EndBatch => RestRefines(w, st);
    case Confirm => ConfirmRefines(w, st);
    case Consume => ConsumeRefines(w, st);
  }

  // -------------------------------------------------------------------- runs

  function Run(w: Params, steps: seq<Step>): Option<Session>
    decreases |steps|
  {
    if steps == [] then Some(Begin(w))
    else
      var prev := Run(w, steps[..|steps| - 1]);
      var s := steps[|steps| - 1];
      if prev.Some? && Enabled(w, prev.value, s) then Some(Next(w, prev.value, s)) else None
  }

  lemma BeginsRight(w: Params)
    ensures Inv(w, Begin(w)) && Abs(w, Begin(w)) == Pipeline.START
  {
    var n := Handshake.Begin(w.setup);
    assert Pending(Begin(w)) == Items(n.toA);
    RunIsOrderly(w.setup, []);
  }

  /** Every run of the session is a run of the pipeline. */
  lemma {:induction false} SessionRefines(w: Params, steps: seq<Step>) returns (run: seq<Pipeline.Step>)
    requires Run(w, steps).Some?
    ensures Inv(w, Run(w, steps).value)
    ensures RunOn(LineOf(w), run) == Some(Abs(w, Run(w, steps).value))
    decreases |steps|
  {
    run := [];
    if steps == [] {
      BeginsRight(w);
    } else {
      var prev, s := Run(w, steps[..|steps| - 1]).value, steps[|steps| - 1];
      run := SessionRefines(w, steps[..|steps| - 1]);
      StepRefines(w, prev, s);
      RunLeads(LineOf(w), run, Abs(w, prev), Moves(prev, s), Abs(w, Next(w, prev, s)));
      run := run + Moves(prev, s);
    }
  }

  /** Nothing is lost at confirmation: whenever the controller finds the handshake confirmed, its loop's inbox is empty. */
  lemma NothingIsDropped(w: Params, steps: seq<Step>)
    requires Run(w, steps).Some? && Enabled(w, Run(w, steps).value, Confirm)
    ensures Run(w, steps).value.inbox == [] && Run(w, steps).value.batch == []
  {
    var _ := SessionRefines(w, steps);
  }

  /**
   * The session is a FIFO: in every run what the receiver has opened is a prefix of what the sender sealed, and all of
   * it once nothing is queued, under way or buffered.
   */
  lemma SessionIsFifo(w: Params, steps: seq<Step>)
    requires Run(w, steps).Some? && Correct(LineOf(w).aead)
    ensures var st := Run(w, steps).value;
            && st.viewer.received <= st.host.plains
            && (st.host.queue == [] && Pending(st) == [] && st.viewer.deferred == st.viewer.inbox == []
                ==> st.viewer.received == st.host.plains)
  {
    var run := SessionRefines(w, steps);
    LineIsFifo(LineOf(w), run);
  }

  /** The controller ends only because the host did, and by then it has consumed every chunk the host wrote. */
  lemma SessionEndsCleanly(w: Params, steps: seq<Step>)
    requires Run(w, steps).Some? && Run(w, steps).value.viewer.ended
    ensures var st := Run(w, steps).value; st.host.done && st.viewer.consumed == st.host.written
  {
    var run := SessionRefines(w, steps);
    LineEndsCleanly(LineOf(w), run);
  }

  /** Media is sealed and opened only by confirmed sides, and under one key. */
  lemma MediaUnderOneKey(w: Params, steps: seq<Step>)
    requires Run(w, steps).Some?
    ensures var st := Run(w, steps).value;
            && (st.host != Pipeline.NEW_HOST ==> st.net.b.state == Handshake.Confirmed(Handshake.KeyA(w.setup)))
            && (st.viewer.confirmed ==> st.net.a.state == Handshake.Confirmed(Handshake.KeyA(w.setup)))
  {
    var _ := SessionRefines(w, steps);
  }

  // ------------------------------------------------------ what runs there are

  lemma RunSnoc(w: Params, steps: seq<Step>, s: Step, st: Session)
    requires Run(w, steps) == Some(st) && Enabled(w, st, s)
    ensures Run(w, steps + [s]) == Some(Next(w, st, s))
  {
    assert (steps + [s])[..|steps|] == steps;
  }

  /** If the tags agree there is a run that confirms the host. */
  lemma HostCanBeConfirmed(w: Params) returns (steps: seq<Step>)
    requires Handshake.TagA(w.setup) == Handshake.TagB(w.setup)
    ensures Run(w, steps).Some?
    ensures var st := Run(w, steps).value; st.net.b.state.Confirmed? && st.host == Pipeline.NEW_HOST
  {
    var p, st0 := w.setup, Begin(w);
    assert {p.shareA, p.shareB} == {p.shareB, p.shareA};
    RunSnoc(w, [], HostTakes, st0);
    var st1 := HostTook(st0);
    assert st1.net.b.state == Handshake.AwaitingBinding(Handshake.KeyB(p), Handshake.TagB(p)) && st1.net.toB == [];
    steps := [] + [HostTakes];
    RunSnoc(w, steps, Arrive, st1);
    var st2 := Arrived(st1);
    steps := steps + [Arrive];
    RunSnoc(w, steps, Drain, st2);
    var st3 := Drained(w, st2);
    steps := steps + [Drain];
    RunSnoc(w, steps, TakeBatch, st3);
    var st4 := Batched(st3);
    steps := steps + [TakeBatch];
    RunSnoc(w, steps, Take, st4);
    assert st4.batch[0] == Shake(Handshake.Pake(Some(p.shareB)));
    var st5 := Taken(st4);
    assert st5.net.toB == [Handshake.Binding(Handshake.TagA(p))];
    steps := steps + [Take];
    RunSnoc(w, steps, HostTakes, st5);
    steps := steps + [HostTakes];
  }

  /** Whatever messages fit, there is a run in which the host has sealed just these. */
  lemma {:induction false} SessionCanCarry(w: Params, plains: seq<seq<Byte>>) returns (steps: seq<Step>)
    requires Handshake.TagA(w.setup) == Handshake.TagB(w.setup) && (w.whole || AllFit(Pipeline.Cuts(LineOf(w).aead, plains)))
    ensures Run(w, steps).Some?
    ensures var st := Run(w, steps).value; st.net.b.state.Confirmed? && !st.host.done && st.host.plains == plains
  {
    if plains == [] {
      steps := HostCanBeConfirmed(w);
    } else {
      var n := |plains| - 1;
      if !w.whole {
        CutsInit(LineOf(w).aead, plains);
      }
      steps := SessionCanCarry(w, plains[..n]);
      var st := Run(w, steps).value;
      CarryOne(w, steps, st, plains[n]);
      assert plains == plains[..n] + [plains[n]];
      RunSnoc(w, steps, Produce(plains[n]), st);
      steps := steps + [Produce(plains[n])];
    }
  }

  lemma CutsInit(a: Aead, plains: seq<seq<Byte>>)
    requires plains != [] && AllFit(Pipeline.Cuts(a, plains))
    ensures var n := |plains| - 1;
            AllFit(Pipeline.Cuts(a, plains[..n])) && Fits(Pipeline.CutSealed(a, n % U64, plains[n]))
  {
    var n := |plains| - 1;
    var cuts, init := Pipeline.Cuts(a, plains), Pipeline.Cuts(a, plains[..n]);
    assert cuts[n] == Pipeline.CutSealed(a, n % U64, plains[n]);
    assert forall k :: 0 <= k < n ==> init[k] == cuts[k];
  }

  /** A confirmed host seals under the right key and the right counter. */
  lemma CarryOne(w: Params, steps: seq<Step>, st: Session, p: seq<Byte>)
    requires Run(w, steps) == Some(st) && st.net.b.state.Confirmed?
    ensures LineUnder(w, st.net.b.state.confirmed) == LineOf(w) && st.host.counter == |st.host.plains| % U64
  {
    var run := SessionRefines(w, steps);
    CounterOn(LineOf(w), run);
  }
}
