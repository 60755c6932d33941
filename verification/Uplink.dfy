/**
 * The way from the controller's sealer to the host's opener, for input events and upload frames: the same channel the
 * other way round, on which every sealed message travels whole. The two ends are those of module Pipeline with the
 * roles swapped.
 */
module Uplink {
  import opened Base
  import opened Crypto
  import opened Packets
  import opened Pipeline

  /** Seal one message into the queue. */
  function SealedWhole(a: Aead, h: Host, plain: seq<Byte>): Host {
    h.(plains := h.plains + [plain], counter := (h.counter + 1) % U64, queue := h.queue + [Seal(a, h.counter, plain)])
  }

  function SealAll(a: Aead, plains: seq<seq<Byte>>): (msgs: seq<seq<Byte>>)
    ensures |msgs| == |plains|
  {
    seq(|plains|, i requires 0 <= i < |plains| => Seal(a, i % U64, plains[i]))
  }

  /** The counter is right, and what was handed over and what is queued are the sealed messages. */
  ghost predicate WholeInOrder(a: Aead, h: Host) {
    h.counter == |h.plains| % U64 && SealAll(a, h.plains) == h.written + h.queue
  }

  /** The controller's sealer and outgoing queue. */
  class InputQueue {
    const sealer: StreamSealer
    var queue: seq<seq<Byte>>
    ghost var host: Host

    ghost predicate Valid() reads this, sealer {
      sealer.counter == host.counter < U64 && queue == host.queue && !host.done && WholeInOrder(sealer.aead, host)
    }

    constructor (aead: Aead)
      ensures Valid() && fresh(sealer) && sealer.aead == aead && host == NEW_HOST
    {
      sealer := new StreamSealer(aead);
      queue, host := [], NEW_HOST;
    }

    method Enqueue(plain: seq<Byte>)
      requires Valid()
      modifies this, sealer
      ensures Valid() && host == SealedWhole(sealer.aead, old(host), plain)
    {
      WholeSealed(sealer.aead, host, plain);
      var msg := sealer.SealNext(plain);
      queue := queue + [msg];
      host := SealedWhole(sealer.aead, host, plain);
    }

    /** Hand messages to the channel until it refuses one; `room` is how many it takes before that. */
    method Flush(room: nat) returns (taken: seq<seq<Byte>>)
      requires Valid()
      modifies this
      ensures Valid() && taken + queue == old(queue) && (|taken| == room || queue == []) && |taken| <= room
      ensures host == old(host).(queue := queue, written := old(host.written) + taken)
    {
      taken := [];
      assert host.written + [] == host.written;
      while queue != [] && |taken| < room
        invariant Valid() && taken + queue == old(queue) && |taken| <= room
        invariant host == old(host).(queue := queue, written := old(host.written) + taken)
        decreases |queue|
      {
        MoveFront(host.written, queue);
        Assoc(old(host.written), taken, [queue[0]]);
        MoveFront(taken, queue);
        taken, queue, host := taken + [queue[0]], queue[1..], Handed(host);
      }
    }
  }

  lemma SealAllSnoc(a: Aead, plains: seq<seq<Byte>>, p: seq<Byte>)
    ensures SealAll(a, plains + [p]) == SealAll(a, plains) + [Seal(a, |plains| % U64, p)]
  {
  }

  lemma WholeSealed(a: Aead, h: Host, p: seq<Byte>)
    requires WholeInOrder(a, h)
    ensures WholeInOrder(a, SealedWhole(a, h, p))
  {
    SealAllSnoc(a, h.plains, p);
    WrapNext(|h.plains|, U64);
    Assoc(h.written, h.queue, [Seal(a, h.counter, p)]);
  }

  /** One pass over a batch: the marker only sets a flag, anything else is opened. */
  function OpenBatch(a: Aead, received: seq<seq<Byte>>, bye: bool, batch: seq<seq<Byte>>): (seq<seq<Byte>>, bool)
    decreases |batch|
  {
    if batch == [] then (received, bye)
    else if batch[0] == SESSION_BYE then OpenBatch(a, received, true, batch[1..])
    else
      var o := Open(a, batch[0]);
      OpenBatch(a, if o.Some? then received + [o.value] else received, bye, batch[1..])
  }

  /** One pass of the host loop over its inbox. */
  function ConsumedWhole(a: Aead, v: Viewer): Viewer {
    var (received, bye) := OpenBatch(a, v.received, false, v.inbox);
    v.(received := received, ended := bye, inbox := [],
       consumed := v.consumed + (if bye then v.inbox[..|v.inbox| - 1] else v.inbox))
  }

  /** The steps are those of the pipeline; only a message of any size may be sealed, and none is cut. */
  predicate CanDo(a: Aead, st: Pipe, s: Step) { if s.Produce? then !st.host.done else Enabled(a, st, s) }

  function Do(a: Aead, st: Pipe, s: Step): Pipe
    requires CanDo(a, st, s)
  {
    match s
    case Produce(p) => st.(host := SealedWhole(a, st.host, p))
    case Consume => st.(viewer := ConsumedWhole(a, st.viewer))
    case _ => Next(a, st, s)
  }

  ghost predicate UpFlow(a: Aead, st: Pipe) {
    st.host.counter == |st.host.plains| % U64 && FlowInv(st, SealAll(a, st.host.plains))
  }

  ghost predicate UpInv(a: Aead, st: Pipe) {
    && UpFlow(a, st)
    && |st.viewer.consumed| <= |st.host.plains| && st.viewer.received == st.host.plains[..|st.viewer.consumed|]
  }

  lemma ProduceFlows(a: Aead, st: Pipe, p: seq<Byte>)
    requires UpFlow(a, st) && CanDo(a, st, Produce(p))
    ensures UpFlow(a, Do(a, st, Produce(p)))
  {
    ByeIsNoSealedMessage(a, st.host.counter, p);
    FlowProduce(st, SealedWhole(a, st.host, p), SealAll(a, st.host.plains), [Seal(a, st.host.counter, p)]);
    SealAllSnoc(a, st.host.plains, p);
    WrapNext(|st.host.plains|, U64);
  }

  lemma {:induction false} MarkerIsSeen(a: Aead, received: seq<seq<Byte>>, batch: seq<seq<Byte>>, bye: bool)
    requires SESSION_BYE !in batch
    ensures OpenBatch(a, received, false, batch + (if bye then [SESSION_BYE] else [])).1 == bye
    decreases |batch|
  {
    var tail := if bye then [SESSION_BYE] else [];
    if batch == [] {
      assert batch + tail == tail;
      assert bye ==> |tail[1..]| == 0;
    } else {
      assert (batch + tail)[1..] == batch[1..] + tail && (batch + tail)[0] == batch[0];
      var o := Open(a, batch[0]);
      MarkerIsSeen(a, if o.Some? then received + [o.value] else received, batch[1..], bye);
    }
  }

  lemma ConsumeFlows(a: Aead, st: Pipe) returns (batch: seq<seq<Byte>>, bye: bool)
    requires UpFlow(a, st) && CanDo(a, st, Consume)
    ensures UpFlow(a, Do(a, st, Consume))
    ensures st.viewer.inbox == batch + (if bye then [SESSION_BYE] else []) && SESSION_BYE !in batch
    ensures |st.viewer.consumed| + |batch| <= |st.host.written|
    ensures Do(a, st, Consume).viewer.consumed == st.viewer.consumed + batch
  {
    var all := SealAll(a, st.host.plains);
    batch, bye := BatchOf(st, all);
    MarkerIsSeen(a, st.viewer.received, batch, bye);
    assert bye ==> st.viewer.inbox[..|st.viewer.inbox| - 1] == batch;
    FlowConsume(st, Do(a, st, Consume), all, batch, bye);
  }

  /** Opening a stretch of the sealed messages gives that stretch of the messages. */
  lemma {:induction false} OpenStretch(a: Aead, plains: seq<seq<Byte>>, n: nat, batch: seq<seq<Byte>>, bye: bool)
    requires Correct(a) && SESSION_BYE !in batch
    requires n + |batch| <= |plains| && batch == SealAll(a, plains)[n..n + |batch|]
    ensures OpenBatch(a, plains[..n], false, batch + (if bye then [SESSION_BYE] else [])) == (plains[..n + |batch|], bye)
    decreases |batch|
  {
    var tail := if bye then [SESSION_BYE] else [];
    if batch == [] {
      assert batch + tail == tail;
      assert bye ==> |tail[1..]| == 0;
    } else {
      assert (batch + tail)[1..] == batch[1..] + tail && (batch + tail)[0] == batch[0];
      assert batch[0] == SealAll(a, plains)[n];
      OpenSeal(a, n % U64, plains[n]);
      assert plains[..n] + [plains[n]] == plains[..n + 1];
      OpenStretch(a, plains, n + 1, batch[1..], bye);
    }
  }

  lemma ConsumeKeeps(a: Aead, st: Pipe)
    requires Correct(a) && UpInv(a, st) && CanDo(a, st, Consume)
    ensures UpInv(a, Do(a, st, Consume))
  {
    var batch, bye := ConsumeFlows(a, st);
    StretchOf(st, SealAll(a, st.host.plains), batch);
    OpenStretch(a, st.host.plains, |st.viewer.consumed|, batch, bye);
  }

  /** The batch is the next stretch of what was written. */
  lemma StretchOf(st: Pipe, all: seq<seq<Byte>>, batch: seq<seq<Byte>>)
    requires FlowInv(st, all) && st.viewer.confirmed && batch <= st.viewer.inbox
    requires |st.viewer.consumed| + |batch| <= |st.host.written|
    ensures var n := |st.viewer.consumed|; n + |batch| <= |all| && batch == all[n..n + |batch|]
  {
    var n := |st.viewer.consumed|;
    assert forall k :: 0 <= k < |batch| ==> batch[k] == Transit(st)[n + k] == st.host.written[n + k] == all[n + k];
  }

  lemma StepFlows(a: Aead, st: Pipe, s: Step)
    requires UpFlow(a, st) && CanDo(a, st, s)
    ensures UpFlow(a, Do(a, st, s))
  {
    var all := SealAll(a, st.host.plains);
    match s
    case Produce(p) => ProduceFlows(a, st, p);
    case Consume => var _, _ := ConsumeFlows(a, st);
    case Write => FlowWrite(a, st, all);
    case Bye => FlowBye(a, st, all);
    case Deliver => FlowMove(a, st, all, s);
    case Defer => FlowMove(a, st, all, s);
    case Confirm => FlowMove(a, st, all, s);
  }

  lemma StepKeeps(a: Aead, st: Pipe, s: Step)
    requires Correct(a) && UpInv(a, st) && CanDo(a, st, s)
    ensures UpInv(a, Do(a, st, s))
  {
    StepFlows(a, st, s);
    if s.Consume? {
      ConsumeKeeps(a, st);
    }
  }

  function RunUp(a: Aead, steps: seq<Step>): Option<Pipe>
    decreases |steps|
  {
    if steps == [] then Some(START)
    else
      var prev := RunUp(a, steps[..|steps| - 1]);
      var s := steps[|steps| - 1];
      if prev.Some? && CanDo(a, prev.value, s) then Some(Do(a, prev.value, s)) else None
  }

  lemma RunUpSnoc(a: Aead, steps: seq<Step>, s: Step, st: Pipe)
    requires RunUp(a, steps) == Some(st) && CanDo(a, st, s)
    ensures RunUp(a, steps + [s]) == Some(Do(a, st, s))
  {
    assert (steps + [s])[..|steps|] == steps;
  }

  lemma {:induction false} RunFlows(a: Aead, steps: seq<Step>)
    requires RunUp(a, steps).Some?
    ensures UpFlow(a, RunUp(a, steps).value)
    decreases |steps|
  {
    if steps != [] {
      RunFlows(a, steps[..|steps| - 1]);
      StepFlows(a, RunUp(a, steps[..|steps| - 1]).value, steps[|steps| - 1]);
    }
  }

  lemma {:induction false} RunKeeps(a: Aead, steps: seq<Step>)
    requires Correct(a) && RunUp(a, steps).Some?
    ensures UpInv(a, RunUp(a, steps).value)
    decreases |steps|
  {
    if steps != [] {
      RunKeeps(a, steps[..|steps| - 1]);
      StepKeeps(a, RunUp(a, steps[..|steps| - 1]).value, steps[|steps| - 1]);
    }
  }

  /** This direction is a FIFO too: a prefix of what was sealed is opened, and all of it when nothing is under way. */
  lemma UplinkIsFifo(a: Aead, steps: seq<Step>)
    requires Correct(a) && RunUp(a, steps).Some?
    ensures var st := RunUp(a, steps).value;
            && st.viewer.received <= st.host.plains
            && (st.host.queue == st.channel == st.viewer.deferred == st.viewer.inbox == []
                ==> st.viewer.received == st.host.plains)
  {
    RunKeeps(a, steps);
    var st := RunUp(a, steps).value;
    if st.host.queue == st.channel == st.viewer.deferred == st.viewer.inbox == [] {
      assert Transit(st) == st.viewer.consumed && st.host.written + [] == st.host.written;
    }
  }

  /** The host loop ends only because the controller did, and by then it has consumed every message written. */
  lemma UplinkEndsCleanly(a: Aead, steps: seq<Step>)
    requires RunUp(a, steps).Some? && RunUp(a, steps).value.viewer.ended
    ensures var st := RunUp(a, steps).value; st.host.done && st.viewer.consumed == st.host.written
  {
    RunFlows(a, steps);
    var st := RunUp(a, steps).value;
    assert Transit(st) == st.viewer.consumed;
  }

  // ------------------------------------------------------- either direction

  /** One direction of a session: its cipher, and whether messages travel whole. */
  datatype Line = Line(aead: Aead, whole: bool)

  function SealedOn(l: Line, h: Host, p: seq<Byte>): Host {
    if l.whole then SealedWhole(l.aead, h, p) else Sealed(l.aead, h, p)
  }

  function ConsumedOn(l: Line, v: Viewer): Viewer {
    if l.whole then ConsumedWhole(l.aead, v) else Consumed(l.aead, v)
  }

  /** A message that is cut must not make more chunks than can be counted. */
  predicate FitsOn(l: Line, h: Host, p: seq<Byte>) { l.whole || Fits(CutSealed(l.aead, h.counter, p)) }

  predicate May(l: Line, st: Pipe, s: Step) { if l.whole then CanDo(l.aead, st, s) else Enabled(l.aead, st, s) }

  function Then(l: Line, st: Pipe, s: Step): Pipe
    requires May(l, st, s)
  {
    if l.whole then Do(l.aead, st, s) else Next(l.aead, st, s)
  }

  function RunOn(l: Line, steps: seq<Step>): Option<Pipe> {
    if l.whole then RunUp(l.aead, steps) else Run(l.aead, steps)
  }

  lemma RunOnSnoc(l: Line, steps: seq<Step>, s: Step, st: Pipe)
    requires RunOn(l, steps) == Some(st) && May(l, st, s)
    ensures RunOn(l, steps + [s]) == Some(Then(l, st, s))
  {
    if l.whole {
      RunUpSnoc(l.aead, steps, s, st);
    } else {
      RunSnoc(l.aead, steps, s, st);
    }
  }

  lemma LineIsFifo(l: Line, steps: seq<Step>)
    requires Correct(l.aead) && RunOn(l, steps).Some?
    ensures var st := RunOn(l, steps).value;
            && st.viewer.received <= st.host.plains
            && (st.host.queue == st.channel == st.viewer.deferred == st.viewer.inbox == []
                ==> st.viewer.received == st.host.plains)
  {
    if l.whole {
      UplinkIsFifo(l.aead, steps);
    } else {
      PipelineIsFifo(l.aead, steps);
    }
  }

  lemma LineEndsCleanly(l: Line, steps: seq<Step>)
    requires RunOn(l, steps).Some? && RunOn(l, steps).value.viewer.ended
    ensures var st := RunOn(l, steps).value; st.host.done && st.viewer.consumed == st.host.written
  {
    if l.whole {
      UplinkEndsCleanly(l.aead, steps);
    } else {
      EndIsClean(l.aead, steps);
    }
  }

  /** Once the sender has ended and nothing is under way to a confirmed receiver, it has ended too. */
  lemma LineEndsInTime(l: Line, steps: seq<Step>)
    requires RunOn(l, steps).Some?
    ensures var st := RunOn(l, steps).value;
            st.viewer.confirmed ==>
              && st.viewer.deferred == []
              && (st.host.done && st.channel == st.viewer.inbox == [] ==> st.viewer.ended)
  {
    if l.whole {
      RunFlows(l.aead, steps);
    } else {
      InvRun(l.aead, steps);
    }
    var st := RunOn(l, steps).value;
    if st.channel == st.viewer.deferred == st.viewer.inbox == [] {
      assert Transit(st) == st.viewer.consumed;
    }
  }

  lemma CounterOn(l: Line, steps: seq<Step>)
    requires RunOn(l, steps).Some?
    ensures var h := RunOn(l, steps).value.host; h.counter == |h.plains| % U64
  {
    if l.whole {
      RunFlows(l.aead, steps);
    } else {
      InvRun(l.aead, steps);
    }
  }
}
