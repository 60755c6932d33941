/**
 * The media path from the host's sealer to the controller's opener: seal, cut, queue under back-pressure,
 * ordered channel, buffer until the handshake is confirmed, reassemble, open.
 */
module Pipeline {
  import opened Base
  import Bytes
  import opened Crypto
  import opened Packets
  import opened Media

  /** b"ZW-BYE-1": the end-of-session marker written straight to the channel. */
  const SESSION_BYE: seq<Byte> := [0x5A, 0x57, 0x2D, 0x42, 0x59, 0x45, 0x2D, 0x31]

  /** The host's end. `plains` and `written` are histories: the messages sealed and the chunks the channel took. */
  datatype Host = Host(
    plains: seq<seq<Byte>>, counter: nat, chunkNo: nat, queue: seq<seq<Byte>>, written: seq<seq<Byte>>, done: bool)

  /** The controller's end. `consumed` is a history: the chunks the reassembler was given. */
  datatype Viewer = Viewer(
    confirmed: bool, deferred: seq<seq<Byte>>, inbox: seq<seq<Byte>>,
    re: RState, consumed: seq<seq<Byte>>, received: seq<seq<Byte>>, ended: bool)

  /** Both ends and the channel between them. */
  datatype Pipe = Pipe(host: Host, channel: seq<seq<Byte>>, viewer: Viewer)

  const NEW_HOST := Host([], 0, 0, [], [], false)
  const NEW_VIEWER := Viewer(false, [], [], FRESH, [], [], false)
  const START := Pipe(NEW_HOST, [], NEW_VIEWER)

  /** The host's objects: sealer, chunker and outgoing queue. `host` is what they stand for while the host loop runs. */
  class MediaQueue {
    const sealer: StreamSealer
    const chunker: Chunker
    var queue: seq<seq<Byte>>
    ghost var host: Host

    ghost predicate InStep() reads this, sealer, chunker {
      && sealer.counter == host.counter < U64 && chunker.seqNo == host.chunkNo < U32
      && chunker.maxPayload == DEFAULT_MAX_PAYLOAD && queue == host.queue
    }

    ghost predicate Valid() reads this, sealer, chunker { InStep() && !host.done && InOrder(sealer.aead, host) }

    constructor (aead: Aead)
      ensures Valid() && fresh(sealer) && fresh(chunker) && sealer.aead == aead && host == NEW_HOST
    {
      sealer := new StreamSealer(aead);
      chunker := new Chunker(DEFAULT_MAX_PAYLOAD);
      queue, host := [], NEW_HOST;
    }

    /** Seal a message, cut it, and append the chunks. */
    method Enqueue(plain: seq<Byte>)
      requires Valid()
      modifies this, sealer, chunker
      ensures Valid() && host == Sealed(sealer.aead, old(host), plain)
    {
      SealedInOrder(sealer.aead, host, plain);
      var chunks := SealAndCut(plain);
      queue := queue + chunks;
      host := Sealed(sealer.aead, host, plain);
    }

    method SealAndCut(plain: seq<Byte>) returns (chunks: seq<seq<Byte>>)
      requires InStep()
      modifies sealer, chunker
      ensures chunks == ChunksOf(sealer.aead, host, plain)
      ensures var next := Sealed(sealer.aead, host, plain);
              next.queue == queue + chunks && sealer.counter == next.counter && chunker.seqNo == next.chunkNo
    {
      var msg := sealer.SealNext(plain);
      chunks := chunker.Cut(msg);
    }

    /** Hand chunks to the channel until it refuses one; `room` is how many it takes before that. */
    method Flush(room: nat) returns (taken: seq<seq<Byte>>)
      requires Valid()
      modifies this
      ensures Valid() && taken + queue == old(queue) && (|taken| == room || queue == []) && |taken| <= room
      ensures host == old(host).(queue := queue, written := old(host.written) + taken)
    {
      taken := [];
      assert host.written + [] == host.written;
      while queue != [] && |taken| < room
        invariant Valid() && taken + queue == old(queue) && |taken| <= room
        invariant host == old(host).(queue := queue, written := old(host.written) + taken)
        decreases |queue|
      {
        HandedInOrder(sealer.aead, host);
        Assoc(old(host.written), taken, [queue[0]]);
        MoveFront(taken, queue);
        taken, queue, host := taken + [queue[0]], queue[1..], Handed(host);
      }
    }
  }

  /** The chunks of the next message. */
  function ChunksOf(a: Aead, h: Host, plain: seq<Byte>): seq<seq<Byte>> {
    WireAll(PacketsOf(h.chunkNo, CutSealed(a, h.counter, plain)))
  }

  /** Seal and cut one message into the queue. */
  function Sealed(a: Aead, h: Host, plain: seq<Byte>): Host {
    h.(plains := h.plains + [plain], counter := (h.counter + 1) % U64, chunkNo := (h.chunkNo + 1) % U32,
       queue := h.queue + ChunksOf(a, h, plain))
  }

  /** The counters are right, and what was handed over and what is queued is the stream of the messages. */
  ghost predicate InOrder(a: Aead, h: Host) { HostInv(h) && Stream(a, h.plains) == h.written + h.queue }

  lemma SealedInOrder(a: Aead, h: Host, plain: seq<Byte>)
    requires InOrder(a, h)
    ensures InOrder(a, Sealed(a, h, plain))
  {
    CountersOfSealed(a, h, plain);
    StreamOfSealed(a, h, plain);
    Assoc(h.written, h.queue, ChunksOf(a, h, plain));
  }

  lemma HandedInOrder(a: Aead, h: Host)
    requires InOrder(a, h) && h.queue != []
    ensures InOrder(a, Handed(h))
  {
    MoveFront(h.written, h.queue);
  }

  /** The channel takes the front of the queue. */
  function Handed(h: Host): Host
    requires h.queue != []
  {
    h.(queue := h.queue[1..], written := h.written + [h.queue[0]])
  }

  /** One pass of the controller loop over its inbox. */
  function Consumed(a: Aead, v: Viewer): Viewer {
    var (re, received, bye) := Handle(a, v.re, v.received, false, v.inbox);
    v.(re := re, received := received, ended := bye, inbox := [],
       consumed := v.consumed + (if bye then v.inbox[..|v.inbox| - 1] else v.inbox))
  }

  /** The chunks of the `i`-th message of a stream. */
  function ChunksFor(a: Aead, i: nat, plain: seq<Byte>): seq<seq<Byte>> {
    WireAll(PacketsOf(i % U32, CutSealed(a, i % U64, plain)))
  }

  datatype Step =
    | Produce(plain: seq<Byte>)   // seal and cut one message into the queue
    | Write                       // the channel accepts the front of the queue
    | Bye                         // the host loop ends and writes the marker
    | Deliver                     // the channel hands over its oldest message
    | Defer                       // before confirmation: move what arrived to the deferred buffer
    | Confirm                     // the handshake is confirmed: the deferred buffer becomes the inbox
    | Consume                     // one pass of the controller loop over its inbox

  /** A message sealed under the given counter, cut for the channel. */
  function CutSealed(a: Aead, counter: nat, plain: seq<Byte>): Cut { Parts(Seal(a, counter, plain), DEFAULT_MAX_PAYLOAD) }

  predicate Enabled(a: Aead, st: Pipe, s: Step) {
    match s
    case Produce(p) => !st.host.done && Fits(CutSealed(a, st.host.counter, p))
    case Write => !st.host.done && st.host.queue != []
    case Bye => !st.host.done
    case Deliver => st.channel != [] && !st.viewer.ended
    case Defer => !st.viewer.confirmed
    case Confirm => !st.viewer.confirmed && st.viewer.inbox == []
    case Consume => st.viewer.confirmed && !st.viewer.ended
  }

  /** One pass over a batch: the marker only sets a flag, anything else goes through reassembly and opening. */
  function Handle(a: Aead, re: RState, received: seq<seq<Byte>>, bye: bool, batch: seq<seq<Byte>>)
    : (RState, seq<seq<Byte>>, bool)
    decreases |batch|
  {
    if batch == [] then (re, received, bye)
    else if batch[0] == SESSION_BYE then Handle(a, re, received, true, batch[1..])
    else
      var (re1, o) := AbsorbWire(re, batch[0]);
      var received1 := if o.Some? && Open(a, o.value).Some? then received + [Open(a, o.value).value] else received;
      Handle(a, re1, received1, bye, batch[1..])
  }

  function Next(a: Aead, st: Pipe, s: Step): Pipe
    requires Enabled(a, st, s)
  {
    match s
    case Produce(p) => st.(host := Sealed(a, st.host, p))
    case Write => st.(host := Handed(st.host), channel := st.channel + [st.host.queue[0]])
    case Bye => st.(host := st.host.(done := true), channel := st.channel + [SESSION_BYE])
    case Deliver => st.(channel := st.channel[1..], viewer := st.viewer.(inbox := st.viewer.inbox + [st.channel[0]]))
    case Defer => st.(viewer := st.viewer.(deferred := st.viewer.deferred + st.viewer.inbox, inbox := []))
    case Confirm => st.(viewer := st.viewer.(confirmed := true, inbox := st.viewer.deferred, deferred := []))
    case Consume => st.(viewer := Consumed(a, st.viewer))
  }

  /** The `i`-th message of the stream is sealed under counter `i` (a u64) and cut. */
  function Cuts(a: Aead, plains: seq<seq<Byte>>): (cuts: seq<Cut>)
    ensures |cuts| == |plains|
  {
    seq(|plains|, i requires 0 <= i < |plains| => CutSealed(a, i % U64, plains[i]))
  }

  /** All chunks that stem from a run of messages. */
  function Stream(a: Aead, plains: seq<seq<Byte>>): seq<seq<Byte>> { WireAll(Emit(Cuts(a, plains))) }

  function Transit(st: Pipe): seq<seq<Byte>> { st.viewer.consumed + st.viewer.deferred + st.viewer.inbox + st.channel }

  /** The host's counters follow the number of messages sealed. */
  ghost predicate HostInv(h: Host) { h.counter == |h.plains| % U64 && h.chunkNo == |h.plains| % U32 }

  /** Where the chunks `all` are, each in exactly one place and in order, with the marker behind those written. */
  ghost predicate FlowInv(st: Pipe, all: seq<seq<Byte>>) {
    && SESSION_BYE !in all
    && all == st.host.written + st.host.queue
    && Transit(st) == st.host.written + (if st.host.done && !st.viewer.ended then [SESSION_BYE] else [])
    && (st.viewer.ended ==> st.host.done && st.viewer.confirmed && st.channel == [] && st.viewer.inbox == [])
    && |st.viewer.consumed| <= |st.host.written|
    && (!st.viewer.confirmed ==> st.viewer.consumed == [])
    && (st.viewer.confirmed ==> st.viewer.deferred == [])
  }

  /** What the controller has made of the chunks consumed so far. */
  ghost predicate OpenInv(a: Aead, st: Pipe) {
    && st.viewer.re == FeedWire(FRESH, st.viewer.consumed).0
    && st.viewer.received == OpenAll(a, FeedWire(FRESH, st.viewer.consumed).1)
  }

  ghost predicate Inv(a: Aead, st: Pipe) {
    HostInv(st.host) && AllFit(Cuts(a, st.host.plains)) && FlowInv(st, Stream(a, st.host.plains)) && OpenInv(a, st)
  }

  /** Opening each message, dropping those that do not open. */
  function OpenAll(a: Aead, msgs: seq<seq<Byte>>): seq<seq<Byte>> {
    if msgs == [] then []
    else
      var rest := OpenAll(a, msgs[..|msgs| - 1]);
      var o := Open(a, msgs[|msgs| - 1]);
      if o.Some? then rest + [o.value] else rest
  }

  // --------------------------------------------------- the marker is no chunk

  lemma ByeFields()
    ensures Parse(SESSION_BYE).Some? && Parse(SESSION_BYE).value.idx > Parse(SESSION_BYE).value.count
    ensures Parse(SESSION_BYE).value.payload == []
  {
    assert SESSION_BYE[4..6] == [0x59, 0x45] && SESSION_BYE[6..8] == [0x2D, 0x31];
    Bytes.TwoByteValue(0x59, 0x45);
    Bytes.TwoByteValue(0x2D, 0x31);
  }

  /** No chunk of any frame is the marker, even for frames too long for the u16 count. */
  lemma ByeIsNoChunk(q: nat, frame: seq<Byte>, max: nat, k: nat)
    requires q < U32 && max >= 1 && k < |Parts(frame, max)|
    ensures Wire(PacketsOf(q, Parts(frame, max))[k]) != SESSION_BYE
  {
    var p := PacketsOf(q, Parts(frame, max))[k];
    PartsExact(frame, max);
    ByeFields();
    WireRoundTrip(p);
    if frame == [] {
      assert p.idx == 0;
    } else {
      assert p.payload != [];
    }
  }

  /** Nor is any sealed message of the other direction, which travels unchunked. */
  lemma ByeIsNoSealedMessage(a: Aead, counter: nat, plain: seq<Byte>)
    ensures Seal(a, counter, plain) != SESSION_BYE
  {
    assert |Seal(a, counter, plain)| >= NONCE;
  }

  // --------------------------------------------------------- batches and feeds

  lemma {:induction false} OpenAllConcat(a: Aead, x: seq<seq<Byte>>, y: seq<seq<Byte>>)
    ensures OpenAll(a, x + y) == OpenAll(a, x) + OpenAll(a, y)
    decreases |y|
  {
    if y == [] {
      assert x + y == x;
    } else {
      assert (x + y)[..|x + y| - 1] == x + y[..|y| - 1];
      OpenAllConcat(a, x, y[..|y| - 1]);
    }
  }

  lemma HandleCons(a: Aead, re: RState, received: seq<seq<Byte>>, bye: bool, msg: seq<Byte>, rest: seq<seq<Byte>>)
    requires msg != SESSION_BYE
    ensures var (re1, o) := AbsorbWire(re, msg);
            Handle(a, re, received, bye, [msg] + rest)
            == Handle(a, re1, received + (if o.Some? then OpenAll(a, [o.value]) else []), bye, rest)
  {
    assert ([msg] + rest)[1..] == rest;
    var o := AbsorbWire(re, msg).1;
    if o.Some? {
      OpenOne(a, o.value);
    }
    assert received + [] == received;
  }

  /** A batch free of the marker, with or without the marker behind it, is fed to the reassembler. */
  lemma {:induction false} HandleIsFeed(
      a: Aead, re: RState, received: seq<seq<Byte>>, batch: seq<seq<Byte>>, bye: bool)
    requires SESSION_BYE !in batch
    ensures var (re1, frames) := FeedWire(re, batch);
            Handle(a, re, received, false, batch + (if bye then [SESSION_BYE] else []))
            == (re1, received + OpenAll(a, frames), bye)
    decreases |batch|
  {
    var tail := if bye then [SESSION_BYE] else [];
    if batch == [] {
      assert batch + tail == tail;
      assert bye ==> |tail[1..]| == 0;
      assert received + OpenAll(a, []) == received;
    } else {
      var msg, rest := batch[0], batch[1..];
      var (re1, o) := AbsorbWire(re, msg);
      var got := if o.Some? then [o.value] else [];
      assert batch + tail == [msg] + (rest + tail) && batch == [msg] + rest;
      HandleCons(a, re, received, false, msg, rest + tail);
      HandleIsFeed(a, re1, received + OpenAll(a, got), rest, bye);
      var frames := FeedWire(re1, rest).1;
      OpenAllConcat(a, got, frames);
      Assoc(received, OpenAll(a, got), OpenAll(a, frames));
      assert o.None? ==> got + frames == frames;
    }
  }

  lemma OpenOne(a: Aead, msg: seq<Byte>)
    ensures OpenAll(a, [msg]) == if Open(a, msg).Some? then [Open(a, msg).value] else []
  {
    var none := [msg][..0];
    assert |none| == 0 && OpenAll(a, none) == [];
  }

  lemma OpenSnoc(a: Aead, frames: seq<seq<Byte>>, counter: nat, plain: seq<Byte>)
    requires Correct(a)
    ensures OpenAll(a, frames + [Seal(a, counter, plain)]) == OpenAll(a, frames) + [plain]
  {
    OpenSeal(a, counter, plain);
    OpenOne(a, Seal(a, counter, plain));
    OpenAllConcat(a, frames, [Seal(a, counter, plain)]);
  }

  /** The frames of the stream, opened one by one, are the messages. */
  lemma {:induction false} OpenFrames(a: Aead, plains: seq<seq<Byte>>)
    requires Correct(a)
    ensures OpenAll(a, Frames(Cuts(a, plains))) == plains
  {
    if plains != [] {
      var n := |plains| - 1;
      var before := plains[..n];
      OpenFrames(a, before);
      CutsSnoc(a, before, plains[n]);
      OpenNext(a, Cuts(a, before), n % U64, plains[n]);
      assert plains == before + [plains[n]];
    }
  }

  lemma OpenNext(a: Aead, cuts: seq<Cut>, counter: nat, plain: seq<Byte>)
    requires Correct(a)
    ensures OpenAll(a, Frames(cuts + [CutSealed(a, counter, plain)])) == OpenAll(a, Frames(cuts)) + [plain]
  {
    PartsExact(Seal(a, counter, plain), DEFAULT_MAX_PAYLOAD);
    FramesSnoc(cuts, CutSealed(a, counter, plain));
    OpenSnoc(a, Frames(cuts), counter, plain);
  }

  /** Dropping frames from the end drops messages from the end. */
  lemma OpenPrefix(a: Aead, frames: seq<seq<Byte>>, k: nat)
    requires k <= |frames|
    ensures OpenAll(a, frames[..k]) <= OpenAll(a, frames)
  {
    assert frames == frames[..k] + frames[k..];
    OpenAllConcat(a, frames[..k], frames[k..]);
  }

  // ---------------------------------------------------------------- invariant

  lemma CutsSnoc(a: Aead, plains: seq<seq<Byte>>, p: seq<Byte>)
    ensures Cuts(a, plains + [p]) == Cuts(a, plains) + [CutSealed(a, |plains| % U64, p)]
  {
  }

  lemma StreamSnoc(a: Aead, plains: seq<seq<Byte>>, p: seq<Byte>)
    ensures Stream(a, plains + [p]) == Stream(a, plains) + ChunksFor(a, |plains|, p)
  {
    var cuts, cut := Cuts(a, plains), CutSealed(a, |plains| % U64, p);
    CutsSnoc(a, plains, p);
    assert (cuts + [cut])[..|plains|] == cuts;
    WireAllConcat(Emit(cuts), PacketsOf(|plains| % U32, cut));
  }

  lemma CutsFit(a: Aead, plains: seq<seq<Byte>>, p: seq<Byte>)
    requires AllFit(Cuts(a, plains)) && Fits(CutSealed(a, |plains| % U64, p))
    ensures AllFit(Cuts(a, plains + [p]))
  {
    CutsSnoc(a, plains, p);
  }

  lemma CountersOfSealed(a: Aead, h: Host, p: seq<Byte>)
    requires HostInv(h)
    ensures HostInv(Sealed(a, h, p))
  {
    WrapNext(|h.plains|, U64);
    WrapNext(|h.plains|, U32);
  }

  lemma StreamOfSealed(a: Aead, h: Host, p: seq<Byte>)
    requires HostInv(h)
    ensures Stream(a, h.plains + [p]) == Stream(a, h.plains) + ChunksOf(a, h, p)
  {
    StreamSnoc(a, h.plains, p);
  }

  lemma FlowProduce(st: Pipe, h1: Host, all: seq<seq<Byte>>, more: seq<seq<Byte>>)
    requires FlowInv(st, all) && SESSION_BYE !in more
    requires h1 == st.host.(plains := h1.plains, counter := h1.counter, chunkNo := h1.chunkNo, queue := st.host.queue + more)
    ensures FlowInv(st.(host := h1), all + more)
  {
    assert all + more == st.host.written + (st.host.queue + more);
  }

  lemma FlowWrite(a: Aead, st: Pipe, all: seq<seq<Byte>>)
    requires FlowInv(st, all) && Enabled(a, st, Write)
    ensures FlowInv(Next(a, st, Write), all)
  {
    var st1 := Next(a, st, Write);
    assert st.host.written + st.host.queue == st1.host.written + st1.host.queue;
    assert Transit(st1) == Transit(st) + [st.host.queue[0]];
  }

  lemma FlowBye(a: Aead, st: Pipe, all: seq<seq<Byte>>)
    requires FlowInv(st, all) && Enabled(a, st, Bye)
    ensures FlowInv(Next(a, st, Bye), all)
  {
    assert Transit(Next(a, st, Bye)) == Transit(st) + [SESSION_BYE];
  }

  lemma FlowMove(a: Aead, st: Pipe, all: seq<seq<Byte>>, s: Step)
    requires FlowInv(st, all) && Enabled(a, st, s)
    requires s == Deliver || s == Defer || s == Confirm
    ensures FlowInv(Next(a, st, s), all)
  {
    assert Transit(Next(a, st, s)) == Transit(st);
  }

  /** The marker, when it is in the inbox, is its last message and the last of all. */
  lemma MarkerIsLast(st: Pipe, all: seq<seq<Byte>>, k: nat)
    requires FlowInv(st, all) && st.viewer.confirmed && k < |st.viewer.inbox| && st.viewer.inbox[k] == SESSION_BYE
    ensures k == |st.viewer.inbox| - 1 && st.channel == [] && st.host.done && |st.viewer.consumed| + k == |st.host.written|
  {
    assert Transit(st)[|st.viewer.consumed| + k] == SESSION_BYE;
    assert forall i :: 0 <= i < |st.host.written| ==> st.host.written[i] == all[i] != SESSION_BYE;
  }

  lemma BatchOf(st: Pipe, all: seq<seq<Byte>>) returns (batch: seq<seq<Byte>>, bye: bool)
    requires FlowInv(st, all) && st.viewer.confirmed && !st.viewer.ended
    ensures st.viewer.inbox == batch + (if bye then [SESSION_BYE] else []) && SESSION_BYE !in batch
    ensures bye ==> st.host.done && st.channel == [] && |st.viewer.consumed| + |batch| == |st.host.written|
    ensures |st.viewer.consumed| + |batch| <= |st.host.written|
  {
    bye := SESSION_BYE in st.viewer.inbox;
    batch := if bye then st.viewer.inbox[..|st.viewer.inbox| - 1] else st.viewer.inbox;
    if bye {
      var k :| 0 <= k < |st.viewer.inbox| && st.viewer.inbox[k] == SESSION_BYE;
      MarkerIsLast(st, all, k);
    }
    if SESSION_BYE in batch {
      var k :| 0 <= k < |batch| && batch[k] == SESSION_BYE;
      MarkerIsLast(st, all, k);
      assert false;
    }
    BatchWasWritten(st, all, batch);
  }

  lemma BatchWasWritten(st: Pipe, all: seq<seq<Byte>>, batch: seq<seq<Byte>>)
    requires FlowInv(st, all) && st.viewer.confirmed && batch <= st.viewer.inbox && SESSION_BYE !in batch
    ensures |st.viewer.consumed| + |batch| <= |st.host.written|
  {
    assert forall i :: 0 <= i < |batch| ==> Transit(st)[|st.viewer.consumed| + i] == batch[i] != SESSION_BYE;
    assert |Transit(st)| > |st.host.written| ==> Transit(st)[|st.host.written|] == SESSION_BYE;
  }

  lemma FlowConsume(st: Pipe, st1: Pipe, all: seq<seq<Byte>>, batch: seq<seq<Byte>>, bye: bool)
    requires FlowInv(st, all) && st.viewer.confirmed && !st.viewer.ended
    requires st.viewer.inbox == batch + (if bye then [SESSION_BYE] else [])
    requires bye ==> st.host.done && st.channel == [] && |st.viewer.consumed| + |batch| == |st.host.written|
    requires |st.viewer.consumed| + |batch| <= |st.host.written|
    requires st1 == st.(viewer := st.viewer.(re := st1.viewer.re, received := st1.viewer.received, ended := bye,
                                             inbox := [], consumed := st.viewer.consumed + batch))
    ensures FlowInv(st1, all)
  {
    assert Transit(st) == Transit(st1) + (if bye then [SESSION_BYE] else []);
    assert bye ==> Transit(st1) == Transit(st)[..|st.host.written|];
  }

  lemma InvConsume(a: Aead, st: Pipe)
    requires Inv(a, st) && Enabled(a, st, Consume)
    ensures Inv(a, Next(a, st, Consume))
  {
    var batch, bye := BatchOf(st, Stream(a, st.host.plains));
    HandleIsFeed(a, st.viewer.re, st.viewer.received, batch, bye);
    FeedWireConcat(FRESH, st.viewer.consumed, batch);
    OpenAllConcat(a, FeedWire(FRESH, st.viewer.consumed).1, FeedWire(st.viewer.re, batch).1);
    assert bye ==> st.viewer.inbox[..|st.viewer.inbox| - 1] == batch;
    var st1 := Next(a, st, Consume);
    assert st1.viewer.consumed == st.viewer.consumed + batch && st1.viewer.ended == bye;
    FlowConsume(st, st1, Stream(a, st.host.plains), batch, bye);
    assert OpenInv(a, st1);
  }

  lemma InvProduce(a: Aead, st: Pipe, p: seq<Byte>)
    requires Inv(a, st) && !st.host.done && Fits(CutSealed(a, st.host.counter, p))
    ensures Inv(a, st.(host := Sealed(a, st.host, p)))
  {
    CountersOfSealed(a, st.host, p);
    CutsFit(a, st.host.plains, p);
    FlowOfProduce(a, st, p);
  }

  lemma FlowOfProduce(a: Aead, st: Pipe, p: seq<Byte>)
    requires HostInv(st.host) && FlowInv(st, Stream(a, st.host.plains)) && !st.host.done
    ensures FlowInv(st.(host := Sealed(a, st.host, p)), Stream(a, st.host.plains + [p]))
  {
    NoMarker(st.host.chunkNo, Seal(a, st.host.counter, p));
    StreamOfSealed(a, st.host, p);
    FlowProduce(st, Sealed(a, st.host, p), Stream(a, st.host.plains), ChunksOf(a, st.host, p));
  }

  lemma NoMarker(q: nat, frame: seq<Byte>)
    requires q < U32
    ensures SESSION_BYE !in WireAll(PacketsOf(q, Parts(frame, DEFAULT_MAX_PAYLOAD)))
  {
    var chunks := WireAll(PacketsOf(q, Parts(frame, DEFAULT_MAX_PAYLOAD)));
    forall k | 0 <= k < |chunks| ensures chunks[k] != SESSION_BYE {
      ByeIsNoChunk(q, frame, DEFAULT_MAX_PAYLOAD, k);
    }
  }

  /** Every step keeps the invariant. */
  lemma InvStep(a: Aead, st: Pipe, s: Step)
    ensures Inv(a, st) && Enabled(a, st, s) ==> Inv(a, Next(a, st, s))
  {
    if Inv(a, st) && Enabled(a, st, s) {
      var all := Stream(a, st.host.plains);
      match s
      case Produce(p) => InvProduce(a, st, p);
      case Consume => InvConsume(a, st);
      case Write => FlowWrite(a, st, all);
      case Bye => FlowBye(a, st, all);
      case Deliver => FlowMove(a, st, all, s);
      case Defer => FlowMove(a, st, all, s);
      case Confirm => FlowMove(a, st, all, s);
    }
  }

  // -------------------------------------------------------------------- runs

  /** The state after a sequence of steps, if each of them is enabled when its turn comes. */
  function Run(a: Aead, steps: seq<Step>): Option<Pipe>
    decreases |steps|
  {
    if steps == [] then Some(START)
    else
      var prev := Run(a, steps[..|steps| - 1]);
      var s := steps[|steps| - 1];
      if prev.Some? && Enabled(a, prev.value, s) then Some(Next(a, prev.value, s)) else None
  }

  lemma {:induction false} InvRun(a: Aead, steps: seq<Step>)
    requires Run(a, steps).Some?
    ensures Inv(a, Run(a, steps).value)
    decreases |steps|
  {
    if steps != [] {
      InvRun(a, steps[..|steps| - 1]);
      InvStep(a, Run(a, steps[..|steps| - 1]).value, steps[|steps| - 1]);
    }
  }

  lemma FeedPrefix(msgs: seq<seq<Byte>>, n: nat)
    requires n <= |msgs|
    ensures FeedWire(FRESH, msgs[..n]).1 <= FeedWire(FRESH, msgs).1
    ensures n == |msgs| ==> FeedWire(FRESH, msgs[..n]).1 == FeedWire(FRESH, msgs).1
  {
    FeedWireConcat(FRESH, msgs[..n], msgs[n..]);
    assert msgs == msgs[..n] + msgs[n..];
    if n == |msgs| {
      assert msgs[..n] == msgs;
    }
  }

  /** A prefix of the chunk stream opens to a prefix of the messages, and the whole of it to all of them. */
  lemma PrefixOpens(a: Aead, plains: seq<seq<Byte>>, n: nat)
    requires Correct(a) && AllFit(Cuts(a, plains)) && n <= |Stream(a, plains)|
    ensures var out := OpenAll(a, FeedWire(FRESH, Stream(a, plains)[..n]).1);
            out <= plains && (n == |Stream(a, plains)| ==> out == plains)
  {
    var cuts := Cuts(a, plains);
    EmitInWidth(cuts);
    FeedWireIsFeed(FRESH, Emit(cuts));
    LosslessStream(FRESH, cuts);
    FeedPrefix(Stream(a, plains), n);
    OpenFrames(a, plains);
    var k := |FeedWire(FRESH, Stream(a, plains)[..n]).1|;
    assert FeedWire(FRESH, Stream(a, plains)[..n]).1 == Frames(cuts)[..k];
    OpenPrefix(a, Frames(cuts), k);
  }

  /**
   * The pipeline refines a FIFO: in every run what the controller has opened is a prefix of what the host sealed,
   * and all of it once nothing is queued, in the channel or buffered.
   */
  lemma PipelineIsFifo(a: Aead, steps: seq<Step>)
    requires Correct(a) && Run(a, steps).Some?
    ensures var st := Run(a, steps).value;
            && st.viewer.received <= st.host.plains
            && (st.host.queue == st.channel == st.viewer.deferred == st.viewer.inbox == []
                ==> st.viewer.received == st.host.plains)
  {
    InvRun(a, steps);
    var st := Run(a, steps).value;
    var all, n := Stream(a, st.host.plains), |st.viewer.consumed|;
    assert Transit(st)[..n] == st.viewer.consumed;
    assert st.viewer.consumed == all[..n];
    PrefixOpens(a, st.host.plains, n);
    if st.host.queue == st.channel == st.viewer.deferred == st.viewer.inbox == [] {
      assert Transit(st) == st.viewer.consumed && |st.host.written| == |all|;
    }
  }

  /** The controller ends only because the host did, and by then it has consumed every chunk the host wrote. */
  lemma EndIsClean(a: Aead, steps: seq<Step>)
    requires Run(a, steps).Some? && Run(a, steps).value.viewer.ended
    ensures var st := Run(a, steps).value; st.host.done && st.viewer.consumed == st.host.written
  {
    InvRun(a, steps);
    var st := Run(a, steps).value;
    assert Transit(st) == st.viewer.consumed;
  }

  lemma RunSnoc(a: Aead, steps: seq<Step>, s: Step, st: Pipe)
    requires Run(a, steps) == Some(st) && Enabled(a, st, s)
    ensures Run(a, steps + [s]) == Some(Next(a, st, s))
  {
    assert (steps + [s])[..|steps|] == steps;
  }
}
