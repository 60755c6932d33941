/**
 * Resumable upload of one file: the receiving side in the host loop, and the sender's window protocol against it.
 */
module Upload {
  import opened Base
  import opened Files

  const ACK_BLOCK: nat := 524288
  const WINDOW: nat := 1048576

  // ------------------------------------------------------ the receiving side

  /** An entry of `uploads`: how much is written and how much is announced. */
  datatype Entry = Entry(written: nat, size: nat)

  /** The target file and the host loop's table of uploads into it. */
  datatype HostState = HostState(file: seq<Byte>, uploads: map<nat, Entry>)

  /** How the operating system answers one seek-and-write: done, refused, or failed after `k` bytes. */
  datatype Outcome = Ok | SeekFails | WriteFails(k: nat)

  /** What the host queues for the controller. */
  datatype Reply = Progress(id: nat, offset: nat, size: nat, done: bool) | Done(id: nat) | Refused(id: nat)

  function Overwrite(file: seq<Byte>, offset: nat, data: seq<Byte>): seq<Byte>
    requires offset <= |file|
  {
    file[..offset] + data + (if offset + |data| <= |file| then file[offset + |data|..] else [])
  }

  function OnStart(h: HostState, id: nat, size: nat): (HostState, seq<Reply>) {
    var existing := Min(|h.file|, size);
    if existing >= size then (h, [Progress(id, existing, size, true), Done(id)])
    else (h.(uploads := h.uploads[id := Entry(existing, size)]), [Progress(id, existing, size, false)])
  }

  function OnFrame(h: HostState, f: FileFrame, o: Outcome): (HostState, seq<Reply>)
    requires HostValid(h)
  {
    if f.id !in h.uploads || f.offset != h.uploads[f.id].written || o == SeekFails then (h, [])
    else if o.WriteFails? then
      (h.(file := Overwrite(h.file, f.offset, f.data[..Min(o.k, |f.data|)])), [])
    else
      var e := h.uploads[f.id];
      var now := e.written + |f.data|;
      var file := Overwrite(h.file, f.offset, f.data);
      if now >= e.size then
        (HostState(file, h.uploads - {f.id}), [Progress(f.id, now, e.size, true), Done(f.id)])
      else
        (HostState(file, h.uploads[f.id := Entry(now, e.size)]),
         if now / ACK_BLOCK != e.written / ACK_BLOCK then [Progress(f.id, now, e.size, false)] else [])
  }

  /** No entry claims more than the file holds. */
  ghost predicate HostValid(h: HostState) {
    forall id :: id in h.uploads ==> h.uploads[id].written <= |h.file|
  }

  /** The part of the host loop that receives uploads, for one target path. */
  class UploadHost {
    var file: seq<Byte>
    var uploads: map<nat, Entry>

    ghost function State(): HostState reads this { HostState(file, uploads) }

    ghost predicate Valid() reads this { HostValid(State()) }

    constructor (file: seq<Byte>)
      ensures Valid() && State() == HostState(file, map[])
    {
      this.file, uploads := file, map[];
    }

    method Start(id: nat, size: nat, opens: bool) returns (replies: seq<Reply>)
      requires Valid()
      modifies this
      ensures Valid()
      ensures (State(), replies) == if opens then OnStart(old(State()), id, size) else (old(State()), [Refused(id)])
    {
      if !opens {
        return [Refused(id)];
      }
      var existing := if |file| <= size then |file| else size;
      if existing >= size {
        replies := [Progress(id, existing, size, true), Done(id)];
      } else {
        replies := [Progress(id, existing, size, false)];
        uploads := uploads[id := Entry(existing, size)];
      }
    }

    /** One opened message that starts like a file frame. */
    method Receive(buf: seq<Byte>, o: Outcome) returns (replies: seq<Reply>)
      requires Valid()
      modifies this
      ensures Valid()
      ensures var f := ParseFileFrame(buf);
              (State(), replies) == if f.Some? then OnFrame(old(State()), f.value, o) else (old(State()), [])
    {
      replies := [];
      var parsed := ParseFileFrame(buf);
      if parsed.None? {
        return;
      }
      var f := parsed.value;
      if f.id in uploads {
        var e := uploads[f.id];
        if f.offset == e.written && o != SeekFails {
          if o.WriteFails? {
            file := Overwrite(file, f.offset, f.data[..Min(o.k, |f.data|)]);
          } else {
            file := Overwrite(file, f.offset, f.data);
            var prev, now := e.written, e.written + |f.data|;
            uploads := uploads[f.id := Entry(now, e.size)];
            if now >= e.size || now / ACK_BLOCK != prev / ACK_BLOCK {
              replies := [Progress(f.id, now, e.size, now >= e.size)];
              if now >= e.size {
                uploads := uploads - {f.id};
                assert uploads == old(uploads) - {f.id};
                replies := replies + [Done(f.id)];
                assert replies == [Progress(f.id, now, e.size, true), Done(f.id)];
              }
            }
          }
        }
      }
    }

    method Cancel(id: nat)
      requires Valid()
      modifies this
      ensures Valid() && State() == HostState(old(file), old(uploads) - {id})
    {
      uploads := uploads - {id};
    }
  }

  // ----------------------------------------- safety under any delivery at all

  /**
   * What can happen to the file: an upload is announced, or its file does not open; a message arrives; an upload is
   * cancelled; a session begins.
   */
  datatype Event =
    | Announce(id: nat)
    | AnnounceRefused(id: nat)
    | Arrive(frame: FileFrame, outcome: Outcome)
    | CancelUpload(id: nat)
    | NewSession

  predicate Slice(source: seq<Byte>, offset: nat, data: seq<Byte>) {
    offset + |data| <= |source| && data == source[offset..offset + |data|]
  }

  /** Frames may be lost, repeated, reordered or stale, but what they carry is the source's. */
  predicate Truthful(source: seq<Byte>, e: Event) {
    e.Arrive? ==> Slice(source, e.frame.offset, e.frame.data)
  }

  function React(source: seq<Byte>, h: HostState, e: Event): (HostState, seq<Reply>)
    requires HostValid(h)
  {
    match e
    case Announce(id) => OnStart(h, id, |source|)
    case AnnounceRefused(id) => (h, [Refused(id)])
    case Arrive(f, o) => OnFrame(h, f, o)
    case CancelUpload(id) => (h.(uploads := h.uploads - {id}), [])
    case NewSession => (h.(uploads := map[]), [])
  }

  /** What an upload onto a file amounts to: the file as it was, and whatever of the source lies beyond its end. */
  function Hybrid(first: seq<Byte>, source: seq<Byte>): seq<Byte> {
    if |first| < |source| then first + source[|first|..] else first
  }

  /** That is the source if and only if the file was a prefix of it. */
  lemma HybridIff(first: seq<Byte>, source: seq<Byte>)
    ensures Hybrid(first, source) == source <==> first <= source
  {
    if first <= source && |first| < |source| {
      assert first == source[..|first|];
    }
  }

  /** The file began as `first`, and only what lies beyond that has been, or can be, written. */
  ghost predicate Grown(source: seq<Byte>, first: seq<Byte>, h: HostState) {
    && HostValid(h)
    && first <= h.file <= Hybrid(first, source)
    && (forall id :: id in h.uploads ==> |first| <= h.uploads[id].written && h.uploads[id].size == |source|)
    && (|first| >= |source| ==> h.uploads == map[])
  }

  lemma OverwriteTruthful(whole: seq<Byte>, file: seq<Byte>, offset: nat, data: seq<Byte>)
    requires file <= whole && offset <= |file| && Slice(whole, offset, data)
    ensures Overwrite(file, offset, data) <= whole
    ensures |Overwrite(file, offset, data)| == if offset + |data| >= |file| then offset + |data| else |file|
  {
  }

  /** Beyond the old end the hybrid is the source. */
  lemma SliceOfHybrid(source: seq<Byte>, first: seq<Byte>, offset: nat, data: seq<Byte>)
    requires |first| < |source| && |first| <= offset && Slice(source, offset, data)
    ensures Slice(Hybrid(first, source), offset, data) && |Hybrid(first, source)| == |source|
  {
    var whole := Hybrid(first, source);
    assert forall k :: |first| <= k < |source| ==> whole[k] == source[k];
  }

  lemma PrefixStays(first: seq<Byte>, whole: seq<Byte>, file: seq<Byte>)
    requires first <= whole && file <= whole && |first| <= |file|
    ensures first <= file
  {
    assert forall k :: 0 <= k < |first| ==> first[k] == whole[k] == file[k];
  }

  lemma WriteGrows(source: seq<Byte>, first: seq<Byte>, file: seq<Byte>, offset: nat, data: seq<Byte>)
    requires first <= file <= Hybrid(first, source) && |first| < |source|
    requires |first| <= offset <= |file| && Slice(source, offset, data)
    ensures var file1 := Overwrite(file, offset, data);
            && first <= file1 <= Hybrid(first, source)
            && |file1| == if offset + |data| >= |file| then offset + |data| else |file|
  {
    SliceOfHybrid(source, first, offset, data);
    OverwriteTruthful(Hybrid(first, source), file, offset, data);
    PrefixStays(first, Hybrid(first, source), Overwrite(file, offset, data));
  }

  ghost predicate Completes(replies: seq<Reply>) {
    exists r :: r in replies && (r.Done? || (r.Progress? && r.done))
  }

  lemma FrameGrows(source: seq<Byte>, first: seq<Byte>, h: HostState, f: FileFrame, o: Outcome)
    requires Grown(source, first, h) && Slice(source, f.offset, f.data)
    ensures var (h1, replies) := OnFrame(h, f, o);
            && Grown(source, first, h1) && |h.file| <= |h1.file|
            && (Completes(replies) ==> h1.file == Hybrid(first, source))
  {
    if f.id in h.uploads && f.offset == h.uploads[f.id].written {
      WriteGrows(source, first, h.file, f.offset, f.data);
      if o.WriteFails? {
        WriteGrows(source, first, h.file, f.offset, f.data[..Min(o.k, |f.data|)]);
      }
    }
  }

  /** One event leaves the old part of the file alone, never shortens it, and reports completion only when it is whole. */
  lemma ReactGrows(source: seq<Byte>, first: seq<Byte>, h: HostState, e: Event)
    requires Grown(source, first, h) && Truthful(source, e)
    ensures var (h1, replies) := React(source, h, e);
            && Grown(source, first, h1) && |h.file| <= |h1.file|
            && (Completes(replies) ==> h1.file == Hybrid(first, source))
  {
    if e.Arrive? {
      FrameGrows(source, first, h, e.frame, e.outcome);
    }
  }

  /**
   * Completion of an upload is reported when a frame ends it, when it is announced and the file is already as long as
   * the source, and in no other case.
   */
  lemma CompletionIsReported(source: seq<Byte>, first: seq<Byte>, h: HostState, e: Event, id: nat)
    requires Grown(source, first, h) && Truthful(source, e)
    ensures var (h1, replies) := React(source, h, e);
            && (e == Announce(id) ==>
                  (Done(id) in replies <==> |h.file| >= |source|) && (Done(id) in replies || id in h1.uploads))
            && (e.Arrive? ==> (Done(id) in replies <==> id in h.uploads && id !in h1.uploads))
            && (e != Announce(id) && !e.Arrive? ==> Done(id) !in replies)
            && (Done(id) in replies ==> Progress(id, |source|, |source|, true) in replies)
  {
    ReactGrows(source, first, h, e);
  }

  /** The upload that an event is about. */
  predicate About(e: Event, id: nat) {
    match e
    case Announce(a) => a == id
    case AnnounceRefused(a) => a == id
    case Arrive(f, _) => f.id == id
    case CancelUpload(a) => a == id
    case NewSession => false
  }

  /**
   * What is reported: progress on the upload in question, out of the length of the source, done exactly at its end, and
   * never beyond what the file holds; an upload announced that is not yet complete is answered with the length of the
   * file, which is the offset of the one frame that the host takes next.
   */
  lemma ProgressIsTrue(source: seq<Byte>, first: seq<Byte>, h: HostState, e: Event)
    requires Grown(source, first, h) && Truthful(source, e)
    ensures var (h1, replies) := React(source, h, e);
            forall r :: r in replies && r.Progress? ==>
              About(e, r.id) && r.size == |source| && r.offset <= |h1.file| && (r.done <==> r.offset == |source|)
    ensures var (h1, replies) := React(source, h, e);
            e.Announce? && |h.file| < |source| ==>
              replies == [Progress(e.id, |h.file|, |source|, false)]
              && forall f: FileFrame :: f.id == e.id && f.data != [] ==>
                   (OnFrame(h1, f, Ok).0 != h1 <==> f.offset == |h.file|)
  {
    ReactGrows(source, first, h, e);
  }

  lemma ReactValid(source: seq<Byte>, h: HostState, e: Event)
    requires HostValid(h)
    ensures HostValid(React(source, h, e).0)
  {
  }

  function RunEvents(source: seq<Byte>, h: HostState, es: seq<Event>): (r: (HostState, seq<Reply>))
    requires HostValid(h)
    ensures HostValid(r.0)
  {
    if es == [] then (h, [])
    else
      var n := |es| - 1;
      var (h1, replies) := RunEvents(source, h, es[..n]);
      ReactValid(source, h1, es[n]);
      var (h2, more) := React(source, h1, es[n]);
      (h2, replies + more)
  }

  lemma {:induction false} RunGrows(source: seq<Byte>, first: seq<Byte>, es: seq<Event>)
    requires forall k :: 0 <= k < |es| ==> Truthful(source, es[k])
    ensures var (h, replies) := RunEvents(source, HostState(first, map[]), es);
            Grown(source, first, h) && (Completes(replies) ==> h.file == Hybrid(first, source))
  {
    if es != [] {
      var n := |es| - 1;
      RunGrows(source, first, es[..n]);
      assert Truthful(source, es[n]);
      var h := RunEvents(source, HostState(first, map[]), es[..n]).0;
      ReactGrows(source, first, h, es[n]);
    }
  }

  /**
   * Resumable upload, onto any file: whatever is lost, repeated, reordered or cut short, over any number of sessions,
   * the file keeps what it had and only grows by the source's bytes. Once completion has been reported it is the source
   * if and only if it was a prefix of the source to begin with.
   */
  lemma UploadExact(source: seq<Byte>, first: seq<Byte>, es: seq<Event>)
    requires forall k :: 0 <= k < |es| ==> Truthful(source, es[k])
    ensures var (h, replies) := RunEvents(source, HostState(first, map[]), es);
            && first <= h.file <= Hybrid(first, source)
            && (Completes(replies) ==> h.file == Hybrid(first, source) && (h.file == source <==> first <= source))
  {
    RunGrows(source, first, es);
    HybridIff(first, source);
  }

  /** So an edited file that has not grown is reported complete at once, with the old content still in place. */
  lemma EditedFileIsReportedDone(source: seq<Byte>, first: seq<Byte>, id: nat)
    requires |first| >= |source| && first != source
    ensures var (h, replies) := RunEvents(source, HostState(first, map[]), [Announce(id)]);
            Done(id) in replies && h.file == first != source
  {
    var es := [Announce(id)];
    assert es[..0] == [];
    assert RunEvents(source, HostState(first, map[]), es[..0]) == (HostState(first, map[]), []);
  }

  // ------------------------------------------------- the sender's window loop

  /**
   * One upload in flight over reliable ordered channels: the host, the frames and the acknowledged offsets under way,
   * and the sender's `sent` and last acknowledgement read.
   */
  datatype Flow = Flow(host: HostState, frames: seq<FileFrame>, acks: seq<nat>, sent: nat, acked: nat)

  datatype Move =
    | Send(n: nat)   // read n bytes (short reads allowed) and send them as one frame
    | HostRecv       // the host takes the oldest frame
    | AckRecv        // the controller takes the oldest acknowledgement

  function Lag(sent: nat, acked: nat): nat { if sent >= acked then sent - acked else 0 }

  predicate Can(source: seq<Byte>, st: Flow, m: Move) {
    match m
    case Send(n) => Lag(st.sent, st.acked) <= WINDOW && 1 <= n <= FILE_CHUNK && st.sent + n <= |source|
    case HostRecv => st.frames != []
    case AckRecv => st.acks != []
  }

  /** The offsets in the progress replies, which is all the sender looks at. */
  function Offsets(replies: seq<Reply>): seq<nat> {
    if replies == [] then []
    else if replies[0].Progress? then [replies[0].offset] + Offsets(replies[1..])
    else Offsets(replies[1..])
  }

  function Do(source: seq<Byte>, id: nat, st: Flow, m: Move): Flow
    requires HostValid(st.host) && Can(source, st, m)
  {
    match m
    case Send(n) =>
      st.(frames := st.frames + [FileFrame(id, st.sent, source[st.sent..st.sent + n])], sent := st.sent + n)
    case HostRecv =>
      var (h, replies) := OnFrame(st.host, st.frames[0], Ok);
      st.(host := h, frames := st.frames[1..], acks := st.acks + Offsets(replies))
    case AckRecv => st.(acked := st.acks[0], acks := st.acks[1..])
  }

  /** How far the host has got: its entry, or the whole file once the entry is gone. */
  function Written(source: seq<Byte>, id: nat, h: HostState): nat {
    if id in h.uploads then h.uploads[id].written else |source|
  }

  /** The frames under way carry exactly the source between two offsets, in order. */
  predicate Contiguous(source: seq<Byte>, id: nat, frames: seq<FileFrame>, from: nat, to: nat) {
    if frames == [] then from == to
    else
      && frames[0].id == id && frames[0].offset == from && frames[0].data != []
      && Slice(source, from, frames[0].data)
      && Contiguous(source, id, frames[1..], from + |frames[0].data|, to)
  }

  /** The last acknowledgement issued: the newest under way, or the one the sender has read. */
  function Newest(acks: seq<nat>, acked: nat): nat { if acks == [] then acked else acks[|acks| - 1] }

  /** The offsets acknowledged run up to a point in the same block as what the host has written. */
  ghost predicate AcksInv(acks: seq<nat>, acked: nat, w: nat) {
    && acked <= w
    && (forall k :: 0 <= k < |acks| ==> acked <= acks[k] <= w)
    && (forall j, k :: 0 <= j < k < |acks| ==> acks[j] <= acks[k])
    && Newest(acks, acked) / ACK_BLOCK == w / ACK_BLOCK
  }

  ghost predicate FlowInv(source: seq<Byte>, first: seq<Byte>, id: nat, st: Flow) {
    var w := Written(source, id, st.host);
    && |first| < |source| && Grown(source, first, st.host) && |st.host.file| == w
    && (id in st.host.uploads ==> w < |source|)
    && Contiguous(source, id, st.frames, w, st.sent)
    && w <= st.sent <= |source|
    && AcksInv(st.acks, st.acked, w)
    && (id !in st.host.uploads ==> Newest(st.acks, st.acked) == w)
    && st.sent - st.acked <= WINDOW + FILE_CHUNK
  }

  lemma {:induction false} ContiguousBound(source: seq<Byte>, id: nat, frames: seq<FileFrame>, from: nat, to: nat)
    requires Contiguous(source, id, frames, from, to)
    ensures from <= to && (frames != [] ==> from < to)
    decreases |frames|
  {
    if frames != [] {
      ContiguousBound(source, id, frames[1..], from + |frames[0].data|, to);
    }
  }

  lemma {:induction false} ContiguousSnoc(
      source: seq<Byte>, id: nat, frames: seq<FileFrame>, from: nat, to: nat, f: FileFrame)
    requires Contiguous(source, id, frames, from, to)
    requires f.id == id && f.offset == to && f.data != [] && Slice(source, to, f.data)
    ensures Contiguous(source, id, frames + [f], from, to + |f.data|)
    decreases |frames|
  {
    if frames == [] {
      assert (frames + [f])[1..] == [];
    } else {
      assert (frames + [f])[1..] == frames[1..] + [f];
      ContiguousSnoc(source, id, frames[1..], from + |frames[0].data|, to, f);
    }
  }

  /** What the host does with the frame it waits for. */
  lemma HostTakes(source: seq<Byte>, first: seq<Byte>, id: nat, h: HostState, f: FileFrame)
    requires |first| < |source| && Grown(source, first, h) && id in h.uploads && |h.file| == h.uploads[id].written
    requires f.id == id && f.offset == h.uploads[id].written && f.data != [] && Slice(source, f.offset, f.data)
    ensures var (h1, replies) := OnFrame(h, f, Ok);
            var w := h.uploads[id].written + |f.data|;
            && Grown(source, first, h1) && |h1.file| == w && Written(source, id, h1) == w
            && (id in h1.uploads <==> w < |source|)
            && Offsets(replies)
               == if w >= |source| || w / ACK_BLOCK != h.uploads[id].written / ACK_BLOCK then [w] else []
  {
    FrameGrows(source, first, h, f, Ok);
    WriteGrows(source, first, h.file, f.offset, f.data);
    FrameOffsets(f.id, h.uploads[id].written + |f.data|, |source|, true);
    FrameOffsets(f.id, h.uploads[id].written + |f.data|, |source|, false);
  }

  /** What the sender looks at in the answers to a frame. */
  lemma FrameOffsets(id: nat, offset: nat, size: nat, done: bool)
    ensures Offsets([Progress(id, offset, size, done)]) == Offsets([Progress(id, offset, size, done), Done(id)]) == [offset]
  {
    var p, d := Progress(id, offset, size, done), Done(id);
    OffsetsCons(p, []);
    OffsetsCons(d, []);
    OffsetsCons(p, [d]);
    assert [p] + [] == [p] && [d] + [] == [d] && [p] + [d] == [p, d];
  }

  lemma OffsetsCons(r: Reply, rest: seq<Reply>)
    ensures Offsets([r] + rest) == if r.Progress? then [r.offset] + Offsets(rest) else Offsets(rest)
  {
    assert ([r] + rest)[1..] == rest;
  }

  lemma FlowSend(source: seq<Byte>, first: seq<Byte>, id: nat, st: Flow, n: nat)
    requires FlowInv(source, first, id, st) && Can(source, st, Send(n))
    ensures FlowInv(source, first, id, Do(source, id, st, Send(n)))
  {
    var f := FileFrame(id, st.sent, source[st.sent..st.sent + n]);
    ContiguousSnoc(source, id, st.frames, Written(source, id, st.host), st.sent, f);
  }

  /** The acknowledgements after the host moved from `w` to `w1` and reported that, or stayed in the block and did not. */
  lemma AcksGrow(acks: seq<nat>, acked: nat, w: nat, w1: nat, more: seq<nat>)
    requires AcksInv(acks, acked, w) && w <= w1
    requires more == [w1] || (more == [] && w1 / ACK_BLOCK == w / ACK_BLOCK)
    ensures AcksInv(acks + more, acked, w1)
    ensures more == [w1] ==> Newest(acks + more, acked) == w1
  {
    assert acks + [] == acks;
  }

  lemma FlowHostRecv(source: seq<Byte>, first: seq<Byte>, id: nat, st: Flow)
    requires FlowInv(source, first, id, st) && Can(source, st, HostRecv)
    ensures FlowInv(source, first, id, Do(source, id, st, HostRecv))
  {
    var w, f := Written(source, id, st.host), st.frames[0];
    ContiguousBound(source, id, st.frames, w, st.sent);
    HostTakes(source, first, id, st.host, f);
    var w1, st1 := w + |f.data|, Do(source, id, st, HostRecv);
    ContiguousBound(source, id, st.frames[1..], w1, st.sent);
    var more := Offsets(OnFrame(st.host, f, Ok).1);
    assert st1.acks == st.acks + more;
    AcksGrow(st.acks, st.acked, w, w1, more);
  }

  lemma FlowAckRecv(source: seq<Byte>, first: seq<Byte>, id: nat, st: Flow)
    requires FlowInv(source, first, id, st) && Can(source, st, AckRecv)
    ensures FlowInv(source, first, id, Do(source, id, st, AckRecv))
  {
    var st1 := Do(source, id, st, AckRecv);
    assert forall k :: 0 <= k < |st1.acks| ==> st1.acks[k] == st.acks[k + 1];
  }

  /** Every move keeps the invariant. */
  lemma FlowStep(source: seq<Byte>, first: seq<Byte>, id: nat, st: Flow, m: Move)
    requires FlowInv(source, first, id, st) && Can(source, st, m)
    ensures FlowInv(source, first, id, Do(source, id, st, m))
  {
    match m
    case Send(n) => FlowSend(source, first, id, st, n);
    case HostRecv => FlowHostRecv(source, first, id, st);
    case AckRecv => FlowAckRecv(source, first, id, st);
  }

  /** What the moves use up: every byte to send, every frame and every acknowledgement to take. */
  function Remaining(source: seq<Byte>, st: Flow): int {
    3 * (|source| - st.sent) + 2 * |st.frames| + |st.acks|
  }

  lemma MoveUses(source: seq<Byte>, first: seq<Byte>, id: nat, st: Flow, m: Move)
    requires FlowInv(source, first, id, st) && Can(source, st, m)
    ensures 0 <= Remaining(source, Do(source, id, st, m)) < Remaining(source, st)
  {
    FlowStep(source, first, id, st, m);
    if m.HostRecv? {
      var w, f := Written(source, id, st.host), st.frames[0];
      ContiguousBound(source, id, st.frames, w, st.sent);
      HostTakes(source, first, id, st.host, f);
    }
  }

  /** With nothing under way the sender lags less than one block behind, so it may send as long as bytes are left. */
  lemma NeverStuck(source: seq<Byte>, first: seq<Byte>, id: nat, st: Flow)
    requires FlowInv(source, first, id, st)
    requires st.host.file != Hybrid(first, source)
    ensures Can(source, st, HostRecv) || Can(source, st, AckRecv)
            || (st.sent - st.acked < ACK_BLOCK && Can(source, st, Send(Min(FILE_CHUNK, |source| - st.sent))))
  {
    var w := Written(source, id, st.host);
    if st.frames == [] && st.acks == [] {
      assert w == st.sent && w < |source|;
      assert st.acked == ACK_BLOCK * (st.acked / ACK_BLOCK) + st.acked % ACK_BLOCK;
      assert w == ACK_BLOCK * (w / ACK_BLOCK) + w % ACK_BLOCK;
    }
  }

  /** The sender starts from the first offset that the host's replies give it. */
  function Begin(h: HostState, replies: seq<Reply>): Flow
    requires Offsets(replies) != []
  {
    var start := Offsets(replies)[0];
    Flow(h, [], Offsets(replies)[1..], start, start)
  }

  /** The state after a run of moves, if each of them can be made when its turn comes. */
  function RunMoves(source: seq<Byte>, id: nat, st: Flow, ms: seq<Move>): (r: Option<Flow>)
    requires HostValid(st.host)
    ensures r.Some? ==> HostValid(r.value.host)
  {
    if ms == [] then Some(st)
    else
      var n := |ms| - 1;
      var prev := RunMoves(source, id, st, ms[..n]);
      if prev.Some? && Can(source, prev.value, ms[n]) then
        DoValid(source, id, prev.value, ms[n]);
        Some(Do(source, id, prev.value, ms[n]))
      else None
  }

  lemma DoValid(source: seq<Byte>, id: nat, st: Flow, m: Move)
    requires HostValid(st.host) && Can(source, st, m)
    ensures HostValid(Do(source, id, st, m).host)
  {
  }

  /** A run keeps the invariant and is no longer than what it uses up. */
  lemma {:induction false} RunUses(source: seq<Byte>, first: seq<Byte>, id: nat, st: Flow, ms: seq<Move>)
    requires FlowInv(source, first, id, st) && RunMoves(source, id, st, ms).Some?
    ensures FlowInv(source, first, id, RunMoves(source, id, st, ms).value)
    ensures |ms| <= Remaining(source, st) - Remaining(source, RunMoves(source, id, st, ms).value)
  {
    if ms != [] {
      var n := |ms| - 1;
      RunUses(source, first, id, st, ms[..n]);
      FlowStep(source, first, id, RunMoves(source, id, st, ms[..n]).value, ms[n]);
      MoveUses(source, first, id, RunMoves(source, id, st, ms[..n]).value, ms[n]);
    }
  }

  /** A state in which nothing can move is the end of a finished transfer. */
  lemma StuckMeansDone(source: seq<Byte>, first: seq<Byte>, id: nat, st: Flow)
    requires FlowInv(source, first, id, st) && forall m :: !Can(source, st, m)
    ensures st.host.file == Hybrid(first, source) && id !in st.host.uploads && st.acked == st.sent == |source|
  {
    assert !Can(source, st, HostRecv) && !Can(source, st, AckRecv);
    if st.host.file != Hybrid(first, source) {
      NeverStuck(source, first, id, st);
    }
  }

  /** An upload announced is answered with one offset, from which both sides then go on. */
  lemma BeginInv(source: seq<Byte>, first: seq<Byte>, id: nat, h0: HostState)
    requires Grown(source, first, h0) && |h0.file| < |source|
    ensures var (h, replies) := React(source, h0, Announce(id));
            && |Offsets(replies)| == 1 && Offsets(replies)[0] == |h0.file|
            && FlowInv(source, first, id, Begin(h, replies))
  {
    var (h, replies) := React(source, h0, Announce(id));
    assert h.uploads[id] == Entry(|h0.file|, |source|);
    OffsetsCons(replies[0], []);
    assert replies == [replies[0]] + [];
  }

  /**
   * The transfer terminates and does not deadlock: whatever the host has of it so far, on top of whatever file there was,
   * the sender that starts from the offset in the host's reply makes only runs that are at most three times as long as
   * the bytes missing, the unacknowledged bytes never exceed the window and one frame, and a run that cannot be continued
   * has delivered and acknowledged all that was missing and removed the upload's entry. The file is then the source if
   * and only if the first file was a prefix of it.
   */
  lemma UploadCompletes(source: seq<Byte>, first: seq<Byte>, id: nat, h0: HostState, ms: seq<Move>) returns (start: Flow)
    requires Grown(source, first, h0) && |h0.file| < |source|
    ensures var (h, replies) := React(source, h0, Announce(id));
            Offsets(replies) != [] && start == Begin(h, replies) && HostValid(h)
    ensures var end := RunMoves(source, id, start, ms);
            end.Some? ==>
              && |ms| <= 3 * (|source| - |h0.file|)
              && end.value.sent - end.value.acked <= WINDOW + FILE_CHUNK
              && ((forall m :: !Can(source, end.value, m)) ==>
                    && end.value.host.file == Hybrid(first, source) && id !in end.value.host.uploads
                    && end.value.acked == |source| && (end.value.host.file == source <==> first <= source))
  {
    BeginInv(source, first, id, h0);
    var (h, replies) := React(source, h0, Announce(id));
    start := Begin(h, replies);
    HybridIff(first, source);
    var end := RunMoves(source, id, start, ms);
    if end.Some? {
      RunUses(source, first, id, start, ms);
      if forall m :: !Can(source, end.value, m) {
        StuckMeansDone(source, first, id, end.value);
      }
    }
  }
}
