/**
 * Downloads: the host's pump into the queue that it shares with video and all other messages, and the controller's
 * appender at the other end of the session.
 */
module Download {
  import opened Base
  import Bytes
  import opened Crypto
  import opened Packets
  import opened Media
  import opened Files
  import opened Pipeline
  import Session

  /** The control messages about transfers; the host sends them as JSON objects. */
  datatype Control = FsProgress(id: nat, offset: nat, size: nat) | FsDone(id: nat, ok: bool)

  /** Serialisation of control messages to bytes and back. */
  datatype Codec = Codec(ser: Control -> seq<Byte>, de: seq<Byte> -> Option<Control>)

  const BRACE: Byte := 0x7B

  /** Ids are u32, offsets and sizes u64. */
  predicate InWidthControl(m: Control) {
    match m
    case FsProgress(id, offset, size) => id < U32 && offset < U64 && size < U64
    case FsDone(id, _) => id < U32
  }

  /** All that is assumed of the serialisation: it is invertible, starts with `{`, and is short. */
  ghost predicate Faithful(c: Codec) {
    forall m :: InWidthControl(m) ==>
      c.de(c.ser(m)) == Some(m) && c.ser(m) != [] && c.ser(m)[0] == BRACE && |c.ser(m)| + 28 <= DEFAULT_MAX_PAYLOAD
  }

  function PlainSer(m: Control): seq<Byte> {
    match m
    case FsProgress(id, offset, size) => [BRACE, 0] + Bytes.Be(id, 4) + Bytes.Be(offset, 8) + Bytes.Be(size, 8)
    case FsDone(id, ok) => [BRACE, if ok then 1 else 2] + Bytes.Be(id, 4)
  }

  function PlainDe(buf: seq<Byte>): Option<Control> {
    if |buf| == 22 then
      Some(FsProgress(Bytes.FromBe(buf[2..6]), Bytes.FromBe(buf[6..14]), Bytes.FromBe(buf[14..])))
    else if |buf| == 6 then Some(FsDone(Bytes.FromBe(buf[2..]), buf[1] == 1))
    else None
  }

  /** The assumptions on serialisation and cipher can be met. */
  lemma AssumptionsCanBeMet() returns (a: Aead, c: Codec)
    ensures Correct(a) && Faithful(c)
  {
    var tag: seq<Byte> := seq(16, _ => 0);
    var enc := (n: seq<Byte>, p: seq<Byte>) => p + tag;
    var dec := (n: seq<Byte>, t: seq<Byte>) => if |t| >= 16 then Some(t[..|t| - 16]) else None;
    a := Aead(enc, dec);
    forall n: seq<Byte>, p: seq<Byte> ensures a.dec(n, a.enc(n, p)) == Some(p) && |a.enc(n, p)| == |p| + 16 {
      assert (p + tag)[..|p|] == p;
    }
    c := Codec(PlainSer, PlainDe);
    forall m | InWidthControl(m) ensures PlainDe(PlainSer(m)) == Some(m) {
      Bytes.RangeValues();
      var buf := PlainSer(m);
      match m {
        case FsProgress(id, offset, size) =>
          assert buf[2..6] == Bytes.Be(id, 4) && buf[6..14] == Bytes.Be(offset, 8) && buf[14..] == Bytes.Be(size, 8);
          Bytes.BeRoundTrip(id, 4);
          Bytes.BeRoundTrip(offset, 8);
          Bytes.BeRoundTrip(size, 8);
        case FsDone(id, ok) =>
          assert buf[2..] == Bytes.Be(id, 4);
          Bytes.BeRoundTrip(id, 4);
      }
    }
  }

  /** What the host sends: file frames, reports on transfers, and everything else, such as video and clipboard texts. */
  datatype Message = FileMsg(frame: FileFrame) | ControlMsg(control: Control) | Other(bytes: seq<Byte>)

  function Render(c: Codec, m: Message): seq<Byte> {
    match m
    case FileMsg(f) => EncodeFileFrame(f)
    case ControlMsg(k) => c.ser(k)
    case Other(b) => b
  }

  /** How the controller's delivery thread tells the kinds apart: by the first byte, then by the content. */
  function Classify(c: Codec, buf: seq<Byte>): Message {
    if buf == [] then Other(buf)
    else if buf[0] == FILE_FRAME_MAGIC then
      var f := ParseFileFrame(buf);
      if f.Some? then FileMsg(f.value) else Other(buf)
    else if buf[0] == BRACE then
      var k := c.de(buf);
      if k.Some? then ControlMsg(k.value) else Other(buf)
    else Other(buf)
  }

  /** Numbers fit their fields, and nothing else looks like a file frame or a report. */
  predicate InRange(c: Codec, m: Message) {
    match m
    case FileMsg(f) => f.id < U32 && f.offset < U64
    case ControlMsg(k) => InWidthControl(k)
    case Other(b) => Classify(c, b) == Other(b)
  }

  lemma ClassifyRender(c: Codec, m: Message)
    requires Faithful(c) && InRange(c, m)
    ensures Classify(c, Render(c, m)) == m
  {
    match m
    case FileMsg(f) => FileFrameRoundTrip(f);
    case ControlMsg(k) => assert c.de(c.ser(k)) == Some(k);
    case Other(_) =>
  }

  // -------------------------------------------------------- the controller

  /**
   * The local copy of download `id` after a run of messages: an appender that ignores offsets and stops at the
   * completion message.
   */
  function Local(ms: seq<Message>, id: nat, init: seq<Byte>): (seq<Byte>, bool) {
    if ms == [] then (init, true)
    else
      var (file, open) := Local(ms[..|ms| - 1], id, init);
      match ms[|ms| - 1]
      case FileMsg(f) => if f.id == id && open then (file + f.data, open) else (file, open)
      case ControlMsg(FsDone(i, ok)) => (file, open && i != id)
      case _ => (file, open)
  }

  predicate Reported(ms: seq<Message>, id: nat) { ControlMsg(FsDone(id, true)) in ms }

  lemma {:induction false} LocalGrows(ms: seq<Message>, id: nat, init: seq<Byte>, k: nat)
    requires k <= |ms|
    ensures Local(ms[..k], id, init).0 <= Local(ms, id, init).0
    ensures !Local(ms[..k], id, init).1 ==> Local(ms[..k], id, init) == Local(ms, id, init)
  {
    var n := |ms| - 1;
    if k <= n {
      assert ms[..n][..k] == ms[..k];
      LocalGrows(ms[..n], id, init, k);
    } else {
      assert ms[..k] == ms;
    }
  }

  lemma {:induction false} ReportCloses(ms: seq<Message>, id: nat, init: seq<Byte>)
    requires Reported(ms, id)
    ensures !Local(ms, id, init).1
  {
    var n := |ms| - 1;
    if ms[n] != ControlMsg(FsDone(id, true)) {
      ReportCloses(ms[..n], id, init);
    }
  }

  // --------------------------------------------------------------- the host

  /** A transfer as it was asked for: the remote file, and the length of the local file, which is not looked into. */
  datatype Job = Job(content: seq<Byte>, asked: nat)

  /** Where the host starts. */
  function StartOf(job: Job): (start: nat)
    ensures start <= |job.content|
  {
    Min(job.asked, |job.content|)
  }

  predicate JobInWidth(id: nat, job: Job) { id < U32 && |job.content| < U64 }

  datatype ReadResult = Data(bytes: seq<Byte>) | Eof | Failed

  /** What the messages so far append to the local copy for a job that is being served, or has been. */
  ghost predicate JobInv(ms: seq<Message>, id: nat, job: Job, off: Option<nat>) {
    var (tail, open) := Local(ms, id, []);
    match off
    case Some(n) => open && StartOf(job) <= n <= |job.content| && tail == job.content[StartOf(job)..n]
    case None => tail <= job.content[StartOf(job)..] && (Reported(ms, id) ==> tail == job.content[StartOf(job)..])
  }

  ghost predicate Quiet(m: Message, id: nat) {
    match m
    case FileMsg(f) => f.id != id
    case ControlMsg(FsDone(i, _)) => i != id
    case _ => true
  }

  lemma QuietKeeps(ms: seq<Message>, m: Message, id: nat, job: Job, off: Option<nat>)
    requires JobInv(ms, id, job, off) && Quiet(m, id)
    ensures JobInv(ms + [m], id, job, off)
  {
    assert (ms + [m])[..|ms|] == ms;
  }

  lemma {:induction false} QuietRun(ms: seq<Message>, id: nat, init: seq<Byte>)
    requires forall k :: 0 <= k < |ms| ==> Quiet(ms[k], id)
    ensures Local(ms, id, init) == (init, true)
  {
    if ms != [] {
      QuietRun(ms[..|ms| - 1], id, init);
    }
  }

  lemma DataAdvances(ms: seq<Message>, f: FileFrame, job: Job, n: nat)
    requires JobInv(ms, f.id, job, Some(n))
    requires n + |f.data| <= |job.content| && f.data == job.content[n..n + |f.data|]
    ensures JobInv(ms + [FileMsg(f)], f.id, job, Some(n + |f.data|))
  {
    assert (ms + [FileMsg(f)])[..|ms|] == ms;
    assert job.content[StartOf(job)..n] + f.data == job.content[StartOf(job)..n + |f.data|];
  }

  lemma DoneCloses(ms: seq<Message>, id: nat, job: Job, n: nat, ok: bool)
    requires JobInv(ms, id, job, Some(n)) && (ok ==> n == |job.content|)
    ensures JobInv(ms + [ControlMsg(FsDone(id, ok))], id, job, None)
  {
    var m := ControlMsg(FsDone(id, ok));
    assert (ms + [m])[..|ms|] == ms;
    if Reported(ms, id) {
      ReportCloses(ms, id, []);
    }
  }

  /** The first message about an id starts its transfer, or ends it at once. */
  lemma Opens(ms: seq<Message>, id: nat, job: Job, opens: bool, m: Message)
    requires forall k :: 0 <= k < |ms| ==> Quiet(ms[k], id)
    requires m == ControlMsg(if opens then FsProgress(id, StartOf(job), |job.content|) else FsDone(id, false))
    ensures JobInv(ms + [m], id, job, if opens then Some(StartOf(job)) else None)
  {
    QuietRun(ms, id, []);
    if opens {
      QuietKeeps(ms, m, id, job, Some(StartOf(job)));
    } else {
      DoneCloses(ms, id, job, StartOf(job), false);
    }
  }

  function OffsetOf(downloads: map<nat, nat>, id: nat): Option<nat> {
    if id in downloads then Some(downloads[id]) else None
  }

  /** What the messages sent so far amount to for every request, and that they concern no new id. */
  ghost predicate Serves(sent: seq<Message>, jobs: map<nat, Job>, downloads: map<nat, nat>, uploads: set<nat>) {
    && jobs.Keys !! uploads
    && downloads.Keys <= jobs.Keys
    && (forall id :: id in jobs ==> JobInWidth(id, jobs[id]) && JobInv(sent, id, jobs[id], OffsetOf(downloads, id)))
    && forall id, k :: id !in jobs && id !in uploads && 0 <= k < |sent| ==> Quiet(sent[k], id)
  }

  /** Only one transfer has moved. */
  ghost predicate OnlyMoved(was: map<nat, nat>, now: map<nat, nat>, id: nat) {
    forall i :: i != id ==> OffsetOf(now, i) == OffsetOf(was, i)
  }

  function Moved(downloads: map<nat, nat>, id: nat, next: Option<nat>): (now: map<nat, nat>)
    ensures OnlyMoved(downloads, now, id) && OffsetOf(now, id) == next
  {
    if next.Some? then downloads[id := next.value] else downloads - {id}
  }

  /** A message about one transfer, new or not, leaves the others as they were. */
  lemma ServesNext(
      sent: seq<Message>, jobs: map<nat, Job>, was: map<nat, nat>, uploads: set<nat>, now: map<nat, nat>,
      id: nat, job: Job, m: Message)
    requires Serves(sent, jobs, was, uploads) && id !in uploads
    requires JobInWidth(id, job) && JobInv(sent + [m], id, job, OffsetOf(now, id))
    requires (forall i :: i != id ==> Quiet(m, i)) && OnlyMoved(was, now, id)
    ensures Serves(sent + [m], jobs[id := job], now, uploads)
  {
    var jobs1 := jobs[id := job];
    forall i | i in jobs1 ensures JobInv(sent + [m], i, jobs1[i], OffsetOf(now, i)) {
      if i != id {
        QuietKeeps(sent, m, i, jobs[i], OffsetOf(was, i));
      }
    }
    forall i | i in now ensures i in jobs1 {
      assert i == id || OffsetOf(now, i) == OffsetOf(was, i);
    }
  }

  /** The bytes read next move their transfer on. */
  lemma ServesData(
      sent: seq<Message>, jobs: map<nat, Job>, downloads: map<nat, nat>, uploads: set<nat>, id: nat, bytes: seq<Byte>)
    requires Serves(sent, jobs, downloads, uploads) && id in downloads
    requires var n, content := downloads[id], jobs[id].content;
             n + |bytes| <= |content| && bytes == content[n..n + |bytes|]
    ensures var n := downloads[id];
            && id < U32 && n < U64
            && Serves(sent + [FileMsg(FileFrame(id, n, bytes))], jobs, Moved(downloads, id, Some(n + |bytes|)), uploads)
  {
    var n := downloads[id];
    var f, now := FileFrame(id, n, bytes), Moved(downloads, id, Some(n + |bytes|));
    DataAdvances(sent, f, jobs[id], n);
    ServesNext(sent, jobs, downloads, uploads, now, id, jobs[id], FileMsg(f));
    assert jobs == jobs[id := jobs[id]];
  }

  /** A message that is about no download leaves them all as they were. */
  lemma ServesOther(
      sent: seq<Message>, jobs: map<nat, Job>, downloads: map<nat, nat>, uploads: set<nat>, more: set<nat>, m: Message)
    requires Serves(sent, jobs, downloads, uploads) && jobs.Keys !! more
    requires forall id :: id !in more ==> Quiet(m, id)
    ensures Serves(sent + [m], jobs, downloads, uploads + more)
  {
    forall i | i in jobs ensures JobInv(sent + [m], i, jobs[i], OffsetOf(downloads, i)) {
      QuietKeeps(sent, m, i, jobs[i], OffsetOf(downloads, i));
    }
  }

  const PUMP_BELOW: nat := 48

  /** The host's queue in one session, and its side of all downloads. */
  class DownloadHost {
    const media: MediaQueue
    const codec: Codec
    /** The requests made so far; the content stands for what the operating system returns on reading. */
    var jobs: map<nat, Job>
    /** The active ones, with the offset of the next byte. */
    var downloads: map<nat, nat>
    /** All messages so far, and the ids of the uploads among them: downloads and uploads share one counter for ids. */
    ghost var sent: seq<Message>
    ghost var uploads: set<nat>

    /** The outgoing queue carries the messages sent so far. */
    ghost predicate Carrying() reads this`sent, media, media.sealer, media.chunker {
      media.Valid() && Faithful(codec) && Correct(media.sealer.aead) && Carried(codec, media.host.plains, sent)
    }

    ghost predicate Serving() reads this`sent, this`jobs, this`downloads, this`uploads {
      Serves(sent, jobs, downloads, uploads)
    }

    ghost predicate Valid() reads this, media, media.sealer, media.chunker { Carrying() && Serving() }

    constructor (aead: Aead, codec: Codec)
      requires Correct(aead) && Faithful(codec)
      ensures Valid() && fresh(media) && fresh(media.sealer) && fresh(media.chunker)
      ensures media.host == NEW_HOST && downloads == map[] && jobs == map[] && sent == [] && uploads == {}
    {
      media := new MediaQueue(aead);
      this.codec := codec;
      downloads, jobs, sent, uploads := map[], map[], [], {};
    }

    /** Queue one message; a control message takes one chunk, a file frame at most three, and anything at least one. */
    method Post(m: Message)
      requires Carrying() && InRange(codec, m) && (m.FileMsg? ==> |m.frame.data| <= FILE_CHUNK)
      modifies this`sent, media, media.sealer, media.chunker
      ensures Carrying() && sent == old(sent) + [m]
      ensures media.host == Sealed(media.sealer.aead, old(media.host), Render(codec, m))
      ensures |old(media.queue)| < |media.queue|
      ensures !m.Other? ==> |media.queue| <= |old(media.queue)| + if m.FileMsg? then 3 else 1
    {
      MessageSize(codec, media.sealer.aead, media.host, m);
      CarriedOn(codec, media.host.plains, sent, m);
      media.Enqueue(Render(codec, m));
      sent := sent + [m];
    }

    /** What other producers queue between the passes of the pump: video, the list of monitors, clipboard texts. */
    method PostOther(bytes: seq<Byte>)
      requires Valid() && InRange(codec, Other(bytes))
      modifies this`sent, media, media.sealer, media.chunker
      ensures Valid() && sent == old(sent) + [Other(bytes)]
      ensures media.host == Sealed(media.sealer.aead, old(media.host), bytes)
    {
      ServesOther(sent, jobs, downloads, uploads, {}, Other(bytes));
      assert uploads + {} == uploads;
      Post(Other(bytes));
    }

    /** A report on an upload. */
    method PostUpload(k: Control)
      requires Valid() && InWidthControl(k) && k.id !in jobs
      modifies this, media, media.sealer, media.chunker
      ensures Valid() && jobs == old(jobs) && downloads == old(downloads)
      ensures sent == old(sent) + [ControlMsg(k)] && uploads == old(uploads) + {k.id}
      ensures |media.queue| == |old(media.queue)| + 1
    {
      ServesOther(sent, jobs, downloads, uploads, {k.id}, ControlMsg(k));
      Send(ControlMsg(k), jobs, downloads, uploads + {k.id});
    }

    /** The channel takes what it has room for. */
    method Flush(room: nat)
      requires Valid()
      modifies media
      ensures Valid() && |media.queue| <= |old(media.queue)|
      ensures media.queue == [] || |media.queue| + room == |old(media.queue)|
      ensures media.host.plains == old(media.host.plains)
    {
      var _ := media.Flush(room);
    }

    /** Send one message about transfers and take the new state of their tables. */
    method Send(m: Message, jobs1: map<nat, Job>, now: map<nat, nat>, ghost uploads1: set<nat>)
      requires Carrying() && Serves(sent + [m], jobs1, now, uploads1)
      requires !m.Other? && InRange(codec, m) && (m.FileMsg? ==> |m.frame.data| <= FILE_CHUNK)
      modifies this, media, media.sealer, media.chunker
      ensures Valid() && jobs == jobs1 && downloads == now && uploads == uploads1 && sent == old(sent) + [m]
      ensures |old(media.queue)| < |media.queue| <= |old(media.queue)| + if m.FileMsg? then 3 else 1
    {
      downloads, jobs, uploads := now, jobs1, uploads1;
      Post(m);
    }

    /**
     * A request: if the file opens, the reply tells the effective offset and the transfer becomes active; if not, the
     * reply is a failure.
     */
    method Request(id: nat, content: seq<Byte>, offset: nat, opens: bool)
      requires Valid() && id !in jobs && id !in uploads && JobInWidth(id, Job(content, 0))
      modifies this, media, media.sealer, media.chunker
      ensures Valid() && uploads == old(uploads) && jobs == old(jobs)[id := Job(content, offset)]
      ensures OnlyMoved(old(downloads), downloads, id)
      ensures OffsetOf(downloads, id) == if opens then Some(Min(offset, |content|)) else None
      ensures var off, size := Min(offset, |content|), |content|;
              sent == old(sent) + [ControlMsg(if opens then FsProgress(id, off, size) else FsDone(id, false))]
    {
      var off := Min(offset, |content|);
      var m := ControlMsg(if opens then FsProgress(id, off, |content|) else FsDone(id, false));
      var now := Moved(downloads, id, if opens then Some(off) else None);
      Opens(sent, id, Job(content, offset), opens, m);
      ServesNext(sent, jobs, downloads, uploads, now, id, Job(content, offset), m);
      Send(m, jobs[id := Job(content, offset)], now, uploads);
    }

    method Cancel(id: nat)
      requires Valid()
      modifies this`downloads
      ensures Valid() && downloads == old(downloads) - {id}
    {
      downloads := downloads - {id};
      assert Serving() by {
        forall i | i in jobs ensures JobInv(sent, i, jobs[i], OffsetOf(downloads, i)) {
          if i == id && id in old(downloads) && Reported(sent, id) {
            ReportCloses(sent, id, []);
          }
        }
      }
    }

    /** One read of at most FILE_CHUNK bytes; short reads and failures are the operating system's choice. */
    method Read(id: nat) returns (r: ReadResult)
      requires id in downloads && id in jobs && downloads[id] <= |jobs[id].content|
      ensures var n, content := downloads[id], jobs[id].content;
              match r
              case Data(b) => 1 <= |b| <= FILE_CHUNK && n + |b| <= |content| && b == content[n..n + |b|]
              case Eof => n == |content|
              case Failed => true
    {
      var n, content := downloads[id], jobs[id].content;
      if n == |content| {
        return Eof;
      }
      var fails: bool := *;
      if fails {
        return Failed;
      }
      var k :| 1 <= k <= FILE_CHUNK && n + k <= |content|;
      r := Data(content[n..n + k]);
    }

    /** One pass of the pump over one active transfer; only a failed read ends it short. */
    method Pass(id: nat) returns (failed: bool)
      requires Valid() && id in downloads
      modifies this, media, media.sealer, media.chunker
      ensures Valid() && jobs == old(jobs) && uploads == old(uploads) && old(sent) <= sent
      ensures |old(media.queue)| < |media.queue| <= |old(media.queue)| + 4
      ensures OnlyMoved(old(downloads), downloads, id)
      ensures id in downloads ==> !failed && old(downloads)[id] < downloads[id] < |jobs[id].content|
      ensures sent != []
      ensures id !in downloads ==> sent[|sent| - 1] == ControlMsg(FsDone(id, !failed))
    {
      var ends;
      failed, ends := ReadOn(id);
      if ends {
        Close(id, !failed);
      }
    }

    /** Read once and send what was read; whether the transfer ends with it. */
    method ReadOn(id: nat) returns (failed: bool, ends: bool)
      requires Valid() && id in downloads
      modifies this, media, media.sealer, media.chunker
      ensures Valid() && jobs == old(jobs) && uploads == old(uploads) && old(sent) <= sent
      ensures |old(media.queue)| <= |media.queue| <= |old(media.queue)| + 3
      ensures OnlyMoved(old(downloads), downloads, id) && id in downloads
      ensures ends ==> !failed ==> downloads[id] == |jobs[id].content|
      ensures !ends ==> !failed && old(downloads)[id] < downloads[id] < |jobs[id].content|
      ensures !ends ==> |old(media.queue)| < |media.queue|
    {
      var r := Read(id);
      failed, ends := r.Failed?, true;
      if r.Data? {
        Forward(id, r.bytes);
        ends := downloads[id] >= |jobs[id].content|;
      }
    }

    /** Send the bytes just read as one frame. */
    method Forward(id: nat, bytes: seq<Byte>)
      requires Valid() && id in downloads && 1 <= |bytes| <= FILE_CHUNK
      requires var n, content := downloads[id], jobs[id].content;
               n + |bytes| <= |content| && bytes == content[n..n + |bytes|]
      modifies this, media, media.sealer, media.chunker
      ensures Valid() && jobs == old(jobs) && uploads == old(uploads)
      ensures sent == old(sent) + [FileMsg(FileFrame(id, old(downloads)[id], bytes))]
      ensures OnlyMoved(old(downloads), downloads, id)
      ensures id in downloads && downloads[id] == old(downloads)[id] + |bytes|
      ensures |old(media.queue)| < |media.queue| <= |old(media.queue)| + 3
    {
      var n, next := downloads[id], downloads[id] + |bytes|;
      var now := Moved(downloads, id, Some(next));
      assert id in now && now[id] == next;
      ServesData(sent, jobs, downloads, uploads, id, bytes);
      Send(FileMsg(FileFrame(id, n, bytes)), jobs, now, uploads);
    }

    /** Report the end of an active transfer and drop it. */
    method Close(id: nat, ok: bool)
      requires Valid() && id in downloads && (ok ==> downloads[id] == |jobs[id].content|)
      modifies this, media, media.sealer, media.chunker
      ensures Valid() && jobs == old(jobs) && uploads == old(uploads) && sent == old(sent) + [ControlMsg(FsDone(id, ok))]
      ensures OnlyMoved(old(downloads), downloads, id) && id !in downloads
      ensures |media.queue| == |old(media.queue)| + 1
    {
      DoneCloses(sent, id, jobs[id], downloads[id], ok);
      Progress(id, ControlMsg(FsDone(id, ok)), None);
    }

    /** Send one message about an active transfer and move it on accordingly. */
    method Progress(id: nat, m: Message, next: Option<nat>)
      requires Valid() && id in downloads
      requires !m.Other? && InRange(codec, m) && (m.FileMsg? ==> |m.frame.data| <= FILE_CHUNK)
      requires (forall i :: i != id ==> Quiet(m, i)) && JobInv(sent + [m], id, jobs[id], next)
      modifies this, media, media.sealer, media.chunker
      ensures Valid() && jobs == old(jobs) && uploads == old(uploads) && sent == old(sent) + [m]
      ensures OnlyMoved(old(downloads), downloads, id) && OffsetOf(downloads, id) == next
      ensures |old(media.queue)| < |media.queue| <= |old(media.queue)| + if m.FileMsg? then 3 else 1
    {
      var now := Moved(downloads, id, next);
      ServesNext(sent, jobs, downloads, uploads, now, id, jobs[id], m);
      assert jobs == jobs[id := jobs[id]];
      Send(m, jobs, now, uploads);
    }

    /**
     * The pump: as long as the queue is short, serve any active transfer. It terminates because every pass adds a
     * chunk, and a queue that was short ends with at most 51 chunks. A transfer it finishes is reported as complete
     * unless a read failed.
     */
    method Pump() returns (failed: set<nat>)
      requires Valid()
      modifies this, media, media.sealer, media.chunker
      ensures Valid() && jobs == old(jobs) && uploads == old(uploads) && old(sent) <= sent
      ensures |media.queue| >= PUMP_BELOW || downloads == map[]
      ensures Finished(old(downloads), downloads, failed, sent)
      ensures |old(media.queue)| < PUMP_BELOW ==> |media.queue| <= PUMP_BELOW + 3
      ensures |old(media.queue)| >= PUMP_BELOW ==> sent == old(sent) && media.queue == old(media.queue)
    {
      failed := {};
      while |media.queue| < PUMP_BELOW && downloads != map[]
        invariant Valid() && jobs == old(jobs) && uploads == old(uploads) && old(sent) <= sent
        invariant |old(media.queue)| < PUMP_BELOW ==> |media.queue| <= PUMP_BELOW + 3
        invariant |old(media.queue)| >= PUMP_BELOW ==> sent == old(sent) && media.queue == old(media.queue)
        invariant Finished(old(downloads), downloads, failed, sent)
        decreases PUMP_BELOW + 4 - |media.queue|
      {
        var id :| id in downloads;
        failed := PassOver(id, failed, old(downloads));
      }
    }

    /** One turn of the pump, with the failed reads so far. */
    method PassOver(id: nat, failed: set<nat>, ghost was: map<nat, nat>) returns (failed1: set<nat>)
      requires Valid() && id in downloads && Finished(was, downloads, failed, sent)
      modifies this, media, media.sealer, media.chunker
      ensures Valid() && jobs == old(jobs) && uploads == old(uploads) && old(sent) <= sent
      ensures |old(media.queue)| < |media.queue| <= |old(media.queue)| + 4
      ensures Finished(was, downloads, failed1, sent)
    {
      ghost var before, said := downloads, sent;
      var bad := Pass(id);
      FinishedNext(was, before, downloads, failed, said, sent, id, bad);
      failed1 := failed + if bad then {id} else {};
    }
  }

  /** Every transfer that has gone is reported as complete, unless a read failed. */
  ghost predicate Finished(was: map<nat, nat>, now: map<nat, nat>, failed: set<nat>, sent: seq<Message>) {
    forall id :: id in was && id !in now && id !in failed ==> Reported(sent, id)
  }

  lemma FinishedNext(
      was: map<nat, nat>, before: map<nat, nat>, now: map<nat, nat>, failed: set<nat>, said: seq<Message>,
      sent: seq<Message>, id: nat, bad: bool)
    requires Finished(was, before, failed, said) && said <= sent && sent != [] && OnlyMoved(before, now, id)
    requires id !in now ==> sent[|sent| - 1] == ControlMsg(FsDone(id, !bad))
    ensures Finished(was, now, failed + (if bad then {id} else {}), sent)
  {
    forall i | i in was && i !in now && i !in failed + (if bad then {id} else {}) ensures Reported(sent, i) {
      if i != id {
        assert OffsetOf(now, i) == OffsetOf(before, i);
        assert Reported(said, i);
        var k: nat :| k < |said| && said[k] == ControlMsg(FsDone(i, true));
        assert sent[k] == said[k];
      }
    }
  }

  /** How many chunks a sealed message takes. */
  lemma SealedSize(a: Aead, h: Host, plain: seq<Byte>)
    requires Correct(a)
    ensures var n := |Sealed(a, h, plain).queue| - |h.queue|;
            n >= 1 && (n - 1) * DEFAULT_MAX_PAYLOAD < |plain| + 28
  {
    OpenSeal(a, h.counter, plain);
    PartsCount(Seal(a, h.counter, plain), DEFAULT_MAX_PAYLOAD);
  }

  /** A control message takes one chunk, a file frame at most three, and anything at least one. */
  lemma MessageSize(c: Codec, a: Aead, h: Host, m: Message)
    requires Correct(a) && Faithful(c) && InRange(c, m) && (m.FileMsg? ==> |m.frame.data| <= FILE_CHUNK)
    ensures var n := |Sealed(a, h, Render(c, m)).queue| - |h.queue|;
            n >= 1 && (m.FileMsg? ==> n <= 3) && (m.ControlMsg? ==> n == 1)
  {
    SealedSize(a, h, Render(c, m));
  }

  lemma CarriedOn(c: Codec, plains: seq<seq<Byte>>, ms: seq<Message>, m: Message)
    requires Carried(c, plains, ms) && InRange(c, m)
    ensures Carried(c, plains + [Render(c, m)], ms + [m])
  {
  }

  /** What the controller makes of a run of opened messages. */
  function Heard(c: Codec, bufs: seq<seq<Byte>>): (ms: seq<Message>)
    ensures |ms| == |bufs|
  {
    seq(|bufs|, k requires 0 <= k < |bufs| => Classify(c, bufs[k]))
  }

  /** The sealed messages are the given ones. */
  ghost predicate Carried(c: Codec, plains: seq<seq<Byte>>, ms: seq<Message>) {
    |plains| == |ms| && forall k :: 0 <= k < |ms| ==> plains[k] == Render(c, ms[k]) && InRange(c, ms[k])
  }

  /** The controller makes of the messages what they were. */
  lemma HeardAsSent(c: Codec, plains: seq<seq<Byte>>, ms: seq<Message>, received: seq<seq<Byte>>)
    requires Faithful(c) && Carried(c, plains, ms) && received <= plains
    ensures Heard(c, received) == ms[..|received|]
  {
    forall k | 0 <= k < |received| ensures Classify(c, received[k]) == ms[k] {
      ClassifyRender(c, ms[k]);
    }
  }

  /** What the first `k` messages append is on its way to, or at, what all of them do. */
  lemma PrefixExact(ms: seq<Message>, id: nat, job: Job, off: Option<nat>, k: nat)
    requires JobInv(ms, id, job, off) && k <= |ms|
    ensures Local(ms[..k], id, []).0 <= job.content[StartOf(job)..]
    ensures Reported(ms[..k], id) ==> Local(ms[..k], id, []).0 == job.content[StartOf(job)..]
  {
    LocalGrows(ms, id, [], k);
    if Reported(ms[..k], id) {
      ReportCloses(ms[..k], id, []);
      var j :| 0 <= j < |ms[..k]| && ms[..k][j] == ControlMsg(FsDone(id, true));
      assert ms[j] == ControlMsg(FsDone(id, true));
      ReportCloses(ms, id, []);
    }
  }

  /** The appender appends, whatever it starts from. */
  lemma {:induction false} LocalAppends(ms: seq<Message>, id: nat, init: seq<Byte>)
    ensures Local(ms, id, init) == (init + Local(ms, id, []).0, Local(ms, id, []).1)
  {
    if ms == [] {
      assert init + [] == init;
    } else {
      var n := |ms| - 1;
      LocalAppends(ms[..n], id, init);
      if ms[n].FileMsg? {
        Assoc(init, Local(ms[..n], id, []).0, ms[n].frame.data);
      }
    }
  }

  /** What a finished download leaves: the local file as it was, and what the remote one has beyond its length. */
  function Appended(init: seq<Byte>, content: seq<Byte>): seq<Byte> {
    init + content[Min(|init|, |content|)..]
  }

  /** That is the remote file if and only if the local one was a prefix of it. */
  lemma AppendedIff(init: seq<Byte>, content: seq<Byte>)
    ensures Appended(init, content) == content <==> init <= content
  {
    if init <= content {
      assert content == init + content[|init|..];
    }
    if Appended(init, content) == content {
      assert content[..|init|] == init;
    }
  }

  /** The state of the session's far end, and whether everything the host sealed has reached it. */
  ghost predicate Quiescent(st: Session.Session) {
    st.host.queue == [] && Session.Pending(st) == [] && st.viewer.deferred == st.viewer.inbox == []
  }

  /**
   * The local file keeps what it had and grows by the remote bytes beyond its length. Once success has been reported it
   * has all of them; and it is the remote file if and only if it was a prefix of it to begin with.
   */
  ghost predicate Copied(heard: seq<Message>, id: nat, content: seq<Byte>, init: seq<Byte>) {
    var copy := Local(heard, id, init).0;
    && init <= copy <= Appended(init, content)
    && (Reported(heard, id) ==> copy == Appended(init, content) && (copy == content <==> init <= content))
  }

  lemma CopyExact(ms: seq<Message>, id: nat, job: Job, off: Option<nat>, k: nat, init: seq<Byte>)
    requires JobInv(ms, id, job, off) && k <= |ms| && |init| == job.asked
    ensures Copied(ms[..k], id, job.content, init)
  {
    PrefixExact(ms, id, job, off, k);
    LocalAppends(ms[..k], id, init);
    AppendedIff(init, job.content);
  }

  lemma CopyThroughSession(
      c: Codec, w: Session.Params, steps: seq<Session.Step>, ms: seq<Message>, id: nat, job: Job, off: Option<nat>,
      init: seq<Byte>)
    requires Faithful(c) && Session.Run(w, steps).Some? && Correct(Session.LineOf(w).aead)
    requires Carried(c, Session.Run(w, steps).value.host.plains, ms)
    requires JobInv(ms, id, job, off) && |init| == job.asked
    ensures var st := Session.Run(w, steps).value;
            && Copied(Heard(c, st.viewer.received), id, job.content, init)
            && (Quiescent(st) ==> Heard(c, st.viewer.received) == ms)
  {
    Session.SessionIsFifo(w, steps);
    var st := Session.Run(w, steps).value;
    HeardAsSent(c, st.host.plains, ms, st.viewer.received);
    CopyExact(ms, id, job, off, |st.viewer.received|, init);
  }

  /**
   * Downloads, onto any local file, are exact from end to end: take any state of the host, with whatever else it has
   * sent, and any run of the session that carries what it has sealed. The far end has copied what there is to copy of
   * what it has heard, and has heard all once nothing is under way.
   */
  lemma DownloadExact(h: DownloadHost, w: Session.Params, steps: seq<Session.Step>, id: nat, init: seq<Byte>)
    requires h.Valid() && id in h.jobs && |init| == h.jobs[id].asked
    requires Session.LineOf(w).aead == h.media.sealer.aead && Session.Run(w, steps).Some?
    requires Session.Run(w, steps).value.host.plains == h.media.host.plains
    ensures var st := Session.Run(w, steps).value;
            && Copied(Heard(h.codec, st.viewer.received), id, h.jobs[id].content, init)
            && (Quiescent(st) ==> Heard(h.codec, st.viewer.received) == h.sent)
  {
    CopyThroughSession(h.codec, w, steps, h.sent, id, h.jobs[id], OffsetOf(h.downloads, id), init);
  }

  /** So a local file that is no prefix of the remote one ends as a mixture of the two that is reported successful. */
  lemma ChangedFileIsMixed(id: nat, a: Byte, b: Byte, c: Byte)
    requires a != b
    ensures var ms := [ControlMsg(FsProgress(id, 1, 2)), FileMsg(FileFrame(id, 1, [c])), ControlMsg(FsDone(id, true))];
            Reported(ms, id) && Local(ms, id, [a]).0 == [a, c] == Appended([a], [b, c]) != [b, c]
  {
    var ask, data, done := ControlMsg(FsProgress(id, 1, 2)), FileMsg(FileFrame(id, 1, [c])), ControlMsg(FsDone(id, true));
    var ms := [ask, data, done];
    assert ms[2] == done;
    assert ms[..2] == [ask, data] && [ask, data][..1] == [ask] && [ask][..0] == [];
    assert Local([ask], id, [a]) == ([a], true);
    assert Local([ask, data], id, [a]) == ([a] + [c], true);
    var content := [b, c];
    assert content[1..] == [c];
  }
}
