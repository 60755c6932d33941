/** The chunk layout `[seq:u32][idx:u16][count:u16][payload]`, big-endian, and the two objects that use it. */
module Media {
  import opened Base
  import opened Bytes
  import opened Packets

  const HEADER: nat := 8
  const DEFAULT_MAX_PAYLOAD: nat := 16384

  predicate InWidth(p: Packet) { p.seqNo < U32 && p.idx < U16 && p.count < U16 }

  function Wire(p: Packet): (msg: seq<Byte>)
    ensures |msg| == HEADER + |p.payload|
  {
    Be(p.seqNo, 4) + Be(p.idx, 2) + Be(p.count, 2) + p.payload
  }

  function Parse(msg: seq<Byte>): Option<Packet> {
    if |msg| < HEADER then None
    else Some(Packet(FromBe(msg[..4]), FromBe(msg[4..6]), FromBe(msg[6..8]), msg[HEADER..]))
  }

  function WireAll(ps: seq<Packet>): (msgs: seq<seq<Byte>>)
    ensures |msgs| == |ps|
    ensures forall k :: 0 <= k < |ps| ==> msgs[k] == Wire(ps[k])
  {
    if ps == [] then [] else WireAll(ps[..|ps| - 1]) + [Wire(ps[|ps| - 1])]
  }

  lemma WireRoundTrip(p: Packet)
    requires InWidth(p)
    ensures Parse(Wire(p)) == Some(p)
  {
    var msg := Wire(p);
    RangeValues();
    assert msg[..4] == Be(p.seqNo, 4) && msg[4..6] == Be(p.idx, 2) && msg[6..8] == Be(p.count, 2);
    assert msg[HEADER..] == p.payload;
    BeRoundTrip(p.seqNo, 4);
    BeRoundTrip(p.idx, 2);
    BeRoundTrip(p.count, 2);
  }

  /** The layout, byte by byte. */
  lemma WireLayout(p: Packet, k: nat)
    requires k < HEADER + |p.payload|
    ensures Wire(p)[k]
            == if k < 4 then p.seqNo / Range(3 - k) % 256
               else if k < 6 then p.idx / Range(5 - k) % 256
               else if k < 8 then p.count / Range(7 - k) % 256
               else p.payload[k - 8]
  {
    if k < 4 {
      BeAt(p.seqNo, 4, k);
    } else if k < 6 {
      BeAt(p.idx, 2, k - 4);
    } else if k < 8 {
      BeAt(p.count, 2, k - 6);
    }
  }

  lemma ParseInWidth(msg: seq<Byte>)
    requires |msg| >= HEADER
    ensures InWidth(Parse(msg).value)
  {
    RangeValues();
    FromBeBound(msg[..4]);
    FromBeBound(msg[4..6]);
    FromBeBound(msg[6..8]);
  }

  // ---------------------------------------------------------------- objects

  class Chunker {
    var seqNo: nat
    const maxPayload: nat

    ghost predicate Valid() reads this { seqNo < U32 && maxPayload >= 1 }

    constructor (max: nat)
      ensures Valid() && seqNo == 0 && maxPayload == if max == 0 then 1 else max
    {
      seqNo := 0;
      maxPayload := if max == 0 then 1 else max;
    }

    /** `frame.chunks(max_payload)`, with the empty frame's one empty piece. */
    method Split(frame: seq<Byte>) returns (parts: seq<seq<Byte>>)
      requires Valid()
      ensures parts == Parts(frame, maxPayload)
    {
      var rest := frame;
      parts := [];
      while |rest| > maxPayload
        invariant Parts(frame, maxPayload) == parts + Parts(rest, maxPayload)
        decreases |rest|
      {
        Assoc(parts, [rest[..maxPayload]], Parts(rest[maxPayload..], maxPayload));
        parts, rest := parts + [rest[..maxPayload]], rest[maxPayload..];
      }
      parts := parts + [rest];
    }

    method Cut(frame: seq<Byte>) returns (chunks: seq<seq<Byte>>)
      requires Valid()
      modifies this
      ensures Valid() && seqNo == (old(seqNo) + 1) % U32
      ensures chunks == WireAll(PacketsOf(old(seqNo), Parts(frame, maxPayload)))
    {
      var q := seqNo;
      seqNo := (seqNo + 1) % U32;
      var parts := Split(frame);
      ghost var packets := PacketsOf(q, parts);
      chunks := [];
      for i := 0 to |parts|
        invariant |chunks| == i
        invariant forall k :: 0 <= k < i ==> chunks[k] == Wire(packets[k])
      {
        chunks := chunks + [Be(q, 4) + Be(i % U16, 2) + Be(|parts| % U16, 2) + parts[i]];
      }
      assert chunks == WireAll(packets);
    }
  }

  /** What the fields of a reassembler satisfy whatever bytes it has been given. */
  ghost predicate Sane(st: RState) {
    st.count < U16 && st.got < U16 && (st.seqNo.Some? ==> st.seqNo.value < U32 && st.got < st.count)
  }

  function AbsorbWire(st: RState, msg: seq<Byte>): (RState, Option<seq<Byte>>) {
    var p := Parse(msg);
    if p.Some? then Absorb(st, p.value) else (st, None)
  }

  class Reassembler {
    var seqNo: Option<nat>
    var count: nat
    var got: nat
    var buf: seq<Byte>

    ghost function State(): RState reads this { RState(seqNo, count, got, buf) }

    constructor ()
      ensures State() == FRESH && Sane(State())
    {
      seqNo, count, got, buf := None, 0, 0, [];
    }

    /** `got` is a u16: the assertion in the body is that its increment overflows for no message at all. */
    method Push(msg: seq<Byte>) returns (frame: Option<seq<Byte>>)
      requires Sane(State())
      modifies this
      ensures Sane(State())
      ensures (State(), frame) == AbsorbWire(old(State()), msg)
    {
      if |msg| < HEADER {
        return None;
      }
      ParseInWidth(msg);
      var q, idx, n := FromBe(msg[..4]), FromBe(msg[4..6]), FromBe(msg[6..8]);
      if idx == 0 {
        seqNo, count, got, buf := Some(q), n, 0, [];
      }
      if seqNo != Some(q) {
        return None;
      }
      buf := buf + msg[HEADER..];
      assert got + 1 < U16;
      got := got + 1;
      if got >= count {
        frame := Some(buf);
        seqNo, buf := None, [];
      } else {
        frame := None;
      }
    }
  }

  // ------------------------------------------------------- runs of messages

  function FeedWire(st: RState, msgs: seq<seq<Byte>>): (RState, seq<seq<Byte>>)
    decreases |msgs|
  {
    if msgs == [] then (st, [])
    else
      var (st1, o) := AbsorbWire(st, msgs[0]);
      var (st2, os) := FeedWire(st1, msgs[1..]);
      (st2, if o.Some? then [o.value] + os else os)
  }

  lemma {:induction false} FeedWireConcat(st: RState, a: seq<seq<Byte>>, b: seq<seq<Byte>>)
    ensures var (st1, x) := FeedWire(st, a);
            var (st2, y) := FeedWire(st1, b);
            FeedWire(st, a + b) == (st2, x + y)
    decreases |a|
  {
    if a == [] {
      assert a + b == b;
      assert FeedWire(st, a).1 + FeedWire(st, b).1 == FeedWire(st, b).1;
    } else {
      assert (a + b)[1..] == a[1..] + b;
      var (st0, o) := AbsorbWire(st, a[0]);
      FeedWireConcat(st0, a[1..], b);
      var (st1, x) := FeedWire(st0, a[1..]);
      if o.Some? {
        Assoc([o.value], x, FeedWire(st1, b).1);
      }
    }
  }

  /** No sequence of messages whatever drives the reassembler out of its field widths. */
  lemma {:induction false} FeedStaysSane(st: RState, msgs: seq<seq<Byte>>)
    requires Sane(st)
    ensures Sane(FeedWire(st, msgs).0)
    decreases |msgs|
  {
    if msgs != [] {
      if |msgs[0]| >= HEADER {
        ParseInWidth(msgs[0]);
      }
      FeedStaysSane(AbsorbWire(st, msgs[0]).0, msgs[1..]);
    }
  }

  predicate AllInWidth(ps: seq<Packet>) { forall k :: 0 <= k < |ps| ==> InWidth(ps[k]) }

  /** On encoded packets the byte-level reassembler does what the packet-level one does. */
  lemma {:induction false} FeedWireIsFeed(st: RState, ps: seq<Packet>)
    requires AllInWidth(ps)
    ensures FeedWire(st, WireAll(ps)) == Feed(st, ps)
    decreases |ps|
  {
    if ps != [] {
      WireRoundTrip(ps[0]);
      assert WireAll(ps)[0] == Wire(ps[0]);
      assert WireAll(ps)[1..] == WireAll(ps[1..]);
      FeedWireIsFeed(Absorb(st, ps[0]).0, ps[1..]);
    }
  }

  /** Packets of a u32-numbered frame are in width. */
  lemma CutInWidth(q: nat, cut: Cut)
    requires q < U32
    ensures AllInWidth(PacketsOf(q, cut))
  {
  }

  lemma {:induction false} DeliveredInWidth(cuts: seq<Cut>, masks: seq<seq<bool>>, n: nat)
    requires MasksFor(cuts, masks) && n <= |cuts|
    ensures AllInWidth(Delivered(cuts, masks, n))
  {
    if n > 0 {
      DeliveredInWidth(cuts, masks, n - 1);
      KeptInWidth(PacketsOf((n - 1) % U32, cuts[n - 1]), masks[n - 1], 0);
    }
  }

  lemma {:induction false} KeptInWidth(ps: seq<Packet>, mask: seq<bool>, i: nat)
    requires i <= |ps| == |mask| && AllInWidth(ps)
    ensures AllInWidth(KeepFrom(ps, mask, i))
    decreases |ps| - i
  {
    if i < |ps| {
      KeptInWidth(ps, mask, i + 1);
    }
  }

  /** The lossy-stream theorem on bytes, for a new chunker and a new reassembler. */
  lemma LossyBytes(cuts: seq<Cut>, masks: seq<seq<bool>>)
    requires |cuts| <= U32 && AllFit(cuts) && MasksFor(cuts, masks)
    ensures FeedWire(FRESH, WireAll(Delivered(cuts, masks, |cuts|))).1 == Survivors(cuts, masks, |cuts|)
  {
    DeliveredInWidth(cuts, masks, |cuts|);
    FeedWireIsFeed(FRESH, Delivered(cuts, masks, |cuts|));
    LossyStream(cuts, masks, |cuts|);
  }

  lemma {:induction false} EmitInWidth(cuts: seq<Cut>)
    ensures AllInWidth(Emit(cuts))
  {
    if cuts != [] {
      EmitInWidth(cuts[..|cuts| - 1]);
      CutInWidth((|cuts| - 1) % U32, cuts[|cuts| - 1]);
    }
  }

  lemma {:induction false} WireAllConcat(a: seq<Packet>, b: seq<Packet>)
    ensures WireAll(a + b) == WireAll(a) + WireAll(b)
  {
    assert forall k :: |a| <= k < |a + b| ==> (a + b)[k] == b[k - |a|];
  }
}
