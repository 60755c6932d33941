/**
 * Cutting frames into numbered packets and putting them together again. This is the logic of the chunker and the
 * reassembler on decoded headers; the byte layout is in module Media.
 */
module Packets {
  import opened Base

  /** A chunk with its header decoded: a u32 and two u16 fields. */
  datatype Packet = Packet(seqNo: nat, idx: nat, count: nat, payload: seq<Byte>)

  // ---------------------------------------------------------------- cutting

  /** The payloads of one frame: pieces of `max` bytes, the last one shorter; one empty piece for an empty frame. */
  function Parts(frame: seq<Byte>, max: nat): (parts: seq<seq<Byte>>)
    requires max >= 1
    ensures |parts| >= 1
    decreases |frame|
  {
    if |frame| <= max then [frame] else [frame[..max]] + Parts(frame[max..], max)
  }

  /** The first `n` pieces, joined. */
  function Join(parts: seq<seq<Byte>>, n: nat): seq<Byte>
    requires n <= |parts|
  {
    if n == 0 then [] else Join(parts, n - 1) + parts[n - 1]
  }

  function Concat(parts: seq<seq<Byte>>): seq<Byte> { Join(parts, |parts|) }

  /** The packets that carry the given pieces; the index and the count are cut to 16 bits. */
  function PacketsOf(seqNo: nat, parts: seq<seq<Byte>>): (packets: seq<Packet>)
    ensures |packets| == |parts|
  {
    seq(|parts|, i requires 0 <= i < |parts| => Packet(seqNo, i % U16, |parts| % U16, parts[i]))
  }

  // ----------------------------------------------------------- reassembling

  datatype RState = RState(seqNo: Option<nat>, count: nat, got: nat, buf: seq<Byte>)

  const FRESH := RState(None, 0, 0, [])

  /** `Reassembler::push` after the header is read. */
  function Absorb(st: RState, p: Packet): (RState, Option<seq<Byte>>) {
    var st1 := if p.idx == 0 then RState(Some(p.seqNo), p.count, 0, []) else st;
    if st1.seqNo != Some(p.seqNo) then (st1, None)
    else
      var buf := st1.buf + p.payload;
      if st1.got + 1 >= st1.count then (RState(None, st1.count, st1.got + 1, []), Some(buf))
      else (RState(st1.seqNo, st1.count, st1.got + 1, buf), None)
  }

  function Feed(st: RState, ps: seq<Packet>): (RState, seq<seq<Byte>>)
    decreases |ps|
  {
    if ps == [] then (st, [])
    else
      var (st1, o) := Absorb(st, ps[0]);
      var (st2, os) := Feed(st1, ps[1..]);
      (st2, if o.Some? then [o.value] + os else os)
  }

  lemma FeedCons(st: RState, p: Packet, rest: seq<Packet>)
    ensures var (st1, o) := Absorb(st, p);
            var (st2, os) := Feed(st1, rest);
            Feed(st, [p] + rest) == (st2, if o.Some? then [o.value] + os else os)
  {
    assert ([p] + rest)[1..] == rest;
  }

  lemma FeedOne(st: RState, p: Packet)
    ensures var (st1, o) := Absorb(st, p);
            Feed(st, [p]) == (st1, if o.Some? then [o.value] else [])
  {
    FeedCons(st, p, []);
    assert [p] + [] == [p];
    var o := Absorb(st, p).1;
    if o.Some? {
      assert [o.value] + [] == [o.value];
    }
  }

  lemma {:induction false} FeedConcat(st: RState, a: seq<Packet>, b: seq<Packet>)
    ensures var (st1, x) := Feed(st, a);
            var (st2, y) := Feed(st1, b);
            Feed(st, a + b) == (st2, x + y)
    decreases |a|
  {
    if a == [] {
      assert a + b == b;
      assert Feed(st, a).1 + Feed(st, b).1 == Feed(st, b).1;
    } else {
      assert (a + b)[1..] == a[1..] + b;
      var (st0, o) := Absorb(st, a[0]);
      FeedConcat(st0, a[1..], b);
      var (st1, x) := Feed(st0, a[1..]);
      if o.Some? {
        Assoc([o.value], x, Feed(st1, b).1);
      }
    }
  }

  // ---------------------------------------------------- facts about cutting

  lemma {:induction false} JoinFront(p: seq<Byte>, ps: seq<seq<Byte>>, n: nat)
    requires n <= |ps|
    ensures Join([p] + ps, n + 1) == p + Join(ps, n)
  {
    var all := [p] + ps;
    if n == 0 {
      assert Join(all, 1) == Join(all, 0) + p;
    } else {
      JoinFront(p, ps, n - 1);
      assert all[n] == ps[n - 1];
      Assoc(p, Join(ps, n - 1), ps[n - 1]);
    }
  }

  /** Cutting loses nothing, no piece exceeds the limit, and a frame that has bytes has no empty piece. */
  lemma {:induction false} PartsExact(frame: seq<Byte>, max: nat)
    requires max >= 1
    ensures Concat(Parts(frame, max)) == frame
    ensures forall k :: 0 <= k < |Parts(frame, max)| ==> |Parts(frame, max)[k]| <= max
    ensures frame != [] ==> forall k :: 0 <= k < |Parts(frame, max)| ==> Parts(frame, max)[k] != []
    decreases |frame|
  {
    if |frame| > max {
      PartsExact(frame[max..], max);
      JoinFront(frame[..max], Parts(frame[max..], max), |Parts(frame[max..], max)|);
    } else {
      assert Join([frame], 1) == Join([frame], 0) + frame;
    }
  }

  /** How many packets a frame takes: its length divided by the payload limit, rounded up. */
  lemma {:induction false} PartsCount(frame: seq<Byte>, max: nat)
    requires max >= 1
    ensures |frame| <= |Parts(frame, max)| * max
    ensures |frame| > 0 ==> (|Parts(frame, max)| - 1) * max < |frame|
    decreases |frame|
  {
    if |frame| > max {
      PartsCount(frame[max..], max);
      var n := |Parts(frame[max..], max)|;
      assert |Parts(frame, max)| == n + 1;
      assert (n + 1) * max == n * max + max;
      assert n * max == (n - 1) * max + max;
    }
  }

  // ------------------------------------------------------- lossy reassembly

  /** The order-preserving subsequence of `xs` from position `i` on that a mask selects. */
  function KeepFrom<T>(xs: seq<T>, mask: seq<bool>, i: nat): seq<T>
    requires i <= |xs| == |mask|
    decreases |xs| - i
  {
    if i == |xs| then []
    else if mask[i] then [xs[i]] + KeepFrom(xs, mask, i + 1)
    else KeepFrom(xs, mask, i + 1)
  }

  function Keep<T>(xs: seq<T>, mask: seq<bool>): seq<T> requires |xs| == |mask| { KeepFrom(xs, mask, 0) }

  predicate AllSetFrom(mask: seq<bool>, i: nat) { forall k :: i <= k < |mask| ==> mask[k] }

  predicate AllSet(mask: seq<bool>) { AllSetFrom(mask, 0) }

  /** The first packet of a frame starts it afresh, and completes it if the count field says at most one. */
  lemma AbsorbFirst(st: RState, q: nat, parts: seq<seq<Byte>>)
    requires parts != []
    ensures var m := |parts| % U16;
            Absorb(st, PacketsOf(q, parts)[0]) ==
            if m <= 1 then (RState(None, m, 1, []), Some(Join(parts, 1)))
            else (RState(Some(q), m, 1, Join(parts, 1)), None)
  {
    assert [] + parts[0] == parts[0];
  }

  /** A packet other than the first: how it acts on a state that has lost sync, and on one that has not. */
  lemma AbsorbLater(st: RState, q: nat, parts: seq<seq<Byte>>, i: nat)
    requires 1 <= i < |parts| < U16
    ensures var (st1, o), n := Absorb(st, PacketsOf(q, parts)[i]), |parts|;
            && (st.seqNo != Some(q) ==> st1 == st && o == None)
            && (st.seqNo == Some(q) && st.count == n && st.got < i ==>
                  st1.seqNo == Some(q) && st1.count == n && st1.got < i + 1 && o == None)
            && (st == RState(Some(q), n, i, Join(parts, i)) ==>
                  if i + 1 == n then st1.seqNo == None && o == Some(Concat(parts))
                  else st1 == RState(Some(q), n, i + 1, Join(parts, i + 1)) && o == None)
  {
  }

  /** Feeding what is kept from position `i` on starts with packet `i`, if it is kept. */
  lemma FeedKept(st: RState, ps: seq<Packet>, mask: seq<bool>, i: nat)
    requires i < |ps| == |mask|
    ensures Feed(st, KeepFrom(ps, mask, i)) ==
            if mask[i] then
              var (st1, o) := Absorb(st, ps[i]);
              var (st2, os) := Feed(st1, KeepFrom(ps, mask, i + 1));
              (st2, if o.Some? then [o.value] + os else os)
            else Feed(st, KeepFrom(ps, mask, i + 1))
  {
    if mask[i] {
      FeedCons(st, ps[i], KeepFrom(ps, mask, i + 1));
    }
  }

  /** Once a packet of the frame is missing, its remaining packets produce nothing. */
  lemma {:induction false} FeedBroken(st: RState, q: nat, parts: seq<seq<Byte>>, i: nat, mask: seq<bool>)
    requires 1 <= i <= |mask| == |parts| < U16
    requires st.seqNo != Some(q) || (st.count == |mask| && st.got < i)
    ensures var (st1, out) := Feed(st, KeepFrom(PacketsOf(q, parts), mask, i));
            out == [] && st1.seqNo == st.seqNo
    decreases |mask| - i
  {
    if i < |mask| {
      var ps := PacketsOf(q, parts);
      AbsorbLater(st, q, parts, i);
      FeedKept(st, ps, mask, i);
      FeedBroken(if mask[i] then Absorb(st, ps[i]).0 else st, q, parts, i + 1, mask);
    }
  }

  /** While no packet of the frame is missing, the buffer is the frame so far. */
  lemma {:induction false} FeedInSync(st: RState, q: nat, parts: seq<seq<Byte>>, i: nat, mask: seq<bool>)
    requires 1 <= i < |mask| == |parts| < U16
    requires st == RState(Some(q), |mask|, i, Join(parts, i))
    ensures var (st1, out) := Feed(st, KeepFrom(PacketsOf(q, parts), mask, i));
            if AllSetFrom(mask, i) then out == [Concat(parts)] && st1.seqNo == None else out == [] && st1.seqNo == Some(q)
    decreases |mask| - i
  {
    var ps := PacketsOf(q, parts);
    AbsorbLater(st, q, parts, i);
    FeedKept(st, ps, mask, i);
    assert AllSetFrom(mask, i) <==> mask[i] && AllSetFrom(mask, i + 1);
    if !mask[i] {
      FeedBroken(st, q, parts, i + 1, mask);
    } else if i + 1 < |mask| {
      FeedInSync(Absorb(st, ps[i]).0, q, parts, i + 1, mask);
    }
  }

  /** The surviving packets of one frame yield that frame if they all survived and nothing otherwise. */
  lemma FeedFrame(st: RState, q: nat, parts: seq<seq<Byte>>, mask: seq<bool>)
    requires 1 <= |mask| == |parts| < U16
    requires AllSet(mask) || st.seqNo != Some(q)
    ensures var (st1, out) := Feed(st, Keep(PacketsOf(q, parts), mask));
            && out == (if AllSet(mask) then [Concat(parts)] else [])
            && (st1.seqNo == None || st1.seqNo == Some(q) || st1.seqNo == st.seqNo)
  {
    var ps := PacketsOf(q, parts);
    FeedKept(st, ps, mask, 0);
    if mask[0] {
      FeedStarted(st, q, parts, mask);
    } else {
      FeedBroken(st, q, parts, 1, mask);
      assert !AllSet(mask);
    }
  }

  /** The same from the first packet on. */
  lemma FeedStarted(st: RState, q: nat, parts: seq<seq<Byte>>, mask: seq<bool>)
    requires 1 <= |mask| == |parts| < U16 && mask[0]
    ensures var (st1, out) := Feed(st, KeepFrom(PacketsOf(q, parts), mask, 0));
            && out == (if AllSet(mask) then [Concat(parts)] else [])
            && (st1.seqNo == None || st1.seqNo == Some(q))
  {
    var ps := PacketsOf(q, parts);
    AbsorbFirst(st, q, parts);
    FeedKept(st, ps, mask, 0);
    assert AllSet(mask) <==> AllSetFrom(mask, 1);
    if |mask| > 1 {
      FeedInSync(Absorb(st, ps[0]).0, q, parts, 1, mask);
    }
  }

  // ------------------------------------------------------------- whole runs

  /** A frame cut into pieces. */
  type Cut = seq<seq<Byte>>

  /** The frame has pieces, and as many as the u16 count can announce. */
  predicate Fits(cut: Cut) { 1 <= |cut| < U16 }

  predicate AllFit(cuts: seq<Cut>) { forall k :: 0 <= k < |cuts| ==> Fits(cuts[k]) }

  /** Everything a new chunker emits for a run of frames; frame `k` is numbered `k` as a u32. */
  function Emit(cuts: seq<Cut>): seq<Packet> {
    if cuts == [] then []
    else
      var n := |cuts| - 1;
      Emit(cuts[..n]) + PacketsOf(n % U32, cuts[n])
  }

  /** The frames of a run. */
  function Frames(cuts: seq<Cut>): (frames: seq<seq<Byte>>)
    ensures |frames| == |cuts|
  {
    seq(|cuts|, k requires 0 <= k < |cuts| => Concat(cuts[k]))
  }

  lemma FramesSnoc(cuts: seq<Cut>, cut: Cut)
    ensures Frames(cuts + [cut]) == Frames(cuts) + [Concat(cut)]
  {
  }

  /** One survival mask per frame, with one bit per packet. */
  predicate MasksFor(cuts: seq<Cut>, masks: seq<seq<bool>>) {
    |masks| == |cuts| && forall k :: 0 <= k < |cuts| ==> |masks[k]| == |cuts[k]|
  }

  /** The order-preserving subsequence of the packets of the first `n` frames that the masks select. */
  function Delivered(cuts: seq<Cut>, masks: seq<seq<bool>>, n: nat): seq<Packet>
    requires MasksFor(cuts, masks) && n <= |cuts|
  {
    if n == 0 then []
    else Delivered(cuts, masks, n - 1) + Keep(PacketsOf((n - 1) % U32, cuts[n - 1]), masks[n - 1])
  }

  /** Those of the first `n` frames none of whose packets was lost, in order. */
  function Survivors(cuts: seq<Cut>, masks: seq<seq<bool>>, n: nat): seq<seq<Byte>>
    requires n <= |masks| == |cuts|
  {
    if n == 0 then []
    else if AllSet(masks[n - 1]) then Survivors(cuts, masks, n - 1) + [Concat(cuts[n - 1])]
    else Survivors(cuts, masks, n - 1)
  }

  lemma LossyFrame(head: seq<Packet>, n: nat, cut: Cut, mask: seq<bool>)
    requires Fits(cut) && |mask| == |cut|
    requires var st := Feed(FRESH, head).0; st.seqNo.Some? ==> st.seqNo.value < n
    ensures var (st, out) := Feed(FRESH, head + Keep(PacketsOf(n, cut), mask));
            && out == Feed(FRESH, head).1 + (if AllSet(mask) then [Concat(cut)] else [])
            && (st.seqNo.Some? ==> st.seqNo.value < n + 1)
  {
    FeedFrame(Feed(FRESH, head).0, n, cut, mask);
    FeedConcat(FRESH, head, Keep(PacketsOf(n, cut), mask));
  }

  /**
   * Lossy stream: in a run of at most 2^32 frames exactly those all of whose packets survive come out, in order and
   * uncorrupted.
   */
  lemma {:induction false} LossyStream(cuts: seq<Cut>, masks: seq<seq<bool>>, n: nat)
    requires n <= |cuts| <= U32 && AllFit(cuts) && MasksFor(cuts, masks)
    ensures var (st, out) := Feed(FRESH, Delivered(cuts, masks, n));
            out == Survivors(cuts, masks, n) && (st.seqNo.Some? ==> st.seqNo.value < n)
  {
    if n > 0 {
      LossyStream(cuts, masks, n - 1);
      assert (n - 1) % U32 == n - 1 && Fits(cuts[n - 1]) && |masks[n - 1]| == |cuts[n - 1]|;
      LossyFrame(Delivered(cuts, masks, n - 1), n - 1, cuts[n - 1], masks[n - 1]);
    }
  }

  lemma {:induction false} KeepAll<T>(xs: seq<T>, mask: seq<bool>, i: nat)
    requires i <= |xs| == |mask| && AllSetFrom(mask, i)
    ensures KeepFrom(xs, mask, i) == xs[i..]
    decreases |xs| - i
  {
    if i < |xs| {
      KeepAll(xs, mask, i + 1);
    }
  }

  /** A complete frame comes out whatever state the reassembler was in. */
  lemma CompleteFrame(st: RState, q: nat, cut: Cut)
    requires Fits(cut)
    ensures Feed(st, PacketsOf(q, cut)).1 == [Concat(cut)]
  {
    var ps := PacketsOf(q, cut);
    var mask := seq(|ps|, _ => true);
    KeepAll(ps, mask, 0);
    assert ps[0..] == ps;
    FeedFrame(st, q, cut, mask);
  }

  /** Without loss every frame comes out, from any prior state and for runs of any length. */
  lemma {:induction false} LosslessStream(st: RState, cuts: seq<Cut>)
    requires AllFit(cuts)
    ensures Feed(st, Emit(cuts)).1 == Frames(cuts)
  {
    if cuts != [] {
      var n := |cuts| - 1;
      LosslessStream(st, cuts[..n]);
      CompleteFrame(Feed(st, Emit(cuts[..n])).0, n % U32, cuts[n]);
      FramesSnoc(cuts[..n], cuts[n]);
      assert cuts == cuts[..n] + [cuts[n]];
      FeedConcat(st, Emit(cuts[..n]), PacketsOf(n % U32, cuts[n]));
    }
  }

  // -------------------------------------------------- the limits are exact

  /** Accumulating fewer packets than the count announces produces nothing. */
  lemma {:induction false} FeedShort(st: RState, q: nat, cut: Cut, i: nat, j: nat)
    requires 1 <= i <= j <= |cut| && j < U16
    requires st.seqNo == Some(q) && st.got == i && j < st.count && st.buf == Join(cut, i)
    ensures Feed(st, PacketsOf(q, cut)[i..j]) == (st.(got := j, buf := Join(cut, j)), [])
    decreases j - i
  {
    var ps := PacketsOf(q, cut);
    if i == j {
      assert ps[i..j] == [];
    } else {
      assert ps[i..j] == [ps[i]] + ps[i + 1..j];
      FeedCons(st, ps[i], ps[i + 1..j]);
      FeedShort(Absorb(st, ps[i]).0, q, cut, i + 1, j);
    }
  }

  lemma {:induction false} JoinShorter(parts: seq<seq<Byte>>, k: nat, n: nat)
    requires k < n <= |parts| && forall i :: 0 <= i < |parts| ==> parts[i] != []
    ensures |Join(parts, k)| < |Join(parts, n)|
  {
    if k + 1 < n {
      JoinShorter(parts, k, n - 1);
    }
  }

  /** The number of packets after which a frame of `n` first looks complete: the count as its u16 field shows it. */
  function FirstComplete(n: nat): nat { if n % U16 == 0 then 1 else n % U16 }

  lemma AbsorbLast(st: RState, q: nat, cut: Cut, k: nat)
    requires 2 <= k <= |cut| && k < U16
    requires st == RState(Some(q), k, k - 1, Join(cut, k - 1))
    ensures Absorb(st, PacketsOf(q, cut)[k - 1]).1 == Some(Join(cut, k))
  {
  }

  lemma FirstOutput(st: RState, q: nat, cut: Cut)
    requires cut != []
    ensures var k := FirstComplete(|cut|);
            k <= |cut| && Feed(st, PacketsOf(q, cut)[..k]).1 == [Join(cut, k)]
  {
    var ps := PacketsOf(q, cut);
    var k := FirstComplete(|ps|);
    AbsorbFirst(st, q, cut);
    FeedOne(st, ps[0]);
    assert ps[..1] == [ps[0]];
    if k > 1 {
      var st1 := Absorb(st, ps[0]).0;
      FeedShort(st1, q, cut, 1, k - 1);
      var st2 := Feed(st1, ps[1..k - 1]).0;
      AbsorbLast(st2, q, cut, k);
      FeedOne(st2, ps[k - 1]);
      FeedConcat(st1, ps[1..k - 1], [ps[k - 1]]);
      FeedCons(st, ps[0], ps[1..k - 1] + [ps[k - 1]]);
      assert ps[..k] == [ps[0]] + (ps[1..k - 1] + [ps[k - 1]]);
    }
  }

  /** A frame of more than 65535 packets announces a truncated count, so its first output is a proper piece of it. */
  lemma OversizedFrameCorrupts(st: RState, q: nat, cut: Cut)
    requires |cut| >= U16 && forall i :: 0 <= i < |cut| ==> cut[i] != []
    ensures var out := Feed(st, PacketsOf(q, cut)).1;
            out != [] && |out[0]| < |Concat(cut)|
  {
    var ps, k := PacketsOf(q, cut), FirstComplete(|cut|);
    FirstOutput(st, q, cut);
    assert ps == ps[..k] + ps[k..];
    FeedConcat(st, ps[..k], ps[k..]);
    JoinShorter(cut, k, |cut|);
  }

  /** A frame survives cutting and reassembly exactly when its packet count fits the u16 field. */
  lemma FrameRoundTripIff(st: RState, q: nat, frame: seq<Byte>, max: nat)
    requires max >= 1
    ensures Feed(st, PacketsOf(q, Parts(frame, max))).1 == [frame] <==> |Parts(frame, max)| < U16
  {
    var cut := Parts(frame, max);
    PartsExact(frame, max);
    if Fits(cut) {
      CompleteFrame(st, q, cut);
    } else {
      OversizedFrameCorrupts(st, q, cut);
    }
  }
}
