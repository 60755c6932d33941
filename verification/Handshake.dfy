/**
 * The session handshake: a symmetric PAKE, then an exchange of tags that bind the key to both DTLS fingerprints.
 * PAKE, key derivation and HMAC are ideal: free constructors, so that results agree exactly when their inputs do.
 */
module Handshake {
  import opened Base

  // ------------------------------------------------------------ ideal crypto

  /** A session key: each side derives it from its own password and the two shares exchanged, in either order. */
  datatype Key = Key(password: string, shares: set<nat>)

  /** HMAC under a session key. */
  datatype Tag = Mac(key: Key, input: string)

  /** A PAKE message carries a share; a malformed one carries none and makes the PAKE fail. */
  datatype Message = Pake(share: Option<nat>) | Binding(tag: Tag)

  const LABEL := "dtls-binding-v1\0"
  const NUL := "\0"

  /** Rust's order on `&str`. */
  predicate AtMost(a: string, b: string) {
    if a == [] then true
    else if b == [] then false
    else a[0] < b[0] || (a[0] == b[0] && AtMost(a[1..], b[1..]))
  }

  /** What the tag covers: the two fingerprints in order, separated by a NUL. */
  function BindingInput(fpA: string, fpB: string): string {
    var lo, hi := if AtMost(fpA, fpB) then fpA else fpB, if AtMost(fpA, fpB) then fpB else fpA;
    LABEL + lo + NUL + hi
  }

  function SessionBinding(key: Key, fpA: string, fpB: string): Tag { Mac(key, BindingInput(fpA, fpB)) }

  // ------------------------------------------------------------- one side

  datatype State =
    | AwaitingPake(password: string, share: nat)
    | AwaitingBinding(key: Key, myBinding: Tag)
    | Confirmed(confirmed: Key)
    | Failed

  function Respond(ownFp: string, peerFp: string, s: State, m: Message): (State, Option<Message>) {
    match (s, m)
    case (AwaitingPake(pw, share), Pake(inbound)) =>
      if inbound.None? then (Failed, None)
      else
        var key := Key(pw, {share, inbound.value});
        var tag := SessionBinding(key, ownFp, peerFp);
        (AwaitingBinding(key, tag), Some(Binding(tag)))
    case (AwaitingBinding(key, mine), Binding(theirs)) => (if mine == theirs then Confirmed(key) else Failed, None)
    case _ => (Failed, None)
  }

  class Handshake {
    const ownFp: string
    const peerFp: string
    var state: State

    constructor (password: string, share: nat, ownFp: string, peerFp: string)
      ensures this.ownFp == ownFp && this.peerFp == peerFp && state == AwaitingPake(password, share)
    {
      this.ownFp, this.peerFp := ownFp, peerFp;
      state := AwaitingPake(password, share);
    }

    method OnMessage(m: Message) returns (reply: Option<Message>)
      modifies this
      ensures (state, reply) == Respond(ownFp, peerFp, old(state), m)
      ensures old(state).Confirmed? || old(state).Failed? ==> state == Failed && reply == None
    {
      var was := state;
      state := Failed;
      reply := None;
      match (was, m) {
        case (AwaitingPake(pw, share), Pake(inbound)) =>
          if inbound.Some? {
            var key := Key(pw, {share, inbound.value});
            var tag := SessionBinding(key, ownFp, peerFp);
            state := AwaitingBinding(key, tag);
            reply := Some(Binding(tag));
          }
        case (AwaitingBinding(key, mine), Binding(theirs)) =>
          if mine == theirs {
            state := Confirmed(key);
          }
        case _ =>
      }
    }

    method ConfirmedKey() returns (key: Option<Key>)
      ensures key.Some? <==> state.Confirmed?
      ensures key.Some? ==> key.value == state.confirmed
    {
      key := if state.Confirmed? then Some(state.confirmed) else None;
    }
  }

  /** The constant-time comparison: folding the differences with `|` finds every one of them. */
  method CtEq(a: seq<bv8>, b: seq<bv8>) returns (eq: bool)
    requires |a| == |b|
    ensures eq <==> a == b
  {
    var acc: bv8 := 0;
    for i := 0 to |a|
      invariant acc == 0 <==> a[..i] == b[..i]
    {
      assert a[..i + 1] == a[..i] + [a[i]] && b[..i + 1] == b[..i] + [b[i]];
      DifferenceKept(acc, a[i], b[i]);
      acc := acc | (a[i] ^ b[i]);
    }
    assert a[..|a|] == a && b[..|a|] == b;
    eq := acc == 0;
  }

  lemma DifferenceKept(acc: bv8, x: bv8, y: bv8)
    ensures acc | (x ^ y) == 0 <==> acc == 0 && x == y
  {
  }

  // -------------------------------------------------- the order of fingerprints

  lemma {:induction false} AtMostTotal(a: string, b: string)
    ensures AtMost(a, b) || AtMost(b, a)
  {
    if a != [] && b != [] && a[0] == b[0] {
      AtMostTotal(a[1..], b[1..]);
    }
  }

  lemma {:induction false} AtMostAntisymmetric(a: string, b: string)
    requires AtMost(a, b) && AtMost(b, a)
    ensures a == b
  {
    if a != [] {
      AtMostAntisymmetric(a[1..], b[1..]);
      assert a == [a[0]] + a[1..] && b == [b[0]] + b[1..];
    }
  }

  predicate SamePair(a: string, b: string, c: string, d: string) { (a == c && b == d) || (a == d && b == c) }

  predicate NulFree(s: string) { NUL[0] !in s }

  /** The tag input does not depend on which fingerprint is whose. */
  lemma BindingSymmetric(a: string, b: string)
    ensures BindingInput(a, b) == BindingInput(b, a)
  {
    AtMostTotal(a, b);
    if AtMost(a, b) && AtMost(b, a) {
      AtMostAntisymmetric(a, b);
    }
  }

  lemma SplitAtNul(lo1: string, hi1: string, lo2: string, hi2: string)
    requires NulFree(lo1) && NulFree(lo2) && lo1 + NUL + hi1 == lo2 + NUL + hi2
    ensures lo1 == lo2 && hi1 == hi2
  {
    var s, t := lo1 + NUL + hi1, lo2 + NUL + hi2;
    assert s[|lo1|] == NUL[0] && t[|lo2|] == NUL[0];
    assert forall k :: 0 <= k < |lo1| ==> s[k] == lo1[k] != NUL[0];
    assert forall k :: 0 <= k < |lo2| ==> t[k] == lo2[k] != NUL[0];
    assert s[..|lo1|] == lo1 && t[..|lo2|] == lo2;
    assert s[|lo1| + 1..] == hi1 && t[|lo2| + 1..] == hi2;
  }

  /** For fingerprints without NUL the tag input determines the unordered pair. */
  lemma BindingInputIff(a: string, b: string, c: string, d: string)
    requires NulFree(a) && NulFree(b) && NulFree(c) && NulFree(d)
    ensures BindingInput(a, b) == BindingInput(c, d) <==> SamePair(a, b, c, d)
  {
    if SamePair(a, b, c, d) {
      BindingSymmetric(a, b);
    }
    if BindingInput(a, b) == BindingInput(c, d) {
      var lo1, hi1 := if AtMost(a, b) then a else b, if AtMost(a, b) then b else a;
      var lo2, hi2 := if AtMost(c, d) then c else d, if AtMost(c, d) then d else c;
      assert BindingInput(a, b)[|LABEL|..] == lo1 + NUL + hi1;
      assert BindingInput(c, d)[|LABEL|..] == lo2 + NUL + hi2;
      SplitAtNul(lo1, hi1, lo2, hi2);
    }
  }

  /** With a NUL inside a fingerprint two different pairs can have one tag input. */
  lemma NulConfuses()
    ensures !SamePair("x\0y", "z", "x", "y\0z") && BindingInput("x\0y", "z") == BindingInput("x", "y\0z")
  {
    assert AtMost("x\0y", "z") && AtMost("x", "y\0z");
    assert LABEL + "x\0y" + NUL + "z" == LABEL + "x" + NUL + "y\0z";
  }

  // ------------------------------------------------ one side, any messages

  /** A side's state after whatever messages, and what it replied. */
  function FeedSide(ownFp: string, peerFp: string, pw: string, share: nat, ms: seq<Message>): (State, seq<Message>) {
    if ms == [] then (AwaitingPake(pw, share), [])
    else
      var (st, out) := FeedSide(ownFp, peerFp, pw, share, ms[..|ms| - 1]);
      var (st1, o) := Respond(ownFp, peerFp, st, ms[|ms| - 1]);
      (st1, out + if o.Some? then [o.value] else [])
  }

  /** The tag that confirms a side: HMAC under its key over the label and both fingerprints as it sees them. */
  function OwnTag(ownFp: string, peerFp: string, pw: string, share: nat, theirs: nat): Tag {
    Mac(Key(pw, {share, theirs}), BindingInput(ownFp, peerFp))
  }

  /**
   * Whatever a side is sent, by whomever: it has its key after one well-formed PAKE message, it is confirmed after that
   * and its own tag, and after anything else it has failed. It replies with its tag to the first PAKE message, if that
   * is well-formed and comes first, and with nothing else.
   */
  lemma {:induction false} SideIsStrict(ownFp: string, peerFp: string, pw: string, share: nat, ms: seq<Message>)
    ensures var (st, out) := FeedSide(ownFp, peerFp, pw, share, ms);
            if ms == [] then st == AwaitingPake(pw, share) && out == []
            else if !ms[0].Pake? || ms[0].share.None? then st == Failed && out == []
            else
              var theirs := ms[0].share.value;
              var key, tag := Key(pw, {share, theirs}), OwnTag(ownFp, peerFp, pw, share, theirs);
              && out == [Binding(tag)]
              && st == if |ms| == 1 then AwaitingBinding(key, tag)
                       else if |ms| == 2 && ms[1] == Binding(tag) then Confirmed(key)
                       else Failed
  {
    if ms != [] {
      var n := |ms| - 1;
      SideIsStrict(ownFp, peerFp, pw, share, ms[..n]);
      assert n >= 1 ==> ms[..n][0] == ms[0];
      assert n >= 2 ==> ms[..n][1] == ms[1];
    }
  }

  /** So a side is confirmed with a key if and only if it got exactly one share and the tag of that key, in this order. */
  lemma ConfirmedIff(ownFp: string, peerFp: string, pw: string, share: nat, ms: seq<Message>, k: Key)
    ensures FeedSide(ownFp, peerFp, pw, share, ms).0 == Confirmed(k)
            <==> |ms| == 2 && ms[0].Pake? && ms[0].share.Some?
                 && k == Key(pw, {share, ms[0].share.value})
                 && ms[1] == Binding(Mac(k, BindingInput(ownFp, peerFp)))
  {
    SideIsStrict(ownFp, peerFp, pw, share, ms);
  }

  /** And a side that has failed, or is confirmed and gets another message, has failed for good. */
  lemma {:induction false} FailedForGood(
      ownFp: string, peerFp: string, pw: string, share: nat, ms: seq<Message>, more: seq<Message>)
    requires var st := FeedSide(ownFp, peerFp, pw, share, ms).0; st.Failed? || (st.Confirmed? && more != [])
    ensures FeedSide(ownFp, peerFp, pw, share, ms + more).0 == Failed
  {
    SideIsStrict(ownFp, peerFp, pw, share, ms);
    SideIsStrict(ownFp, peerFp, pw, share, ms + more);
    if more == [] {
      assert ms + more == ms;
    } else {
      assert forall k :: 0 <= k < |ms| ==> (ms + more)[k] == ms[k];
    }
  }

  /**
   * Nobody in between can make a side confirm with what another side sent: if the tag it was confirmed by is one that a
   * side of the same or another session made, that side used the same password and saw the same pair of fingerprints.
   */
  lemma TagsCannotBeRelayed(
      ownA: string, peerA: string, pwA: string, shareA: nat, toA: seq<Message>,
      ownB: string, peerB: string, pwB: string, shareB: nat, toB: seq<Message>)
    requires NulFree(ownA) && NulFree(peerA) && NulFree(ownB) && NulFree(peerB)
    requires FeedSide(ownA, peerA, pwA, shareA, toA).0.Confirmed? && |toA| == 2
    requires toA[1] in FeedSide(ownB, peerB, pwB, shareB, toB).1
    ensures pwA == pwB && SamePair(ownA, peerA, ownB, peerB)
  {
    SideIsStrict(ownA, peerA, pwA, shareA, toA);
    SideIsStrict(ownB, peerB, pwB, shareB, toB);
    BindingInputIff(ownA, peerA, ownB, peerB);
  }

  // ------------------------------------------------------------- both sides

  datatype Side = Side(ownFp: string, peerFp: string, state: State)

  /** Two sides and the two FIFO channels between them. */
  datatype Net = Net(a: Side, b: Side, toA: seq<Message>, toB: seq<Message>)

  datatype Setup = Setup(pwA: string, pwB: string, shareA: nat, shareB: nat,
                         ownA: string, peerA: string, ownB: string, peerB: string)

  function Begin(p: Setup): Net {
    Net(Side(p.ownA, p.peerA, AwaitingPake(p.pwA, p.shareA)), Side(p.ownB, p.peerB, AwaitingPake(p.pwB, p.shareB)),
        [Pake(Some(p.shareB))], [Pake(Some(p.shareA))])
  }

  function Sent(o: Option<Message>): seq<Message> { if o.Some? then [o.value] else [] }

  function Deliver(n: Net, left: bool): Net
    requires if left then n.toA != [] else n.toB != []
  {
    if left then
      var (s, o) := Respond(n.a.ownFp, n.a.peerFp, n.a.state, n.toA[0]);
      Net(n.a.(state := s), n.b, n.toA[1..], n.toB + Sent(o))
    else
      var (s, o) := Respond(n.b.ownFp, n.b.peerFp, n.b.state, n.toB[0]);
      Net(n.a, n.b.(state := s), n.toA + Sent(o), n.toB[1..])
  }

  /** The network after a schedule of deliveries (true: to A), if no delivery finds its channel empty. */
  function Run(p: Setup, schedule: seq<bool>): Option<Net> {
    if schedule == [] then Some(Begin(p))
    else
      var prev := Run(p, schedule[..|schedule| - 1]);
      var left := schedule[|schedule| - 1];
      if prev.None? || (if left then prev.value.toA else prev.value.toB) == [] then None
      else Some(Deliver(prev.value, left))
  }

  function Count(schedule: seq<bool>, left: bool): nat {
    if schedule == [] then 0
    else Count(schedule[..|schedule| - 1], left) + if schedule[|schedule| - 1] == left then 1 else 0
  }

  function KeyA(p: Setup): Key { Key(p.pwA, {p.shareA, p.shareB}) }
  function KeyB(p: Setup): Key { Key(p.pwB, {p.shareA, p.shareB}) }
  function TagA(p: Setup): Tag { SessionBinding(KeyA(p), p.ownA, p.peerA) }
  function TagB(p: Setup): Tag { SessionBinding(KeyB(p), p.ownB, p.peerB) }

  /** One side's state after `n` of its two deliveries. */
  function After(n: nat, pw: string, share: nat, key: Key, mine: Tag, theirs: Tag): State {
    if n == 0 then AwaitingPake(pw, share)
    else if n == 1 then AwaitingBinding(key, mine)
    else if mine == theirs then Confirmed(key)
    else Failed
  }

  /** All a side ever sends, of which the first `1 + min(1, n)` are out after `n` deliveries to it. */
  function Outgoing(n: nat, share: nat, tag: Tag): seq<Message> {
    if n == 0 then [Pake(Some(share))] else [Pake(Some(share)), Binding(tag)]
  }

  /** The one network that `i` deliveries to A and `j` to B can lead to. */
  function Meeting(p: Setup, i: nat, j: nat): Net
    requires i <= 2 && j <= 2 && (i == 2 ==> j >= 1) && (j == 2 ==> i >= 1)
  {
    Net(Side(p.ownA, p.peerA, After(i, p.pwA, p.shareA, KeyA(p), TagA(p), TagB(p))),
        Side(p.ownB, p.peerB, After(j, p.pwB, p.shareB, KeyB(p), TagB(p), TagA(p))),
        Outgoing(j, p.shareB, TagB(p))[i..], Outgoing(i, p.shareA, TagA(p))[j..])
  }

  lemma {:induction false} RunMeets(p: Setup, schedule: seq<bool>)
    requires Run(p, schedule).Some?
    ensures var i, j := Count(schedule, true), Count(schedule, false);
            && i + j == |schedule|
            && i <= 2 && j <= 2 && (i == 2 ==> j >= 1) && (j == 2 ==> i >= 1)
            && Run(p, schedule).value == Meeting(p, i, j)
  {
    if schedule != [] {
      var init, left := schedule[..|schedule| - 1], schedule[|schedule| - 1];
      RunMeets(p, init);
      var i, j := Count(init, true), Count(init, false);
      assert {p.shareA, p.shareB} == {p.shareB, p.shareA};
      assert Count(schedule, left) == Count(init, left) + 1 && Count(schedule, !left) == Count(init, !left);
      if left {
        DeliverLeft(p, i, j);
      } else {
        DeliverRight(p, i, j);
      }
    }
  }

  lemma DeliverLeft(p: Setup, i: nat, j: nat)
    requires i <= 2 && j <= 2 && (i == 2 ==> j >= 1) && (j == 2 ==> i >= 1)
    requires Meeting(p, i, j).toA != []
    ensures i + 1 <= 2 && (i + 1 == 2 ==> j >= 1) && Deliver(Meeting(p, i, j), true) == Meeting(p, i + 1, j)
  {
    var n := Meeting(p, i, j);
    assert {p.shareA, p.shareB} == {p.shareB, p.shareA};
    assert n.toA[1..] == Meeting(p, i + 1, j).toA;
    assert i == 0 ==> n.toB + [Binding(TagA(p))] == Meeting(p, 1, j).toB;
    assert n.toB + [] == n.toB;
  }

  lemma DeliverRight(p: Setup, i: nat, j: nat)
    requires i <= 2 && j <= 2 && (i == 2 ==> j >= 1) && (j == 2 ==> i >= 1)
    requires Meeting(p, i, j).toB != []
    ensures j + 1 <= 2 && (j + 1 == 2 ==> i >= 1) && Deliver(Meeting(p, i, j), false) == Meeting(p, i, j + 1)
  {
    var n := Meeting(p, i, j);
    assert {p.shareA, p.shareB} == {p.shareB, p.shareA};
    assert n.toB[1..] == Meeting(p, i, j + 1).toB;
    assert j == 0 ==> n.toA + [Binding(TagB(p))] == Meeting(p, i, 1).toA;
    assert n.toA + [] == n.toA;
  }

  /** Every interleaving can be continued until it has four deliveries, and none has more. */
  lemma FourDeliveries(p: Setup, schedule: seq<bool>)
    requires Run(p, schedule).Some?
    ensures |schedule| <= 4
    ensures |schedule| < 4 <==> Run(p, schedule).value.toA != [] || Run(p, schedule).value.toB != []
  {
    RunMeets(p, schedule);
  }

  /**
   * Confluence: whatever the interleaving, after four deliveries both sides are confirmed with one key exactly when the
   * passwords are equal and both saw the same unordered pair of fingerprints; otherwise both have failed.
   */
  lemma Confluence(p: Setup, schedule: seq<bool>)
    requires Run(p, schedule).Some? && |schedule| == 4
    requires NulFree(p.ownA) && NulFree(p.peerA) && NulFree(p.ownB) && NulFree(p.peerB)
    ensures var n := Run(p, schedule).value;
            if p.pwA == p.pwB && SamePair(p.ownA, p.peerA, p.ownB, p.peerB) then
              n.a.state == n.b.state == Confirmed(Key(p.pwA, {p.shareA, p.shareB}))
            else n.a.state == n.b.state == Failed
  {
    RunMeets(p, schedule);
    BindingInputIff(p.ownA, p.peerA, p.ownB, p.peerB);
  }
}
