/**
 * The session moves on: when the tags agree, whatever steps have been taken, only so many more can follow before the
 * sender seals again, and when none can, the receiver has opened everything that was sealed.
 */
module SessionProgress {
  import opened Base
  import opened Crypto
  import Handshake
  import Pipeline
  import Uplink
  import opened Session

  /** A step that moves something along: not one that seals a message or ends the session, nor one over an empty inbox. */
  predicate Useful(w: Params, st: Session, s: Step) {
    && Enabled(w, st, s)
    && match s
       case Produce(_) => false
       case Bye => false
       case TakeBatch => st.inbox != []
       case Consume => st.viewer.inbox != []
       case _ => true
  }

  /** How far everything under way has still to go. */
  function Distance(st: Session): nat {
    8 * |st.host.queue| + 7 * |st.channel| + 6 * |st.buffered| + 5 * |st.inbox| + 3 * |st.batch|
    + 2 * |st.viewer.deferred| + |st.viewer.inbox| + |st.net.toB|
    + (if st.net.b.state.AwaitingPake? then 7 else 0) + (if st.busy then 1 else 0)
    + (if st.viewer.confirmed then 0 else 1)
  }

  lemma HostTakesUses(st: Session)
    requires st.net.toB != []
    ensures Distance(HostTook(st)) < Distance(st)
  {
  }

  lemma TakeUses(st: Session)
    requires st.batch != []
    ensures Distance(Taken(st)) < Distance(st)
  {
  }

  /** Every useful step brings the end nearer. */
  lemma StepUses(w: Params, st: Session, s: Step)
    requires Useful(w, st, s)
    ensures Distance(Next(w, st, s)) < Distance(st)
  {
    match s
    case HostTakes => HostTakesUses(st);
    case Take => TakeUses(st);
    case _ =>
  }

  /** Some number of useful steps, from the given state on. */
  function Onward(w: Params, st: Session, steps: seq<Step>): Option<Session>
    decreases |steps|
  {
    if steps == [] then Some(st)
    else if Useful(w, st, steps[0]) then Onward(w, Next(w, st, steps[0]), steps[1..])
    else None
  }

  lemma {:induction false} OnwardUses(w: Params, st: Session, steps: seq<Step>)
    requires Onward(w, st, steps).Some?
    ensures |steps| <= Distance(st) - Distance(Onward(w, st, steps).value)
    decreases |steps|
  {
    if steps != [] {
      StepUses(w, st, steps[0]);
      OnwardUses(w, Next(w, st, steps[0]), steps[1..]);
    }
  }

  lemma {:induction false} OnwardRuns(w: Params, before: seq<Step>, st: Session, steps: seq<Step>)
    requires Run(w, before) == Some(st) && Onward(w, st, steps).Some?
    ensures Run(w, before + steps) == Onward(w, st, steps)
    decreases |steps|
  {
    if steps == [] {
      assert before + steps == before;
    } else {
      RunSnoc(w, before, steps[0], st);
      MoveFront(before, steps);
      OnwardRuns(w, before + [steps[0]], Next(w, st, steps[0]), steps[1..]);
    }
  }

  predicate TagsAgree(w: Params) { Handshake.TagA(w.setup) == Handshake.TagB(w.setup) }

  ghost predicate Stuck(w: Params, st: Session) { forall s :: !Useful(w, st, s) }

  /** With agreeing tags no side fails, and when no handshake message is left both are confirmed. */
  lemma ShakenWell(w: Params, st: Session)
    requires Inv(w, st) && TagsAgree(w)
    ensures !st.net.a.state.Failed? && !st.net.b.state.Failed?
    ensures st.net.toA == st.net.toB == [] ==> st.net.a.state.Confirmed? && st.net.b.state.Confirmed?
  {
    Handshake.RunMeets(w.setup, st.schedule);
  }

  lemma StuckTransport(w: Params, st: Session)
    requires Looping(st) && Stuck(w, st)
    ensures !st.busy && st.batch == [] && st.channel == [] && st.net.toB == []
    ensures !st.net.a.state.Failed? && !st.viewer.ended ==> st.buffered == [] && st.inbox == []
  {
    assert !Useful(w, st, HostTakes) && !Useful(w, st, Take) && !Useful(w, st, EndBatch) && !Useful(w, st, Arrive);
    assert !Useful(w, st, Confirm) && !Useful(w, st, Drain) && !Useful(w, st, TakeBatch);
  }

  lemma StuckEnds(w: Params, st: Session)
    requires Stuck(w, st) && !st.busy
    ensures st.net.a.state.Confirmed? ==> st.viewer.confirmed && (!st.viewer.ended ==> st.viewer.inbox == [])
    ensures st.net.b.state.Confirmed? && !st.host.done ==> st.host.queue == []
  {
    assert !Useful(w, st, Confirm) && !Useful(w, st, Consume) && !Useful(w, st, Write);
  }

  /** Where nothing can move, nothing is pending, unless the receiver has ended. */
  lemma StuckIsEmpty(w: Params, st: Session)
    requires Inv(w, st) && TagsAgree(w) && Stuck(w, st) && !st.viewer.ended
    ensures Pending(st) == [] && st.net.toB == []
  {
    ShakenWell(w, st);
    StuckTransport(w, st);
  }

  /** So the handshake is over, and nothing lies at either end. */
  lemma StuckIsOver(w: Params, st: Session)
    requires Inv(w, st) && TagsAgree(w) && Stuck(w, st) && !st.viewer.ended
    ensures Pending(st) == [] && st.net.toA == [] && st.viewer.inbox == [] && st.viewer.confirmed
    ensures st.net.b.state.Confirmed? && (!st.host.done ==> st.host.queue == [])
  {
    StuckIsEmpty(w, st);
    ShakenWell(w, st);
    StuckTransport(w, st);
    StuckEnds(w, st);
  }

  /** Where nothing can move, both sides are confirmed, and the receiver has opened all, or all that the sender wrote. */
  lemma StuckMeansDelivered(w: Params, steps: seq<Step>)
    requires Run(w, steps).Some? && TagsAgree(w) && Correct(LineOf(w).aead)
    requires Stuck(w, Run(w, steps).value)
    ensures var st := Run(w, steps).value;
            && st.net.a.state == st.net.b.state == Handshake.Confirmed(Handshake.KeyA(w.setup)) && st.viewer.confirmed
            && (if st.host.done then st.viewer.ended && st.viewer.consumed == st.host.written
                else st.viewer.received == st.host.plains)
  {
    var st := Run(w, steps).value;
    var run := SessionRefines(w, steps);
    if st.viewer.ended {
      SessionEndsCleanly(w, steps);
      MediaUnderOneKey(w, steps);
    } else {
      StuckIsOver(w, st);
      RestMeansDelivered(w, steps, run);
    }
  }

  /** A confirmed receiver to which nothing is under way has everything. */
  lemma RestMeansDelivered(w: Params, steps: seq<Step>, run: seq<Pipeline.Step>)
    requires Run(w, steps).Some? && Correct(LineOf(w).aead)
    requires var st := Run(w, steps).value;
             && Inv(w, st) && Uplink.RunOn(LineOf(w), run) == Some(Abs(w, st))
             && Pending(st) == [] && st.net.toA == [] && st.viewer.inbox == [] && st.viewer.confirmed && !st.viewer.ended
             && (!st.host.done ==> st.host.queue == [])
    ensures var st := Run(w, steps).value; !st.host.done && st.viewer.received == st.host.plains
  {
    var st := Run(w, steps).value;
    assert Media(st) == [] && Abs(w, st).channel == [];
    Uplink.LineEndsInTime(LineOf(w), run);
    SessionIsFifo(w, steps);
  }

  /**
   * Liveness: if the tags agree, then from any state a run of the session can be in, the steps that move things along are
   * limited in number, whatever their order; and when none is left, both sides are confirmed and the receiver has opened
   * everything the sender has sealed, or if the sender has ended the session, has consumed everything it wrote and ended.
   */
  lemma SessionDelivers(w: Params, before: seq<Step>, st: Session, steps: seq<Step>)
    requires Run(w, before) == Some(st) && TagsAgree(w) && Correct(LineOf(w).aead)
    ensures var end := Onward(w, st, steps);
            end.Some? ==>
              && |steps| <= Distance(st) && end.value.host.plains == st.host.plains
              && (Stuck(w, end.value) ==>
                    && end.value.net.a.state == end.value.net.b.state == Handshake.Confirmed(Handshake.KeyA(w.setup))
                    && (if st.host.done then end.value.viewer.ended && end.value.viewer.consumed == end.value.host.written
                        else end.value.viewer.received == st.host.plains))
  {
    if Onward(w, st, steps).Some? {
      OnwardUses(w, st, steps);
      OnwardRuns(w, before, st, steps);
      OnwardKeeps(w, st, steps);
      if Stuck(w, Onward(w, st, steps).value) {
        StuckMeansDelivered(w, before + steps);
      }
    }
  }

  /** None of these steps seals anything or ends the session. */
  lemma {:induction false} OnwardKeeps(w: Params, st: Session, steps: seq<Step>)
    requires Onward(w, st, steps).Some?
    ensures var end := Onward(w, st, steps).value;
            end.host.plains == st.host.plains && end.host.done == st.host.done
    decreases |steps|
  {
    if steps != [] {
      OnwardKeeps(w, Next(w, st, steps[0]), steps[1..]);
    }
  }
}
