/** Wake-on-LAN through helpers: counting them, and dispatching the magic packet to them. */
module Wake {
  import opened Base
  import opened Registry

  /** JavaScript's falsy test on an optional string. */
  predicate Falsy(s: Option<string>) { s == None || s == Some("") }

  /** Who is to be woken: the target device, its last network and its account. */
  datatype Wanted = Wanted(id: DeviceId, wanIp: Option<string>, accountId: Option<string>)

  /** A slot that may wake devices of the account in the given network. */
  predicate IsHelper(slots: map<Side, Slot>, side: Side, w: Wanted) {
    && side in slots && slots[side].meta.canWake && slots[side].meta.wanIp == w.wanIp
    && !Falsy(w.accountId) && slots[side].meta.accountId == w.accountId
  }

  predicate Helps(slots: map<Side, Slot>, id: DeviceId, w: Wanted) {
    IsHelper(slots, Side(id, Host), w) || IsHelper(slots, Side(id, Controller), w)
  }

  function DeviceIds(slots: map<Side, Slot>): set<DeviceId> { set side | side in slots :: side.id }

  /** The other devices online that can wake the wanted one. */
  function Helpers(slots: map<Side, Slot>, w: Wanted): set<DeviceId> {
    set id | id in DeviceIds(slots) && id != w.id && !Falsy(w.wanIp) && Helps(slots, id, w)
  }

  /** The slot that gets the packet: the host role if it qualifies, else the controller role. */
  function Chosen(slots: map<Side, Slot>, id: DeviceId, w: Wanted): Side {
    if IsHelper(slots, Side(id, Host), w) then Side(id, Host) else Side(id, Controller)
  }

  lemma HelpersHas(slots: map<Side, Slot>, w: Wanted, id: DeviceId)
    requires id in DeviceIds(slots)
    ensures id in Helpers(slots, w) <==> id != w.id && !Falsy(w.wanIp) && Helps(slots, id, w)
    ensures id in Helpers(slots, w) ==> IsHelper(slots, Chosen(slots, id, w), w)
  {
  }

  lemma MoveOut<T>(all: set<T>, left: set<T>, x: T)
    requires x in left
    ensures x !in all - left && all - (left - {x}) == if x in all then all - left + {x} else all - left
  {
  }

  /** One turn of the loops below: whether a device is to be counted or woken, and at which slot. */
  method Examine(slots: map<Side, Slot>, w: Wanted, id: DeviceId) returns (side: Option<Side>)
    requires id in DeviceIds(slots)
    ensures side.Some? <==> id in Helpers(slots, w)
    ensures side.Some? ==> side.value == Chosen(slots, id, w) && side.value in slots && side.value.id == id
  {
    HelpersHas(slots, w, id);
    if id == w.id || Falsy(w.wanIp) {
      return None;
    }
    side := if IsHelper(slots, Side(id, Host), w) then Some(Side(id, Host))
            else if IsHelper(slots, Side(id, Controller), w) then Some(Side(id, Controller))
            else None;
  }

  method HelpersOnNetwork(r: Registry, w: Wanted) returns (n: nat)
    ensures n == |Helpers(r.slots, w)|
  {
    var slots := r.slots;
    var left := DeviceIds(slots);
    ghost var all := Helpers(slots, w);
    n := 0;
    while left != {}
      invariant left <= DeviceIds(slots) && n == |all - left|
      decreases left
    {
      var id :| id in left;
      MoveOut(all, left, id);
      var side := Examine(slots, w, id);
      if side.Some? {
        n := n + 1;
      }
      left := left - {id};
    }
    assert all - left == all;
  }

  /** How many packets a run of events sends to a device. */
  function PacketsTo(log: seq<Event>, id: DeviceId): nat {
    if log == [] then 0
    else
      var n := PacketsTo(log[..|log| - 1], id);
      var e := log[|log| - 1];
      if e.Sent? && e.msg.WakeDispatch? && e.to.id == id then n + 1 else n
  }

  /** One packet, with the given address, to each of the given devices, at its chosen slot, and nothing else. */
  ghost predicate OneEach(slots: map<Side, Slot>, w: Wanted, mac: string, events: seq<Event>, ids: set<DeviceId>) {
    && (forall id :: PacketsTo(events, id) == if id in ids then 1 else 0)
    && forall e :: e in events ==>
         e.Sent? && e.msg == WakeDispatch(mac) && e.to in slots && e.to == Chosen(slots, e.to.id, w)
         && e.conn == slots[e.to].conn
  }

  lemma OneMore(slots: map<Side, Slot>, w: Wanted, mac: string, events: seq<Event>, ids: set<DeviceId>, side: Side)
    requires OneEach(slots, w, mac, events, ids) && side.id !in ids
    requires side in slots && side == Chosen(slots, side.id, w)
    ensures OneEach(slots, w, mac, events + [Sent(side, slots[side].conn, WakeDispatch(mac))], ids + {side.id})
  {
    var e := Sent(side, slots[side].conn, WakeDispatch(mac));
    assert (events + [e])[..|events|] == events;
  }

  datatype Outcome = Dispatched | NoHelper | Unsupported

  method DispatchWake(r: Registry, w: Wanted, mac: Option<string>)
    returns (status: Outcome, helpers: nat, ghost packets: seq<Event>)
    modifies r`log
    ensures r.log == old(r.log) + packets
    ensures if Falsy(mac) then status == Unsupported && helpers == 0 && packets == []
            else && helpers == |Helpers(r.slots, w)| && status == (if helpers == 0 then NoHelper else Dispatched)
                 && OneEach(r.slots, w, mac.value, packets, Helpers(r.slots, w))
  {
    packets := [];
    assert r.log + [] == r.log;
    if Falsy(mac) {
      return Unsupported, 0, [];
    }
    var slots := r.slots;
    var sent: set<DeviceId> := {};
    var left := DeviceIds(slots);
    ghost var all := Helpers(slots, w);
    ghost var before := r.log;
    while left != {}
      invariant left <= DeviceIds(slots) && sent == all - left && r.slots == slots
      invariant r.log == before + packets && OneEach(slots, w, mac.value, packets, sent)
      decreases left
    {
      var id :| id in left;
      MoveOut(all, left, id);
      var side := Examine(slots, w, id);
      if id !in sent && side.Some? {
        OneMore(slots, w, mac.value, packets, sent, side.value);
        ghost var packet := Sent(side.value, slots[side.value].conn, WakeDispatch(mac.value));
        Assoc(before, packets, [packet]);
        r.SendTo(side.value, WakeDispatch(mac.value));
        packets := packets + [packet];
        sent := sent + {id};
      }
      left := left - {id};
    }
    assert sent == all;
    helpers := |sent|;
    status := if |sent| == 0 then NoHelper else Dispatched;
  }

  // --------------------------------------------------------- who is a helper

  /** What makes a registered slot fit: it can wake, in the target's own network and account, both known. */
  predicate Qualifies(m: Meta, w: Wanted) {
    && m.canWake && m.wanIp == w.wanIp && m.accountId == w.accountId
    && w.wanIp.Some? && w.wanIp.value != "" && w.accountId.Some? && w.accountId.value != ""
  }

  /** Another device, some slot of which qualifies. */
  ghost predicate Suits(slots: map<Side, Slot>, w: Wanted, id: DeviceId) {
    id != w.id && exists side :: side in slots && side.id == id && Qualifies(slots[side].meta, w)
  }

  lemma HelperIff(slots: map<Side, Slot>, w: Wanted, id: DeviceId)
    ensures id in Helpers(slots, w) <==> Suits(slots, w, id)
  {
    var host, controller := Side(id, Host), Side(id, Controller);
    if id in DeviceIds(slots) {
      HelpersHas(slots, w, id);
      if Suits(slots, w, id) {
        var side :| side in slots && side.id == id && Qualifies(slots[side].meta, w);
        assert side.kind == Host || side.kind == Controller;
        assert side == host || side == controller;
      }
      if id in Helpers(slots, w) {
        var side := Chosen(slots, id, w);
        assert side in slots && side.id == id && Qualifies(slots[side].meta, w);
      }
    }
  }

  /** The packet goes to a slot that qualifies, and to a controller only if the device's host role does not. */
  ghost predicate Properly(slots: map<Side, Slot>, w: Wanted, mac: string, e: Event) {
    && e.Sent? && e.msg == WakeDispatch(mac)
    && e.to in slots && e.conn == slots[e.to].conn && Qualifies(slots[e.to].meta, w)
    && (e.to.kind == Controller ==>
          var host := Side(e.to.id, Host); host in slots ==> !Qualifies(slots[host].meta, w))
  }

  lemma {:induction false} PacketCounts(log: seq<Event>, e: Event)
    requires e in log && e.Sent? && e.msg.WakeDispatch?
    ensures PacketsTo(log, e.to.id) >= 1
  {
    var n := |log| - 1;
    if log[n] != e {
      PacketCounts(log[..n], e);
    }
  }

  lemma PacketIsProper(slots: map<Side, Slot>, w: Wanted, mac: string, packets: seq<Event>, e: Event)
    requires OneEach(slots, w, mac, packets, Helpers(slots, w)) && e in packets
    ensures Properly(slots, w, mac, e)
  {
    PacketCounts(packets, e);
    HelpersHas(slots, w, e.to.id);
  }

  datatype WakeStatus = WakeUnsupported | WakeReady | WakeNoHelper

  /** The address book's answer for one device. */
  method BookStatus(r: Registry, w: Wanted, mac: Option<string>) returns (book: WakeStatus, counted: nat)
    ensures counted == |Helpers(r.slots, w)|
    ensures book == if Falsy(mac) then WakeUnsupported else if counted > 0 then WakeReady else WakeNoHelper
  {
    counted := HelpersOnNetwork(r, w);
    book := if Falsy(mac) then WakeUnsupported else if counted > 0 then WakeReady else WakeNoHelper;
  }

  /**
   * The address book and the dispatch agree: in one and the same state the book says "ready" exactly when a dispatch
   * succeeds, and with as many helpers; every helper gets one packet, the target and everybody else none. A helper is
   * registered, can wake, and is in the target's network and account, both of which are known; it gets the packet in its
   * controller role only if its host role does not qualify.
   */
  method BookThenDispatch(r: Registry, w: Wanted, mac: Option<string>)
    returns (book: WakeStatus, counted: nat, status: Outcome, helpers: nat, ghost packets: seq<Event>)
    modifies r`log
    ensures (book == WakeReady <==> status == Dispatched) && (book == WakeUnsupported <==> status == Unsupported)
    ensures status != Unsupported ==> counted == helpers
    ensures r.log == old(r.log) + packets
    ensures forall id :: PacketsTo(packets, id) == if !Falsy(mac) && Suits(r.slots, w, id) then 1 else 0
    ensures forall e :: e in packets ==> mac.Some? && Properly(r.slots, w, mac.value, e)
  {
    book, counted := BookStatus(r, w, mac);
    status, helpers, packets := DispatchWake(r, w, mac);
    forall id ensures PacketsTo(packets, id) == if !Falsy(mac) && Suits(r.slots, w, id) then 1 else 0 {
      HelperIff(r.slots, w, id);
    }
    forall e | e in packets ensures mac.Some? && Properly(r.slots, w, mac.value, e) {
      PacketIsProper(r.slots, w, mac.value, packets, e);
    }
  }
}
