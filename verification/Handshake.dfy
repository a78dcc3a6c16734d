/** One input of the network: a traffic generator and its router, joined by three signals.
    Signals change in the update phase only, and an edge wakes a thread only if that thread
    is already waiting for it; otherwise it is lost. */
module Handshake {
  import opened Sequences
  import opened DeltaFifo
  import opened Columns

  /** Where the generator thread waits. */
  datatype Sender =
    | Idle         // in `generate`, for the posedge
    | Prepared     // for the negedge, a packet just put on the wire
    | AwaitAck     // for acknoledge to rise
    | AwaitPosedge // acknowledged, for the posedge
    | AwaitRelease // for acknoledge to fall

  /** Where the router thread waits. */
  datatype Receiver =
    | AwaitActive             // for activated to rise
    | AwaitClock              // for the posedge at which it reads the wire
    | AwaitSpace(held: Packet) // for the posedge, the target FIFO having been full
    | AwaitInactive           // for activated to fall
    | AwaitNegedge            // for the negedge

  datatype Signal<T> = Signal(now: T, next: T)

  datatype Link = Link(
    sender: Sender,
    receiver: Receiver,
    senderRan: bool,      // the thread has had its turn at this posedge
    receiverRan: bool,
    active: Signal<bool>,
    ack: Signal<bool>,
    wire: Signal<Packet>,
    time: nat,            // posedges so far
    // History, read by no process.
    lost: nat,            // edges that found nobody waiting
    sent: seq<Packet>,    // everything the generator emitted
    taken: seq<Packet>,   // everything the router wrote to a FIFO
    takenAt: seq<nat>)    // and when

  function StartLink(): Link {
    Link(Idle, AwaitActive, false, false, Signal(false, false), Signal(false, false),
         Signal(Packet(0, 0), Packet(0, 0)), 0, 0, [], [], [])
  }

  /** The generator's turn at a posedge. An idle generator may emit any packet or none. */
  function Send(l: Link, emit: Option<Packet>): Link {
    match l.sender
    case Idle =>
      if emit.None? then l.(senderRan := true)
      else l.(senderRan := true, sender := Prepared, wire := l.wire.(next := emit.value),
              sent := l.sent + [emit.value])
    case AwaitPosedge =>
      l.(senderRan := true, sender := AwaitRelease, active := l.active.(next := false))
    case _ => l.(senderRan := true)
  }

  /** The packet the router's turn at a posedge is about. */
  function Offered(l: Link): Option<Packet> {
    match l.receiver
    case AwaitClock => Some(l.wire.now)
    case AwaitSpace(p) => Some(p)
    case _ => None
  }

  /** The router's turn at a posedge, given whether the target FIFO has space. */
  function Receive(l: Link, space: bool): Link {
    match Offered(l)
    case None => l.(receiverRan := true)
    case Some(p) =>
      if space then
        l.(receiverRan := true, receiver := AwaitInactive, ack := l.ack.(next := true),
           taken := l.taken + [p], takenAt := l.takenAt + [l.time])
      else l.(receiverRan := true, receiver := AwaitSpace(p))
  }

  /** The update phase, and the delta cycle in which its edges wake whoever waits. */
  function Settle(l: Link): Link {
    var rise, fall := !l.active.now && l.active.next, l.active.now && !l.active.next;
    var ackRise, ackFall := !l.ack.now && l.ack.next, l.ack.now && !l.ack.next;
    l.(senderRan := false, receiverRan := false,
       active := Signal(l.active.next, l.active.next),
       ack := Signal(l.ack.next, l.ack.next),
       wire := Signal(l.wire.next, l.wire.next),
       receiver := if rise && l.receiver.AwaitActive? then AwaitClock
                   else if fall && l.receiver.AwaitInactive? then AwaitNegedge
                   else l.receiver,
       sender := if ackRise && l.sender.AwaitAck? then AwaitPosedge
                 else if ackFall && l.sender.AwaitRelease? then Idle
                 else l.sender,
       lost := l.lost
               + (if rise && !l.receiver.AwaitActive? then 1 else 0)
               + (if fall && !l.receiver.AwaitInactive? then 1 else 0)
               + (if ackRise && !l.sender.AwaitAck? then 1 else 0)
               + (if ackFall && !l.sender.AwaitRelease? then 1 else 0))
  }

  /** The generator's turn at a negedge. */
  function RaiseActive(l: Link): Link {
    if l.sender.Prepared? then l.(sender := AwaitAck, active := l.active.(next := true)) else l
  }

  /** The router's turn at a negedge. */
  function DropAck(l: Link): Link {
    if l.receiver.AwaitNegedge? then l.(receiver := AwaitActive, ack := l.ack.(next := false)) else l
  }

  /** The negedge: the two threads that wait for it, then the update and its edges. */
  function FallingEdge(l: Link): Link { Settle(DropAck(RaiseActive(l))) }

  function RisingEdge(l: Link): Link { l.(time := l.time + 1) }

  // ---------------------------------------------------------------------------
  // The invariant
  // ---------------------------------------------------------------------------

  /** Posedges since the router last took a packet. */
  ghost predicate AgeIn(l: Link, low: nat, high: nat) {
    l.takenAt != [] && low <= l.time - l.takenAt[|l.takenAt| - 1] <= high
  }

  ghost predicate AgeFrom(l: Link, low: nat) {
    l.takenAt != [] ==> low <= l.time - l.takenAt[|l.takenAt| - 1]
  }

  ghost predicate Levels(l: Link, active: Signal<bool>, ack: Signal<bool>) {
    l.active == active && l.ack == ack
  }

  const OFF: Signal<bool> := Signal(false, false)
  const ON: Signal<bool> := Signal(true, true)
  const RISING: Signal<bool> := Signal(false, true)
  const FALLING: Signal<bool> := Signal(true, false)

  /** The packet emitted but not yet taken is on the wire, and the wire is stable. */
  ghost predicate OnWire(l: Link) {
    l.wire.now == l.wire.next && l.sent == l.taken + [l.wire.now]
  }

  /** The joint states outside the evaluation phase of a posedge; `low` adds one to the ages
      once the next posedge has begun. */
  ghost predicate AtRest(l: Link, low: nat) {
    match (l.sender, l.receiver)
    case (Idle, AwaitActive) => Levels(l, OFF, OFF) && l.sent == l.taken && AgeFrom(l, 1 + low)
    case (Prepared, AwaitActive) => low == 0 && Levels(l, OFF, OFF) && OnWire(l) && AgeFrom(l, 2)
    case (AwaitAck, AwaitClock) => Levels(l, ON, OFF) && OnWire(l) && AgeFrom(l, 2 + low)
    case (AwaitAck, AwaitSpace(p)) => Levels(l, ON, OFF) && OnWire(l) && p == l.wire.now && AgeFrom(l, 2 + low)
    case (AwaitPosedge, AwaitInactive) => Levels(l, ON, ON) && l.sent == l.taken && AgeIn(l, low, low)
    case (AwaitRelease, AwaitNegedge) => low == 0 && Levels(l, OFF, ON) && l.sent == l.taken && AgeIn(l, 1, 1)
    case _ => false
  }

  /** The joint states once some thread has had its turn at this posedge. */
  ghost predicate InTurn(l: Link) {
    || (AtRest(l, 1)
        && (l.senderRan ==> !l.sender.AwaitPosedge?)
        && (l.receiverRan ==> !l.receiver.AwaitClock?))
    || (l.senderRan && l.sender.Prepared? && l.receiver.AwaitActive?
        && Levels(l, OFF, OFF) && l.sent == l.taken + [l.wire.next] && AgeFrom(l, 2))
    || (l.receiverRan && l.sender.AwaitAck? && l.receiver.AwaitInactive?
        && Levels(l, ON, RISING) && l.sent == l.taken && AgeIn(l, 0, 0))
    || (l.senderRan && l.sender.AwaitRelease? && l.receiver.AwaitInactive?
        && Levels(l, FALLING, ON) && l.sent == l.taken && AgeIn(l, 1, 1))
  }

  /** Accepts by one router are at least three posedges apart. */
  ghost predicate WellSpaced(times: seq<nat>) {
    forall k :: 0 < k < |times| ==> times[k - 1] + 3 <= times[k]
  }

  ghost predicate LinkInv(l: Link, stage: Stage) {
    && l.lost == 0
    && |l.takenAt| == |l.taken|
    && (stage != Evaluate ==> !l.senderRan && !l.receiverRan && l.wire.now == l.wire.next)
    && (if stage == Evaluate then InTurn(l) else AtRest(l, 0))
    && (stage == Low ==> !l.sender.Prepared? && !l.receiver.AwaitNegedge?)
    && WellSpaced(l.takenAt)
  }

  lemma StartLinkInv()
    ensures LinkInv(StartLink(), Low)
  {
  }

  /** Every thread's turn, in either order, keeps the invariant. */
  lemma SendKeepsLink(l: Link, emit: Option<Packet>)
    requires LinkInv(l, Evaluate) && !l.senderRan
    ensures LinkInv(Send(l, emit), Evaluate)
  {
  }

  lemma ReceiveKeepsLink(l: Link, space: bool)
    requires LinkInv(l, Evaluate) && !l.receiverRan
    ensures LinkInv(Receive(l, space), Evaluate)
  {
  }

  /** Each edge of the update finds the thread that waits for it, and wakes it. */
  ghost predicate EdgesMet(l: Link, d: Link) {
    && (!l.active.now && l.active.next ==> l.receiver.AwaitActive? && d.receiver.AwaitClock?)
    && (l.active.now && !l.active.next ==> l.receiver.AwaitInactive? && d.receiver.AwaitNegedge?)
    && (!l.ack.now && l.ack.next ==> l.sender.AwaitAck? && d.sender.AwaitPosedge?)
    && (l.ack.now && !l.ack.next ==> l.sender.AwaitRelease? && d.sender.Idle?)
  }

  /** An edge is counted as lost exactly if it does not. */
  lemma LostExactly(l: Link)
    ensures Settle(l).lost == l.lost <==> EdgesMet(l, Settle(l))
  {
  }

  /** Every edge of the update phase finds its thread waiting: none is lost. */
  lemma SettleKeepsLink(l: Link)
    requires LinkInv(l, Evaluate) && l.senderRan && l.receiverRan
    ensures LinkInv(Settle(l), Notify) && EdgesMet(l, Settle(l))
  {
  }

  /** The two turns at a negedge commute. */
  lemma NegedgeOrderIrrelevant(l: Link)
    ensures DropAck(RaiseActive(l)) == RaiseActive(DropAck(l))
  {
  }

  lemma FallKeepsLink(l: Link)
    requires LinkInv(l, Notify)
    ensures LinkInv(FallingEdge(l), Low)
    ensures EdgesMet(DropAck(RaiseActive(l)), FallingEdge(l))
  {
  }

  lemma RiseKeepsLink(l: Link)
    requires LinkInv(l, Low)
    ensures LinkInv(RisingEdge(l), Evaluate)
  {
  }

  /** What a router reads off the wire is the generator's last packet, stable and not yet
      taken; the same packet is what it still holds after waiting for space. */
  lemma OfferIsLastSent(l: Link)
    requires LinkInv(l, Evaluate) && !l.receiverRan && Offered(l).Some?
    ensures l.sent == l.taken + [Offered(l).value]
    ensures l.wire == Signal(Offered(l).value, Offered(l).value)
    ensures l.takenAt != [] ==> l.takenAt[|l.takenAt| - 1] + 3 <= l.time
  {
  }

  /** A handshake ends promptly: one period after its packet was taken, both ends are back where
      the next emission finds them. */
  lemma ReadyAgain(l: Link)
    requires LinkInv(l, Low) && |l.sent| == |l.taken|
    requires l.takenAt != [] ==> l.takenAt[|l.takenAt| - 1] < l.time
    ensures l.sender == Idle && l.receiver == AwaitActive && Levels(l, OFF, OFF)
  {
    SentIsTaken(l, Low);
  }

  /** The packet on its way from generator to router, if there is one. */
  function InTransit(l: Link): seq<Packet> {
    if |l.sent| > |l.taken| then l.sent[|l.taken|..] else []
  }

  /** Every emission is taken exactly once and in order; at most one is in transit. */
  lemma SentIsTaken(l: Link, stage: Stage)
    requires LinkInv(l, stage)
    ensures l.sent == l.taken + InTransit(l) && |InTransit(l)| <= 1
  {
  }
}
