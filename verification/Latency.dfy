/** Bounded delivery in the whole network: while its output stays in a timely mode, a packet
    that a generator has put on its wire leaves within a bounded number of clock periods,
    whatever the other inputs send. */
module Latency {
  import opened Sequences
  import opened DeltaFifo
  import opened Arbitration
  import opened Columns
  import opened Handshake
  import opened Service
  import opened Delay
  import opened Network

  // ---------------------------------------------------------------------------
  // Runs and their parts
  // ---------------------------------------------------------------------------

  /** The clock periods completed by a run, counted at their update phases. */
  function Rounds(es: seq<Event>): nat {
    if es == [] then 0 else (if es[0].Update? then 1 else 0) + Rounds(es[1..])
  }

  ghost predicate ModeHeldAt(es: seq<Event>, j: nat, mode: int) {
    es == [] || ((es[0].Arbitrate? && es[0].output == j ==> es[0].mode == mode) && ModeHeldAt(es[1..], j, mode))
  }

  lemma {:induction false} SplitRun(net: Net, es: seq<Event>, k: nat, j: nat, mode: int)
    requires Network.Runs(net, es) && k <= |es|
    ensures Network.Runs(net, es[..k]) && Network.Runs(Network.After(net, es[..k]), es[k..])
    ensures Network.After(Network.After(net, es[..k]), es[k..]) == Network.After(net, es)
    ensures Rounds(es) == Rounds(es[..k]) + Rounds(es[k..])
    ensures ModeHeldAt(es, j, mode) ==> ModeHeldAt(es[..k], j, mode) && ModeHeldAt(es[k..], j, mode)
    decreases k
  {
    if k == 0 {
      assert es[..0] == [] && es[0..] == es;
    } else {
      var d := Network.Do(net, es[0]);
      SplitRun(d, es[1..], k - 1, j, mode);
      assert es[..k][1..] == es[1..][..k - 1];
      assert es[k..] == es[1..][k - 1..];
    }
  }

  /** A run with more than r rounds passes between two periods just when r are complete. */
  lemma {:induction false} RestAfter(net: Net, es: seq<Event>, r: nat) returns (k: nat)
    requires Network.Runs(net, es) && (r == 0 ==> net.stage != Evaluate)
    requires Rounds(es) > r
    ensures k <= |es| && Network.Runs(net, es[..k]) && Rounds(es[..k]) == r
    ensures Network.After(net, es[..k]).stage == Low
    decreases |es|
  {
    if r == 0 && net.stage == Low {
      k := 0;
      assert es[..0] == [];
    } else {
      var d, rest := Network.Do(net, es[0]), es[1..];
      k := RestAfter(d, rest, if es[0].Update? then r - 1 else r);
      k := k + 1;
      assert es[..k][1..] == rest[..k - 1];
    }
  }

  /** Output j's posedges and the network's rounds agree, up to a posedge whose period is not
      over. */
  ghost function Ahead(net: Net, j: nat): nat
    requires j < |net.cols|
  {
    if net.stage == Evaluate && net.cols[j].clocked then 1 else 0
  }

  lemma {:induction false} RoundsArePosedges(net: Net, es: seq<Event>, j: nat)
    requires NetInv(net) && Network.Runs(net, es) && j < |net.cols|
    ensures j < |Network.After(net, es).cols|
    ensures Posedges(Projection(net, es, j)) + Ahead(net, j) == Rounds(es) + Ahead(Network.After(net, es), j)
    decreases |es|
  {
    if es != [] {
      var d := Network.Do(net, es[0]);
      StepKeepsNet(net, es[0]);
      RoundsArePosedges(d, es[1..], j);
      RoundStep(net, es[0], j);
      PosedgesAppend(Seen(net, es[0], j), Projection(d, es[1..], j));
    }
  }

  lemma RoundStep(net: Net, e: Event, j: nat)
    requires NetInv(net) && Network.Can(net, e) && j < |net.cols|
    ensures j < |Network.Do(net, e).cols|
    ensures Posedges(Seen(net, e, j)) + Ahead(net, j) ==
            (if e.Update? then 1 else 0) + Ahead(Network.Do(net, e), j)
  {
    assert forall l: Label :: [l][1..] == [];
  }

  lemma PosedgesAppend(ls: seq<Label>, ms: seq<Label>)
    requires |ls| <= 1
    ensures Posedges(ls + ms) == Posedges(ls) + Posedges(ms)
  {
    if ls == [] {
      assert ls + ms == ms;
    } else {
      assert (ls + ms)[1..] == ms && ls[1..] == [];
    }
  }

  lemma {:induction false} ModeProjects(net: Net, es: seq<Event>, j: nat, mode: int)
    requires NetInv(net) && Network.Runs(net, es) && j < |net.cols| && ModeHeldAt(es, j, mode)
    ensures ModeHeld(Projection(net, es, j), mode)
    decreases |es|
  {
    if es != [] {
      var d := Network.Do(net, es[0]);
      StepKeepsNet(net, es[0]);
      ModeProjects(d, es[1..], j, mode);
      var ls, rest := Seen(net, es[0], j), Projection(d, es[1..], j);
      if ls == [] {
        assert ls + rest == rest;
      } else {
        assert (ls + rest)[1..] == rest;
      }
    }
  }

  /** Output j's part of a run between periods, as a run of its own step system. */
  lemma OutputRun(net: Net, es: seq<Event>, j: nat, mode: int) returns (ls: seq<Label>)
    requires NetInv(net) && net.stage == Low && j < |net.cols|
    requires Network.Runs(net, es) && ModeHeldAt(es, j, mode)
    ensures Columns.Runs(net.cols[j], ls) && ModeHeld(ls, mode) && Posedges(ls) >= Rounds(es)
    ensures j < |Network.After(net, es).cols|
    ensures Columns.After(net.cols[j], ls) == Network.After(net, es).cols[j]
  {
    ls := Projection(net, es, j);
    OutputsRefine(net, es, j);
    RoundsArePosedges(net, es, j);
    ModeProjects(net, es, j, mode);
  }

  // ---------------------------------------------------------------------------
  // From the wire into the FIFO
  // ---------------------------------------------------------------------------

  /** Router i has taken more than t packets, or will take p at its next turn. */
  ghost predicate AboutToTake(net: Net, i: nat, p: Packet, t: nat)
    requires net.Shape() && i < |net.links| && p.address < |net.cols|
  {
    var l := net.links[i];
    || |l.taken| > t
    || (&& |l.taken| == t && !l.receiverRan && Offered(l) == Some(p) && net.stage != Notify
        && net.cols[p.address].chans[i].NumFree() > 0)
  }

  lemma OtherStepKeepsOffer(net: Net, e: Event, i: nat, p: Packet, t: nat)
    requires NetInv(net) && Network.Can(net, e) && Network.Do(net, e).Shape() && e != Route(i)
    requires i < |net.links| && p.address < |net.cols|
    requires |Network.Do(net, e).links| == |net.links| && |Network.Do(net, e).cols| == |net.cols|
    requires AboutToTake(net, i, p, t) && |net.links[i].taken| == t
    ensures AboutToTake(Network.Do(net, e), i, p, t) && !e.Update?
  {
    var j := p.address;
    assert LinkInv(net.links[i], net.stage);
    assert Network.Do(net, e).cols[j].chans[i].NumFree() == net.cols[j].chans[i].NumFree();
  }

  lemma AboutToTakeStep(net: Net, e: Event, i: nat, p: Packet, t: nat)
    requires NetInv(net) && Network.Can(net, e) && Network.Do(net, e).Shape()
    requires i < |net.links| && p.address < |net.cols|
    requires |Network.Do(net, e).links| == |net.links| && |Network.Do(net, e).cols| == |net.cols|
    requires AboutToTake(net, i, p, t)
    ensures AboutToTake(Network.Do(net, e), i, p, t)
    ensures e.Update? ==> |Network.Do(net, e).links[i].taken| > t
  {
    if |net.links[i].taken| > t {
      TakenGrows(net, e, i);
    } else if e != Route(i) {
      OtherStepKeepsOffer(net, e, i, p, t);
    }
  }

  lemma {:induction false} TakesWithinRound(net: Net, es: seq<Event>, i: nat, p: Packet, t: nat)
    requires NetInv(net) && Network.Runs(net, es) && i < |net.links| && p.address < |net.cols|
    requires AboutToTake(net, i, p, t)
    requires |net.links[i].taken| > t || Rounds(es) >= 1
    ensures i < |Network.After(net, es).links| && |Network.After(net, es).links[i].taken| > t
    decreases |es|
  {
    if es != [] {
      StepKeepsNet(net, es[0]);
      AboutToTakeStep(net, es[0], i, p, t);
      TakenGrows(net, es[0], i);
      TakesWithinRound(Network.Do(net, es[0]), es[1..], i, p, t);
    }
  }

  lemma TakenGrows(net: Net, e: Event, i: nat)
    requires net.Shape() && Network.Can(net, e) && i < |net.links|
    ensures |Network.Do(net, e).links| == |net.links|
    ensures net.links[i].taken <= Network.Do(net, e).links[i].taken
  {
  }

  /** The histories of a run only grow, and the network keeps its size. */
  lemma {:induction false} HistoriesGrow(net: Net, es: seq<Event>, i: nat, j: nat)
    requires NetInv(net) && Network.Runs(net, es) && i < |net.links| && j < |net.cols|
    ensures
      var d := Network.After(net, es);
      && NetInv(d) && |d.links| == |net.links| && |d.cols| == |net.cols|
      && net.links[i].taken <= d.links[i].taken && net.links[i].sent <= d.links[i].sent
      && d.cols[j].depth == net.cols[j].depth
    decreases |es|
  {
    if es != [] {
      var d := Network.Do(net, es[0]);
      StepKeepsNet(net, es[0]);
      HistoriesGrow(d, es[1..], i, j);
      HistoryStep(net, es[0], i, j);
    }
  }

  /** In every run of a network no FIFO ever holds more packets than the depth it was built with. */
  lemma FifosNeverOverflow(n: nat, m: nat, depth: nat, es: seq<Event>, i: nat, j: nat)
    requires 1 <= n <= MAX_FIFOS && 1 <= m && 1 <= depth && i < n && j < m
    requires Network.Runs(StartNet(n, m, depth), es)
    ensures
      var d := Network.After(StartNet(n, m, depth), es);
      && |d.links| == n && |d.cols| == m && d.cols[j].Width() == n
      && d.cols[j].chans[i].size == depth && |d.cols[j].chans[i].contents| <= depth
  {
    StartNetInv(n, m, depth);
    HistoriesGrow(StartNet(n, m, depth), es, i, j);
  }

  lemma HistoryStep(net: Net, e: Event, i: nat, j: nat)
    requires NetInv(net) && Network.Can(net, e) && i < |net.links| && j < |net.cols|
    ensures var d := Network.Do(net, e);
            |d.links| == |net.links| && |d.cols| == |net.cols|
            && net.links[i].taken <= d.links[i].taken && net.links[i].sent <= d.links[i].sent
            && d.cols[j].depth == net.cols[j].depth
  {
    SameSize(net, e);
    TakenGrows(net, e, i);
    SentGrows(net, e, i);
    SameDepth(net, e, j);
  }

  lemma SentGrows(net: Net, e: Event, i: nat)
    requires net.Shape() && Network.Can(net, e) && i < |net.links|
    ensures |Network.Do(net, e).links| == |net.links|
    ensures net.links[i].sent <= Network.Do(net, e).links[i].sent
  {
  }

  lemma SameDepth(net: Net, e: Event, j: nat)
    requires net.Shape() && Network.Can(net, e) && j < |net.cols|
    ensures |Network.Do(net, e).cols| == |net.cols|
    ensures Network.Do(net, e).cols[j].depth == net.cols[j].depth
  {
  }

  /** Between periods a packet in transit is what its router is about to act on. */
  lemma TransitIsOffered(l: Link, p: Packet)
    requires LinkInv(l, Low) && InTransit(l) == [p]
    ensures Offered(l) == Some(p) && !l.receiverRan && l.sent == l.taken + [p]
  {
    SentIsTaken(l, Low);
  }

  lemma StillInTransit(l: Link, l': Link, p: Packet)
    requires LinkInv(l, Low) && InTransit(l) == [p] && LinkInv(l', Low)
    requires l.sent <= l'.sent && l.taken <= l'.taken && |l'.taken| == |l.taken|
    ensures InTransit(l') == [p] && l'.taken == l.taken
  {
    SentIsTaken(l, Low);
    SentIsTaken(l', Low);
    assert l'.sent == l.sent;
  }

  /** The periods after which a full FIFO on p's way has been read from. */
  function HeadWait(net: Net, p: Packet, mode: int): (r: nat)
    requires p.address < |net.cols|
    ensures r >= 1
  {
    Wait(mode, |net.links|, net.cols[p.address].depth, 0)
  }

  /** A full FIFO has been read from after its head's wait; with nothing taken meanwhile it has
      room. */
  lemma RoomAfterService(net: Net, es: seq<Event>, i: nat, p: Packet, mode: int)
    requires NetInv(net) && net.stage == Low && i < |net.links| && p.address < |net.cols|
    requires InTransit(net.links[i]) == [p] && net.cols[p.address].chans[i].contents != []
    requires |net.cols[p.address].chans[i].contents| <= net.cols[p.address].depth
    requires Network.Runs(net, es) && Timely(mode) && ModeHeldAt(es, p.address, mode)
    requires Rounds(es) == HeadWait(net, p, mode)
    ensures
      var d := Network.After(net, es);
      && NetInv(d) && |d.links| == |net.links| && |d.cols| == |net.cols|
      && (d.links[i].taken == net.links[i].taken ==>
            |d.cols[p.address].chans[i].contents| < d.cols[p.address].depth)
  {
    var d := Network.After(net, es);
    HistoriesGrow(net, es, i, p.address);
    var ls := OutputRun(net, es, p.address, mode);
    OutAfterWait(net.cols[p.address], ls, mode, i, 0);
    if d.links[i].taken == net.links[i].taken {
      Drained(net, d, i, p.address);
    }
  }

  /** Between periods, a router with a packet on offer and room for it is about to take it. */
  lemma RoomMeansTake(d: Net, i: nat, p: Packet)
    requires NetInv(d) && d.stage == Low && i < |d.links| && p.address < |d.cols|
    requires InTransit(d.links[i]) == [p]
    requires |d.cols[p.address].chans[i].contents| < d.cols[p.address].depth
    ensures AboutToTake(d, i, p, |d.links[i].taken|)
  {
    TransitIsOffered(d.links[i], p);
    LowSnapshot(d, i, p.address);
  }

  /** Stage one: after that wait the router has taken the packet, or its FIFO has room. */
  lemma RoomWithin(net: Net, es: seq<Event>, i: nat, p: Packet, mode: int)
    requires NetInv(net) && net.stage == Low && i < |net.links| && p.address < |net.cols|
    requires InTransit(net.links[i]) == [p]
    requires Network.Runs(net, es) && Timely(mode) && ModeHeldAt(es, p.address, mode)
    requires Network.After(net, es).stage == Low && Rounds(es) == HeadWait(net, p, mode)
    ensures
      var d := Network.After(net, es);
      && NetInv(d) && |d.links| == |net.links| && |d.cols| == |net.cols|
      && AboutToTake(d, i, p, |net.links[i].taken|)
  {
    var j, d := p.address, Network.After(net, es);
    HistoriesGrow(net, es, i, j);
    LowSnapshot(net, i, j);
    if |net.cols[j].chans[i].contents| < net.cols[j].depth {
      RoomMeansTake(net, i, p);
      TakesWithinRound(net, es, i, p, |net.links[i].taken|);
    } else if |d.links[i].taken| == |net.links[i].taken| {
      RoomAfterService(net, es, i, p, mode);
      StillInTransit(net.links[i], d.links[i], p);
      RoomMeansTake(d, i, p);
    }
  }

  /** Between periods the free space is what the contents leave. */
  lemma LowSnapshot(net: Net, i: nat, j: nat)
    requires NetInv(net) && net.stage == Low && i < |net.links| && j < |net.cols|
    ensures net.cols[j].chans[i].NumFree() == net.cols[j].depth - |net.cols[j].chans[i].contents|
    ensures 0 <= net.cols[j].chans[i].NumFree() && 1 <= net.cols[j].depth
  {
    assert Inv(net.cols[j]) && Timing(net.cols[j]);
  }

  /** With nothing taken and something emitted, a FIFO holds less than it did. */
  lemma Drained(net: Net, d: Net, i: nat, j: nat)
    requires NetInv(net) && NetInv(d) && i < |net.links| == |d.links| && j < |net.cols| == |d.cols|
    requires d.links[i].taken == net.links[i].taken
    requires |From(d.cols[j].emitted, i)| > |From(net.cols[j].emitted, i)|
    ensures |d.cols[j].chans[i].contents| < |net.cols[j].chans[i].contents|
  {
    assert Routed(net, i, j) && Routed(d, i, j);
    assert FlowOf(net.cols[j], i) && FlowOf(d.cols[j], i);
  }

  /** Stage two: one more period and the packet is in the FIFO's accepted history, right behind
      everything accepted before it. */
  lemma AcceptedNext(net: Net, d: Net, i: nat, p: Packet)
    requires NetInv(net) && NetInv(d) && i < |net.links| == |d.links| && |net.cols| == |d.cols|
    requires net.stage == d.stage == Low && p.address < |net.cols| && InTransit(net.links[i]) == [p]
    requires net.links[i].sent <= d.links[i].sent && net.links[i].taken <= d.links[i].taken
    requires |d.links[i].taken| > |net.links[i].taken|
    ensures
      var k := |net.cols[p.address].accepted[i]|;
      k < |d.cols[p.address].accepted[i]| && d.cols[p.address].accepted[i][k] == p
  {
    var l, l', j := net.links[i], d.links[i], p.address;
    SentIsTaken(l, Low);
    SentIsTaken(l', Low);
    assert Routed(net, i, j) && Routed(d, i, j);
    var more := l'.taken[|l.taken| + 1..];
    assert l'.taken == (l.taken + [p]) + more by {
      assert l'.taken[|l.taken|] == l'.sent[|l.taken|] == l.sent[|l.taken|] == p;
    }
    ToAppend(l.taken + [p], more, j);
    ToAppend(l.taken, [p], j);
    assert To([p], j) == [p];
  }

  /** Both: one period later the packet has been taken. */
  lemma TakenWithin(net: Net, es: seq<Event>, i: nat, p: Packet, mode: int)
    requires NetInv(net) && net.stage == Low && i < |net.links| && p.address < |net.cols|
    requires InTransit(net.links[i]) == [p]
    requires Network.Runs(net, es) && Timely(mode) && ModeHeldAt(es, p.address, mode)
    requires Network.After(net, es).stage == Low && Rounds(es) == HeadWait(net, p, mode) + 1
    ensures
      var d := Network.After(net, es);
      var k := |net.cols[p.address].accepted[i]|;
      && NetInv(d) && |d.links| == |net.links| && |d.cols| == |net.cols|
      && d.cols[p.address].depth == net.cols[p.address].depth
      && k < |d.cols[p.address].accepted[i]| && d.cols[p.address].accepted[i][k] == p
  {
    var a := RestAfter(net, es, HeadWait(net, p, mode));
    SplitRun(net, es, a, p.address, mode);
    RoomWithin(net, es[..a], i, p, mode);
    TakesWithinRound(Network.After(net, es[..a]), es[a..], i, p, |net.links[i].taken|);
    HistoriesGrow(net, es, i, p.address);
    AcceptedNext(net, Network.After(net, es), i, p);
  }

  /** Stage three: an accepted packet is out after enough periods for a full FIFO. */
  lemma AcceptedIsOut(net: Net, es: seq<Event>, i: nat, j: nat, mode: int, k: nat)
    requires NetInv(net) && net.stage == Low && i < |net.links| && j < |net.cols|
    requires Network.Runs(net, es) && Timely(mode) && ModeHeldAt(es, j, mode)
    requires k < |net.cols[j].accepted[i]|
    requires Rounds(es) >= Periods(|net.links|, net.cols[j].depth)
    ensures j < |Network.After(net, es).cols|
    ensures
      var out := From(Network.After(net, es).cols[j].emitted, i);
      k < |out| && out[k] == net.cols[j].accepted[i][k]
  {
    var ls := OutputRun(net, es, j, mode);
    AllOutAfterWait(net.cols[j], ls, mode, i, k);
  }

  lemma Delivered(net: Net, es: seq<Event>, i: nat, p: Packet, mode: int)
    requires NetInv(net) && net.stage == Low && i < |net.links| && p.address < |net.cols|
    requires InTransit(net.links[i]) == [p]
    requires Network.Runs(net, es) && Timely(mode) && ModeHeldAt(es, p.address, mode)
    requires Rounds(es) >= HeadWait(net, p, mode) + 1 + Periods(|net.links|, net.cols[p.address].depth)
    ensures p.address < |Network.After(net, es).cols|
    ensures
      var k := |net.cols[p.address].accepted[i]|;
      var out := From(Network.After(net, es).cols[p.address].emitted, i);
      k < |out| && out[k] == p
  {
    var a := RestAfter(net, es, HeadWait(net, p, mode) + 1);
    SplitRun(net, es, a, p.address, mode);
    TakenWithin(net, es[..a], i, p, mode);
    AcceptedIsOut(Network.After(net, es[..a]), es[a..], i, p.address, mode, |net.cols[p.address].accepted[i]|);
  }

  /** Bounded delivery. Take any state between two periods of any run, with a packet p on the
      wire of input i. If output p.address stays in LRU, in ROUNDROBIN or in FIFO mode, then
      whatever else happens p has left the network after this many clock periods: full FIFOs
      delay it, but nothing deadlocks and nothing starves. */
  lemma DeliveredInBoundedTime(net: Net, es: seq<Event>, i: nat, p: Packet, mode: int)
    requires NetInv(net) && net.stage == Low && i < |net.links| && p.address < |net.cols|
    requires InTransit(net.links[i]) == [p]
    requires Network.Runs(net, es) && Timely(mode) && ModeHeldAt(es, p.address, mode)
    requires
      var n, depth := |net.links|, net.cols[p.address].depth;
      Rounds(es) >= if mode == FIFO then 4 * n * depth + 3 else 2 * n * (depth + 1) + 3
    ensures p.address < |Network.After(net, es).cols|
    ensures
      var k := |net.cols[p.address].accepted[i]|;
      var out := From(Network.After(net, es).cols[p.address].emitted, i);
      k < |out| && out[k] == p
  {
    TimeClosed(mode, |net.links|, net.cols[p.address].depth);
    Delivered(net, es, i, p, mode);
  }

  /** The periods that suffice from the wire: a full FIFO's head, one to take the packet, and a full
      FIFO once more. */
  function DeliveryTime(mode: int, n: nat, depth: nat): (r: nat)
    ensures r >= 1 && r >= Periods(n, depth)
  {
    Wait(mode, n, depth, 0) + 1 + Periods(n, depth)
  }

  lemma TimeClosed(mode: int, n: nat, depth: nat)
    ensures DeliveryTime(mode, n, depth) == if mode == FIFO then 4 * n * depth + 3 else 2 * n * (depth + 1) + 3
  {
    PeriodsClosed(n, 1);
    PeriodsClosed(n, depth);
    BoundAdds(n, depth);
  }

  /** What FIFO (i, j) has accepted is what router i took for output j. */
  lemma SentBefore(net: Net, i: nat, j: nat)
    requires NetInv(net) && i < |net.links| && j < |net.cols|
    ensures net.cols[j].accepted[i] == To(net.links[i].taken, j)
  {
    assert Routed(net, i, j);
  }

  /** A packet that is the k-th its generator has sent, at a later point between periods: in
      transit, or in the history of what its FIFO has accepted, in its place. */
  lemma SentPlace(d: Net, i: nat, before: seq<Packet>, p: Packet)
    requires NetInv(d) && d.stage == Low && i < |d.links| && p.address < |d.cols|
    requires before + [p] <= d.links[i].sent && before <= d.links[i].taken
    ensures
      var k := |To(before, p.address)|;
      || (InTransit(d.links[i]) == [p] && k == |d.cols[p.address].accepted[i]|)
      || (k < |d.cols[p.address].accepted[i]| && d.cols[p.address].accepted[i][k] == p)
  {
    var l, j := d.links[i], p.address;
    SentIsTaken(l, Low);
    SentBefore(d, i, j);
    assert l.sent[|before|] == p;
    if |l.taken| > |before| {
      assert l.taken == (before + [p]) + l.taken[|before| + 1..];
      ToAppend(before + [p], l.taken[|before| + 1..], j);
      ToAppend(before, [p], j);
      assert To([p], j) == [p];
    } else {
      assert l.taken == before;
    }
  }

  /** From the emission on. When a generator, idle at its turn, is given packet p, then one period
      and the time of `DeliveredInBoundedTime` later p has left its output, in its place among
      the packets of that flow: behind exactly those that the generator had sent there before. */
  lemma EmittedIsDelivered(net: Net, es: seq<Event>, i: nat, p: Packet, mode: int)
    requires NetInv(net) && Network.Can(net, Generate(i, Some(p))) && net.links[i].sender.Idle?
    requires Network.Runs(Network.Do(net, Generate(i, Some(p))), es)
    requires Timely(mode) && ModeHeldAt(es, p.address, mode)
    requires
      var n, depth := |net.links|, net.cols[p.address].depth;
      Rounds(es) >= if mode == FIFO then 4 * n * depth + 4 else 2 * n * (depth + 1) + 4
    ensures
      var d := Network.After(Network.Do(net, Generate(i, Some(p))), es);
      && p.address < |d.cols|
      && var k := |To(net.links[i].sent, p.address)|;
         var out := From(d.cols[p.address].emitted, i);
         k < |out| && out[k] == p
  {
    EmissionEffect(net, i, p);
    TimeClosed(mode, |net.links|, net.cols[p.address].depth);
    AfterEmission(Network.Do(net, Generate(i, Some(p))), es, i, net.links[i].sent, p, mode);
  }

  /** An idle generator's link has nothing in transit; the emission puts p there. */
  lemma EmissionEffect(net: Net, i: nat, p: Packet)
    requires NetInv(net) && Network.Can(net, Generate(i, Some(p))) && net.links[i].sender.Idle?
    ensures
      var d := Network.Do(net, Generate(i, Some(p)));
      && NetInv(d) && |d.links| == |net.links| && d.cols == net.cols
      && d.links[i].taken == net.links[i].sent && d.links[i].sent == net.links[i].sent + [p]
  {
    StepKeepsNet(net, Generate(i, Some(p)));
    assert LinkInv(net.links[i], net.stage);
  }

  lemma AfterEmission(d: Net, es: seq<Event>, i: nat, before: seq<Packet>, p: Packet, mode: int)
    requires NetInv(d) && i < |d.links| && p.address < |d.cols|
    requires d.links[i].taken == before && d.links[i].sent == before + [p]
    requires Network.Runs(d, es) && Timely(mode) && ModeHeldAt(es, p.address, mode)
    requires Rounds(es) >= DeliveryTime(mode, |d.links|, d.cols[p.address].depth) + 1
    ensures p.address < |Network.After(d, es).cols|
    ensures var k := |To(before, p.address)|;
            var out := From(Network.After(d, es).cols[p.address].emitted, i);
            k < |out| && out[k] == p
  {
    var a := RestAfter(d, es, 1);
    SplitRun(d, es, a, p.address, mode);
    var x := Network.After(d, es[..a]);
    HistoriesGrow(d, es[..a], i, p.address);
    SentPlace(x, i, before, p);
    PlaceIsDelivered(x, es[a..], i, p, mode, |To(before, p.address)|);
  }

  lemma PlaceIsDelivered(x: Net, es: seq<Event>, i: nat, p: Packet, mode: int, k: nat)
    requires NetInv(x) && x.stage == Low && i < |x.links| && p.address < |x.cols|
    requires Network.Runs(x, es) && Timely(mode) && ModeHeldAt(es, p.address, mode)
    requires
      || (InTransit(x.links[i]) == [p] && k == |x.cols[p.address].accepted[i]|)
      || (k < |x.cols[p.address].accepted[i]| && x.cols[p.address].accepted[i][k] == p)
    requires Rounds(es) >= DeliveryTime(mode, |x.links|, x.cols[p.address].depth)
    ensures p.address < |Network.After(x, es).cols|
    ensures var out := From(Network.After(x, es).cols[p.address].emitted, i);
            k < |out| && out[k] == p
  {
    if k == |x.cols[p.address].accepted[i]| {
      Delivered(x, es, i, p, mode);
    } else {
      AcceptedIsOut(x, es, i, p.address, mode, k);
    }
  }

  lemma BoundAdds(n: nat, depth: nat)
    ensures 2 * n * (depth + 1) + 3 == (2 * n * 1 + 1) + 1 + (2 * n * depth + 1)
    ensures 4 * n * depth + 3 == (2 * n * depth + 1) + 1 + (2 * n * depth + 1)
  {
    assert 4 * n * depth == 2 * (2 * n * depth);
  }
}
