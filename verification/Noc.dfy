/** The whole network: n generators and routers, m arbiters with their n FIFOs each. Every
    event is one activation of one process, or a phase change of the scheduler. */
module Network {
  import opened Sequences
  import opened DeltaFifo
  import opened Arbitration
  import opened Columns
  import opened Handshake
  import opened Service

  datatype Net = Net(links: seq<Link>, cols: seq<Column>, stage: Stage) {
    ghost predicate Shape() {
      && (forall j :: 0 <= j < |cols| ==> cols[j].Shape() && cols[j].Width() == |links|)
      && (forall i :: 0 <= i < |links| ==> Addressed(links[i]))
    }

    /** Every packet on input i's wire is for one of the outputs. */
    ghost predicate Addressed(l: Link) {
      && l.wire.now.address < |cols| && l.wire.next.address < |cols|
      && (l.receiver.AwaitSpace? ==> l.receiver.held.address < |cols|)
    }
  }

  function StartNet(n: nat, m: nat, depth: nat): Net {
    Net(seq(n, _ => StartLink()), seq(m, _ => Start(n, depth)), Low)
  }

  datatype Event =
    | Generate(input: nat, emit: Option<Packet>) // a generator's turn at a posedge
    | Route(input: nat)                          // a router's turn at a posedge
    | Arbitrate(output: nat, mode: int)          // an arbiter's turn at a posedge
    | Update                                     // the update phase of the posedge
    | Record(output: nat, input: nat)            // a pushed_in_fifo thread's turn
    | Negedge
    | Posedge

  ghost predicate Can(net: Net, e: Event)
    requires net.Shape()
  {
    match e
    case Generate(i, emit) =>
      && net.stage == Evaluate && i < |net.links| && !net.links[i].senderRan
      && (emit.Some? ==> emit.value.address < |net.cols|)
    case Route(i) => net.stage == Evaluate && i < |net.links| && !net.links[i].receiverRan
    case Arbitrate(j, mode) => net.stage == Evaluate && j < |net.cols| && !net.cols[j].clocked
    case Update =>
      && net.stage == Evaluate
      && (forall i :: 0 <= i < |net.links| ==> net.links[i].senderRan && net.links[i].receiverRan)
      && (forall j :: 0 <= j < |net.cols| ==> net.cols[j].clocked)
    case Record(j, i) => net.stage == Notify && j < |net.cols| && i in net.cols[j].woken
    case Negedge => net.stage == Notify && forall j :: 0 <= j < |net.cols| ==> net.cols[j].woken == {}
    case Posedge => net.stage == Low
  }

  /** The FIFO a router's turn would write to has space. */
  ghost predicate HasSpace(net: Net, i: nat)
    requires net.Shape() && i < |net.links|
  {
    Offered(net.links[i]).Some? && net.cols[Offered(net.links[i]).value.address].chans[i].NumFree() > 0
  }

  ghost function Do(net: Net, e: Event): Net
    requires net.Shape() && Can(net, e)
  {
    match e
    case Generate(i, emit) => net.(links := net.links[i := Send(net.links[i], emit)])
    case Route(i) =>
      var l := net.links[i];
      var routed := net.(links := net.links[i := Receive(l, HasSpace(net, i))]);
      if HasSpace(net, i) then
        var p := Offered(l).value;
        routed.(cols := net.cols[p.address := Filled(net.cols[p.address], i, p)])
      else routed
    case Arbitrate(j, mode) => net.(cols := net.cols[j := Process(net.cols[j], mode)])
    case Update =>
      Net(seq(|net.links|, i requires 0 <= i < |net.links| => Settle(net.links[i])),
          seq(|net.cols|, j requires 0 <= j < |net.cols| => Committed(net.cols[j])), Notify)
    case Record(j, i) => net.(cols := net.cols[j := PushedInFifo(net.cols[j], i)])
    case Negedge =>
      Net(seq(|net.links|, i requires 0 <= i < |net.links| => FallingEdge(net.links[i])),
          seq(|net.cols|, j requires 0 <= j < |net.cols| => Fallen(net.cols[j])), Low)
    case Posedge =>
      Net(seq(|net.links|, i requires 0 <= i < |net.links| => RisingEdge(net.links[i])),
          seq(|net.cols|, j requires 0 <= j < |net.cols| => Risen(net.cols[j])), Evaluate)
  }

  ghost predicate Runs(net: Net, es: seq<Event>)
    decreases |es|
  {
    es == [] || (net.Shape() && Can(net, es[0]) && Runs(Do(net, es[0]), es[1..]))
  }

  ghost function After(net: Net, es: seq<Event>): Net
    requires Runs(net, es)
    decreases |es|
  {
    if es == [] then net else After(Do(net, es[0]), es[1..])
  }

  // ---------------------------------------------------------------------------
  // Every output of the network behaves as its own step system
  // ---------------------------------------------------------------------------

  /** What event e is to output j. */
  ghost function Seen(net: Net, e: Event, j: nat): seq<Label>
    requires net.Shape() && Can(net, e) && j < |net.cols|
  {
    match e
    case Generate(_, _) => []
    case Route(i) =>
      if HasSpace(net, i) && Offered(net.links[i]).value.address == j
      then [Accept(i, Offered(net.links[i]).value)] else []
    case Arbitrate(k, mode) => if k == j then [Clock(mode)] else []
    case Update => [Commit]
    case Record(k, i) => if k == j then [Log(i)] else []
    case Negedge => [Fall]
    case Posedge => [Rise]
  }

  /** The run of output j within a run of the network. */
  ghost function Projection(net: Net, es: seq<Event>, j: nat): seq<Label>
    requires Runs(net, es) && j < |net.cols|
    decreases |es|
  {
    if es == [] then [] else Seen(net, es[0], j) + Projection(Do(net, es[0]), es[1..], j)
  }

  // ---------------------------------------------------------------------------
  // The invariant
  // ---------------------------------------------------------------------------

  /** What router i took for output j is what went into FIFO (i, j). */
  ghost predicate Routed(net: Net, i: nat, j: nat)
    requires net.Shape() && i < |net.links| && j < |net.cols|
  {
    && To(net.links[i].taken, j) == net.cols[j].accepted[i]
    && (net.stage == Evaluate && !net.links[i].receiverRan ==> net.cols[j].chans[i].numWritten == 0)
  }

  ghost predicate NetInv(net: Net) {
    && net.Shape()
    && (forall j :: 0 <= j < |net.cols| ==> Inv(net.cols[j]) && net.cols[j].stage == net.stage)
    && (forall i :: 0 <= i < |net.links| ==> LinkInv(net.links[i], net.stage))
    && (forall i, j :: 0 <= i < |net.links| && 0 <= j < |net.cols| ==> Routed(net, i, j))
  }

  lemma StartNetInv(n: nat, m: nat, depth: nat)
    requires 1 <= n <= MAX_FIFOS && 1 <= m && 1 <= depth
    ensures NetInv(StartNet(n, m, depth))
    ensures |StartNet(n, m, depth).links| == n && |StartNet(n, m, depth).cols| == m
    ensures forall j :: 0 <= j < m ==> StartNet(n, m, depth).cols[j].depth == depth
  {
    StartInv(n, depth);
    StartLinkInv();
  }

  lemma ColumnStep(net: Net, e: Event, j: nat)
    requires NetInv(net) && Can(net, e) && j < |net.cols|
    ensures
      var ls := Seen(net, e, j);
      if ls == [] then Do(net, e).cols[j] == net.cols[j]
      else |ls| == 1 && Columns.Can(net.cols[j], ls[0])
           && Columns.Do(net.cols[j], ls[0]) == Do(net, e).cols[j]
  {
    if e.Route? && HasSpace(net, e.input) {
      assert Routed(net, e.input, j);
    }
  }

  /** Column j is in good order after event e. */
  ghost predicate ColumnKept(net: Net, e: Event, j: nat)
    requires net.Shape() && Can(net, e)
  {
    var d := Do(net, e);
    j < |d.cols| && Inv(d.cols[j]) && d.cols[j].stage == d.stage && d.cols[j].Width() == |d.links|
  }

  lemma SameSize(net: Net, e: Event)
    requires net.Shape() && Can(net, e)
    ensures |Do(net, e).cols| == |net.cols| && |Do(net, e).links| == |net.links|
  {
  }

  lemma SameStage(net: Net, e: Event, j: nat)
    requires NetInv(net) && Can(net, e) && j < |net.cols| == |Do(net, e).cols|
    ensures Do(net, e).cols[j].stage == Do(net, e).stage && Do(net, e).cols[j].Width() == net.cols[j].Width()
  {
  }

  lemma ColumnsKept(net: Net, e: Event, j: nat)
    requires NetInv(net) && Can(net, e) && j < |net.cols|
    ensures ColumnKept(net, e, j)
  {
    SameSize(net, e);
    SameStage(net, e, j);
    ColumnStep(net, e, j);
    var ls := Seen(net, e, j);
    if ls != [] {
      StepKeepsInv(net.cols[j], ls[0]);
    }
  }

  /** Link i is in good order after event e. */
  ghost predicate LinkKept(net: Net, e: Event, i: nat)
    requires net.Shape() && Can(net, e) && i < |Do(net, e).links|
  {
    LinkInv(Do(net, e).links[i], Do(net, e).stage) && Do(net, e).Addressed(Do(net, e).links[i])
  }

  lemma GenerateKeepsLink(net: Net, k: nat, emit: Option<Packet>, i: nat)
    requires NetInv(net) && Can(net, Generate(k, emit)) && i < |net.links|
    ensures LinkKept(net, Generate(k, emit), i)
  {
    if k == i {
      SendKeepsLink(net.links[i], emit);
    }
  }

  lemma RouteKeepsLink(net: Net, k: nat, i: nat)
    requires NetInv(net) && Can(net, Route(k)) && i < |net.links|
    ensures LinkKept(net, Route(k), i)
  {
    if k == i {
      ReceiveKeepsLink(net.links[i], HasSpace(net, i));
    }
  }

  lemma UpdateKeepsLink(net: Net, i: nat)
    requires NetInv(net) && Can(net, Update) && i < |net.links|
    ensures LinkKept(net, Update, i)
  {
    SettleKeepsLink(net.links[i]);
  }

  lemma NegedgeKeepsLink(net: Net, i: nat)
    requires NetInv(net) && Can(net, Negedge) && i < |net.links|
    ensures LinkKept(net, Negedge, i)
  {
    FallKeepsLink(net.links[i]);
  }

  lemma PosedgeKeepsLink(net: Net, i: nat)
    requires NetInv(net) && Can(net, Posedge) && i < |net.links|
    ensures LinkKept(net, Posedge, i)
  {
    RiseKeepsLink(net.links[i]);
  }

  lemma LinksKept(net: Net, e: Event, i: nat)
    requires NetInv(net) && Can(net, e) && i < |net.links|
    ensures |Do(net, e).links| == |net.links| && LinkKept(net, e, i)
  {
    match e
    case Generate(k, emit) => GenerateKeepsLink(net, k, emit, i);
    case Route(k) => RouteKeepsLink(net, k, i);
    case Update => UpdateKeepsLink(net, i);
    case Negedge => NegedgeKeepsLink(net, i);
    case Posedge => PosedgeKeepsLink(net, i);
    case _ =>
  }

  lemma RouteKeepsRouted(net: Net, k: nat, i: nat, j: nat)
    requires NetInv(net) && Can(net, Route(k)) && Do(net, Route(k)).Shape()
    requires i < |net.links| && j < |net.cols|
    ensures Routed(Do(net, Route(k)), i, j)
  {
    assert Routed(net, i, j);
    if k == i && HasSpace(net, i) {
      ToAppend(net.links[i].taken, [Offered(net.links[i]).value], j);
    }
  }

  /** What a column's step leaves alone on the writers' side. */
  lemma WritersUntouched(c: Column, l: Label, i: nat)
    requires c.Shape() && Columns.Can(c, l) && !l.Accept? && i < c.Width()
    ensures Columns.Do(c, l).Width() == c.Width() && Columns.Do(c, l).accepted == c.accepted
    ensures !l.Commit? ==> Columns.Do(c, l).chans[i].numWritten == c.chans[i].numWritten
  {
  }

  lemma TakesUntouched(net: Net, e: Event, i: nat)
    requires net.Shape() && Can(net, e) && !e.Route? && !e.Posedge? && i < |net.links|
    ensures |Do(net, e).links| == |net.links| && Do(net, e).links[i].taken == net.links[i].taken
    ensures Do(net, e).stage == Evaluate ==>
              net.stage == Evaluate && Do(net, e).links[i].receiverRan == net.links[i].receiverRan
  {
  }

  lemma RoutedKept(net: Net, e: Event, i: nat, j: nat)
    requires NetInv(net) && Can(net, e) && Do(net, e).Shape() && !e.Route? && !e.Posedge?
    requires i < |net.links| && j < |net.cols|
    ensures Routed(Do(net, e), i, j)
  {
    assert Routed(net, i, j);
    TakesUntouched(net, e, i);
    ColumnStep(net, e, j);
    var ls := Seen(net, e, j);
    if ls != [] {
      WritersUntouched(net.cols[j], ls[0], i);
    }
  }

  lemma PosedgeKeepsRouted(net: Net, i: nat, j: nat)
    requires NetInv(net) && Can(net, Posedge) && Do(net, Posedge).Shape()
    requires i < |net.links| && j < |net.cols|
    ensures Routed(Do(net, Posedge), i, j)
  {
    assert Routed(net, i, j) && Timing(net.cols[j]);
  }

  lemma EventRouted(net: Net, e: Event, i: nat, j: nat)
    requires NetInv(net) && Can(net, e) && Do(net, e).Shape()
    requires i < |net.links| == |Do(net, e).links| && j < |net.cols| == |Do(net, e).cols|
    ensures Routed(Do(net, e), i, j)
  {
    if e.Route? {
      RouteKeepsRouted(net, e.input, i, j);
    } else if e.Posedge? {
      PosedgeKeepsRouted(net, i, j);
    } else {
      RoutedKept(net, e, i, j);
    }
  }

  lemma AllColumnsKept(net: Net, e: Event)
    requires NetInv(net) && Can(net, e)
    ensures
      var d := Do(net, e);
      |d.cols| == |net.cols| && |d.links| == |net.links|
      && forall j :: 0 <= j < |d.cols| ==>
           Inv(d.cols[j]) && d.cols[j].stage == d.stage && d.cols[j].Width() == |d.links|
  {
    SameSize(net, e);
    var d := Do(net, e);
    forall j | 0 <= j < |d.cols|
      ensures Inv(d.cols[j]) && d.cols[j].stage == d.stage && d.cols[j].Width() == |d.links|
    {
      ColumnsKept(net, e, j);
    }
  }

  lemma AllLinksKept(net: Net, e: Event)
    requires NetInv(net) && Can(net, e)
    ensures
      var d := Do(net, e);
      forall i :: 0 <= i < |d.links| ==> LinkInv(d.links[i], d.stage) && d.Addressed(d.links[i])
  {
    SameSize(net, e);
    var d := Do(net, e);
    forall i | 0 <= i < |d.links| ensures LinkInv(d.links[i], d.stage) && d.Addressed(d.links[i]) {
      LinksKept(net, e, i);
    }
  }

  lemma StepKeepsNet(net: Net, e: Event)
    requires NetInv(net) && Can(net, e)
    ensures NetInv(Do(net, e))
  {
    AllColumnsKept(net, e);
    AllLinksKept(net, e);
    forall i, j | 0 <= i < |net.links| && 0 <= j < |net.cols| ensures Routed(Do(net, e), i, j) {
      EventRouted(net, e, i, j);
    }
  }

  lemma {:induction false} RunKeepsNet(net: Net, es: seq<Event>)
    requires NetInv(net) && Runs(net, es)
    ensures NetInv(After(net, es))
    ensures |After(net, es).cols| == |net.cols| && |After(net, es).links| == |net.links|
    decreases |es|
  {
    if es != [] {
      StepKeepsNet(net, es[0]);
      RunKeepsNet(Do(net, es[0]), es[1..]);
    }
  }

  // ---------------------------------------------------------------------------
  // The network's guarantees
  // ---------------------------------------------------------------------------

  /** The packet that input i emits in event e: one handed to an idle generator. */
  function Emission(net: Net, e: Event, i: nat): seq<Packet>
    requires i < |net.links|
  {
    if e.Generate? && e.input == i && e.emit.Some? && net.links[i].sender.Idle? then [e.emit.value] else []
  }

  /** The packets that input i emits in a run, read off its events. */
  ghost function Emissions(net: Net, es: seq<Event>, i: nat): seq<Packet>
    requires Runs(net, es) && i < |net.links|
    decreases |es|
  {
    if es == [] then []
    else
      SameSize(net, es[0]);
      Emission(net, es[0], i) + Emissions(Do(net, es[0]), es[1..], i)
  }

  lemma EmissionIsSent(net: Net, e: Event, i: nat)
    requires net.Shape() && Can(net, e) && i < |net.links|
    ensures |Do(net, e).links| == |net.links|
    ensures Do(net, e).links[i].sent == net.links[i].sent + Emission(net, e, i)
  {
  }

  lemma OneAfterAnother(a: seq<Packet>, b: seq<Packet>, c: seq<Packet>)
    ensures (a + b) + c == a + (b + c)
  {
  }

  /** The history of sent packets is what the events emitted. */
  lemma {:induction false} SentIsEmitted(net: Net, es: seq<Event>, i: nat)
    requires Runs(net, es) && i < |net.links|
    ensures i < |After(net, es).links|
    ensures After(net, es).links[i].sent == net.links[i].sent + Emissions(net, es, i)
    decreases |es|
  {
    if es == [] {
      assert net.links[i].sent + [] == net.links[i].sent;
    } else {
      EmissionIsSent(net, es[0], i);
      SentIsEmitted(Do(net, es[0]), es[1..], i);
      OneAfterAnother(net.links[i].sent, Emission(net, es[0], i), Emissions(Do(net, es[0]), es[1..], i));
    }
  }

  /** Exactly-once delivery in order, per flow. In every run, what the events had input i emit
      to output j is what output j emitted from input i, then what FIFO (i, j) holds, then the packet in
      transit on the link, if it is for j: nothing is lost, duplicated, reordered or misrouted. */
  lemma ExactlyOnceInOrder(n: nat, m: nat, depth: nat, es: seq<Event>, i: nat, j: nat)
    requires 1 <= n <= MAX_FIFOS && 1 <= m && 1 <= depth && i < n && j < m
    requires Runs(StartNet(n, m, depth), es)
    ensures
      var net := After(StartNet(n, m, depth), es);
      && |net.links| == n && |net.cols| == m && net.Shape()
      && net.links[i].sent == Emissions(StartNet(n, m, depth), es, i)
      && To(Emissions(StartNet(n, m, depth), es, i), j) ==
         From(net.cols[j].emitted, i) + net.cols[j].chans[i].contents + To(InTransit(net.links[i]), j)
      && |InTransit(net.links[i])| <= 1
      && (forall p :: p in From(net.cols[j].emitted, i) ==> p.address == j)
  {
    StartNetInv(n, m, depth);
    RunKeepsNet(StartNet(n, m, depth), es);
    var net := After(StartNet(n, m, depth), es);
    var l, c := net.links[i], net.cols[j];
    SentIsEmitted(StartNet(n, m, depth), es, i);
    assert [] + l.sent == l.sent;
    assert Routed(net, i, j) && FlowOf(c, i);
    SentIsTaken(l, net.stage);
    ToAppend(l.taken, InTransit(l), j);
    ToAddresses(l.taken, j);
    forall p | p in From(c.emitted, i) ensures p.address == j {
      var k :| 0 <= k < |From(c.emitted, i)| && From(c.emitted, i)[k] == p;
      assert c.accepted[i][k] == p;
    }
  }

  lemma {:induction false} ToAddresses(s: seq<Packet>, j: nat)
    ensures forall k :: 0 <= k < |To(s, j)| ==> To(s, j)[k].address == j
  {
    if s != [] {
      ToAddresses(s[1..], j);
    }
  }

  /** In no run of the network is a handshake edge lost, and no router takes two packets less
      than three posedges apart. */
  lemma HandshakesAreSafe(n: nat, m: nat, depth: nat, es: seq<Event>, i: nat)
    requires 1 <= n <= MAX_FIFOS && 1 <= m && 1 <= depth && i < n
    requires Runs(StartNet(n, m, depth), es)
    ensures var net := After(StartNet(n, m, depth), es);
            |net.links| == n && net.links[i].lost == 0
            && (forall k :: 0 < k < |net.links[i].takenAt| ==> net.links[i].takenAt[k - 1] + 3 <= net.links[i].takenAt[k])
            && |net.links[i].takenAt| == |net.links[i].taken|
  {
    StartNetInv(n, m, depth);
    RunKeepsNet(StartNet(n, m, depth), es);
  }

  lemma RunsFrom(c: Column, l: Label, rest: seq<Label>)
    requires c.Shape() && Columns.Can(c, l) && Columns.Runs(Columns.Do(c, l), rest)
    ensures Columns.Runs(c, [l] + rest)
    ensures Columns.After(c, [l] + rest) == Columns.After(Columns.Do(c, l), rest)
  {
    assert ([l] + rest)[1..] == rest;
  }

  lemma RefineStep(net: Net, e: Event, j: nat, rest: seq<Label>)
    requires NetInv(net) && Can(net, e) && j < |net.cols| == |Do(net, e).cols|
    requires Columns.Runs(Do(net, e).cols[j], rest)
    ensures Columns.Runs(net.cols[j], Seen(net, e, j) + rest)
    ensures Columns.After(net.cols[j], Seen(net, e, j) + rest) == Columns.After(Do(net, e).cols[j], rest)
  {
    ColumnStep(net, e, j);
    var ls := Seen(net, e, j);
    if ls == [] {
      assert [] + rest == rest;
    } else {
      assert ls == [ls[0]];
      RunsFrom(net.cols[j], ls[0], rest);
    }
  }

  /** Each output's part in a run of the network is a run of that output's step system, so all
      of an arbiter's guarantees hold inside the network. */
  lemma {:induction false} OutputsRefine(net: Net, es: seq<Event>, j: nat)
    requires NetInv(net) && Runs(net, es) && j < |net.cols|
    ensures Columns.Runs(net.cols[j], Projection(net, es, j))
    ensures j < |After(net, es).cols|
    ensures Columns.After(net.cols[j], Projection(net, es, j)) == After(net, es).cols[j]
    decreases |es|
  {
    if es != [] {
      SameSize(net, es[0]);
      StepKeepsNet(net, es[0]);
      OutputsRefine(Do(net, es[0]), es[1..], j);
      RefineStep(net, es[0], j, Projection(Do(net, es[0]), es[1..], j));
    }
  }
}
