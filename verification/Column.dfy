/** One output of the network: an arbiter and the n FIFOs it serves, as a step system over
    the scheduler's phases (section 4.2.1 of IEEE 1666-2011). Every label is one activation
    of one process, so that a run is any interleaving the scheduler may pick. */
module Columns {
  import opened Sequences
  import opened DeltaFifo
  import opened Arbitration
  import Lfsr

  /** Where the arbiter's `process` thread is waiting. */
  datatype Thread =
    | Choosing           // for the posedge at which it decides
    | Chosen(fifo: int)  // for the negedge after a decision
    | Reading(fifo: int) // for the posedge at which it reads
    | Blocked(fifo: int) // inside sc_fifo::read, on an empty FIFO

  /** The evaluation phase of a posedge, the delta cycle its updates notify, and the rest
      of the clock period. */
  datatype Stage = Evaluate | Notify | Low

  datatype Column = Column(
    depth: nat,
    chans: seq<Channel<Packet>>,
    arb: Arb,
    thread: Thread,
    stage: Stage,
    clocked: bool,            // `process` has had its turn at this posedge
    woken: set<nat>,          // FIFOs whose pushed_in_fifo thread has yet to run
    fault: bool,              // an exception, a failed assert or an underflow has happened
    // History, read by no process.
    queue: seq<Tagged>,       // logged and not yet served
    logged: seq<Tagged>,      // everything ever logged
    emitted: seq<Tagged>,     // everything ever written to `output`
    accepted: seq<seq<Packet>>) // everything ever written to each FIFO
  {
    function Width(): nat { |chans| }

    function Avail(): (r: seq<int>)
      ensures |r| == |chans|
    {
      seq(|chans|, i requires 0 <= i < |chans| => chans[i].NumAvailable())
    }

    ghost predicate Shape() {
      && arb.Valid(|chans|)
      && |accepted| == |chans|
      && (forall f :: 0 <= f < |chans| ==> chans[f].Valid() && chans[f].size == depth)
      && (forall f :: f in woken ==> f < |chans| && chans[f].contents != [])
      && (!thread.Choosing? ==> 0 <= thread.fifo < |chans|)
    }
  }

  function Start(n: nat, depth: nat): Column {
    Column(depth, seq(n, _ => Fresh(depth)), StartArb(n), Choosing, Low, false, {}, false,
           [], [], [], seq(n, _ => []))
  }

  // ---------------------------------------------------------------------------
  // Steps
  // ---------------------------------------------------------------------------

  datatype Label =
    | Accept(fifo: nat, packet: Packet) // a router writes one packet, having seen free space
    | Clock(mode: int)                  // `process` runs at a posedge and reads this mode
    | Commit                            // the update phase of the posedge
    | Log(fifo: nat)                    // that FIFO's pushed_in_fifo thread runs
    | Fall                              // the negedge
    | Rise                              // the next posedge begins

  ghost predicate Can(c: Column, l: Label)
    requires c.Shape()
  {
    match l
    case Accept(f, p) =>
      && c.stage == Evaluate && f < c.Width()
      && c.chans[f].NumFree() > 0
      && c.chans[f].numWritten == 0 // a router thread runs once per evaluation phase
    case Clock(mode) => c.stage == Evaluate && !c.clocked
    case Commit => c.stage == Evaluate && c.clocked
    case Log(f) => c.stage == Notify && f in c.woken
    case Fall => c.stage == Notify && c.woken == {}
    case Rise => c.stage == Low
  }

  ghost function Do(c: Column, l: Label): Column
    requires c.Shape() && Can(c, l)
  {
    match l
    case Accept(f, p) => Filled(c, f, p)
    case Clock(mode) => Process(c, mode)
    case Commit => Committed(c)
    case Log(f) => PushedInFifo(c, f)
    case Fall => Fallen(c)
    case Rise => Risen(c)
  }

  ghost function Committed(c: Column): Column {
    c.(stage := Notify,
       woken := (set f: nat | f < c.Width() && c.chans[f].numWritten > 0),
       chans := seq(c.Width(), f requires 0 <= f < c.Width() => c.chans[f].Commit()))
  }

  ghost function Fallen(c: Column): Column {
    c.(stage := Low, thread := if c.thread.Chosen? then Reading(c.thread.fifo) else c.thread)
  }

  ghost function Risen(c: Column): Column { c.(stage := Evaluate, clocked := false) }

  ghost function Filled(c: Column, f: nat, p: Packet): Column
    requires c.Shape() && f < c.Width()
  {
    c.(chans := c.chans[f := c.chans[f].Put(p)], accepted := c.accepted[f := c.accepted[f] + [p]])
  }

  /** One posedge of the arbiter's `process` thread. */
  ghost function Process(c: Column, mode: int): Column
    requires c.Shape()
  {
    match c.thread
    case Choosing =>
      var pick := Choose(c.arb, mode, c.Avail());
      c.(clocked := true, thread := if pick == NONE then Choosing else Chosen(pick))
    case Reading(f) =>
      if c.chans[f].NumAvailable() == 0 then c.(clocked := true, thread := Blocked(f))
      else if c.arb.log == [] then c.(clocked := true, fault := true)
      else
        c.(clocked := true, thread := Choosing,
           chans := c.chans[f := c.chans[f].Drop()],
           arb := Served(c.arb, f),
           queue := Serve(c.queue, f),
           emitted := c.emitted + [Tagged(f, c.chans[f].contents[0])])
    case _ => c.(clocked := true)
  }

  /** One pass of the pushed_in_fifo thread of FIFO f: `.at` throws past the capacity, and
      the assertion wants room to spare. */
  ghost function PushedInFifo(c: Column, f: nat): Column
    requires c.Shape() && f in c.woken
  {
    var capacity := 2 * (c.Width() * c.depth);
    if |c.arb.log| >= capacity then c.(fault := true, woken := c.woken - {f})
    else
      var entry := Tagged(f, c.chans[f].contents[|c.chans[f].contents| - 1]);
      c.(woken := c.woken - {f},
         arb := c.arb.(log := c.arb.log + [ToByte(ToChar(f))]),
         fault := c.fault || |c.arb.log| + 1 >= capacity,
         queue := c.queue + [entry],
         logged := c.logged + [entry])
  }

  /** What counts as a failure, in any state whatever: a read of an empty FIFO blocks; a service
      with nothing logged underflows; and logging an arrival fails exactly if it would leave no
      room to spare. */
  lemma FailuresAreSeen(c: Column, mode: int, f: nat)
    requires c.Shape()
    ensures
      var d, reading := Process(c, mode), c.thread.Reading?;
      && (reading && c.chans[c.thread.fifo].numReadable == c.chans[c.thread.fifo].numRead ==>
            d.thread == Blocked(c.thread.fifo) && d.emitted == c.emitted && d.chans == c.chans)
      && (!c.fault ==> (d.fault <==>
            reading && c.chans[c.thread.fifo].numReadable > c.chans[c.thread.fifo].numRead && |c.arb.log| == 0))
    ensures f in c.woken && !c.fault ==> (PushedInFifo(c, f).fault <==> |c.arb.log| + 1 >= 2 * (c.Width() * c.depth))
    ensures f in c.woken && |c.arb.log| >= 2 * (c.Width() * c.depth) ==> PushedInFifo(c, f).arb == c.arb
  {
  }

  /** ls is a run from c. */
  ghost predicate Runs(c: Column, ls: seq<Label>)
    decreases |ls|
  {
    ls == [] || (c.Shape() && Can(c, ls[0]) && Runs(Do(c, ls[0]), ls[1..]))
  }

  ghost function After(c: Column, ls: seq<Label>): Column
    requires Runs(c, ls)
    decreases |ls|
  {
    if ls == [] then c else After(Do(c, ls[0]), ls[1..])
  }

  // ---------------------------------------------------------------------------
  // The invariant
  // ---------------------------------------------------------------------------

  /** Packets of FIFO f already in the buffer whose arrival is not logged yet. */
  ghost function Unlogged(c: Column, f: nat): nat
    requires f < c.Width()
  {
    if c.stage == Evaluate then c.chans[f].numWritten else if f in c.woken then 1 else 0
  }

  /** The arrival log and the n FIFOs are two views of one queue: the log is its sources,
      and each FIFO's logged contents are exactly its packets of that source. */
  ghost predicate OneQueue(c: Column) {
    && c.arb.log == Sources(c.queue)
    && (forall i :: 0 <= i < |c.queue| ==> c.queue[i].src < c.Width())
    && (forall f :: 0 <= f < c.Width() ==> ViewOf(c, f))
  }

  ghost predicate ViewOf(c: Column, f: nat)
    requires f < c.Width()
  {
    && Unlogged(c, f) <= 1
    && |c.chans[f].contents| == |From(c.queue, f)| + Unlogged(c, f)
    && From(c.queue, f) <= c.chans[f].contents
  }

  /** The rest of the arbitration state is a function of the services alone, whatever modes
      decided them. */
  ghost predicate History(c: Column) {
    var served := Sources(c.emitted);
    && ByRecency(c.arb.lru, served)
    && c.arb.last == (if served == [] then c.Width() - 1 else served[|served| - 1])
    && c.arb.lfsr == Lfsr.After(|served|)
  }

  /** Nothing is lost, duplicated or reordered between a FIFO's writer, the log and the output. */
  ghost predicate Flow(c: Column)
    requires c.Shape()
  {
    forall f :: 0 <= f < c.Width() ==> FlowOf(c, f)
  }

  ghost predicate FlowOf(c: Column, f: nat)
    requires c.Shape() && f < c.Width()
  {
    && c.accepted[f] == From(c.emitted, f) + c.chans[f].contents
    && From(c.logged, f) == From(c.emitted, f) + From(c.queue, f)
  }

  ghost predicate Timing(c: Column)
    requires c.Shape()
  {
    && !c.fault && !c.thread.Blocked?
    && (c.thread.Chosen? ==> c.stage == Notify || (c.stage == Evaluate && c.clocked))
    && (c.thread.Reading? ==> c.stage == Low || (c.stage == Evaluate && !c.clocked))
    && (!c.thread.Choosing? ==> From(c.queue, c.thread.fifo) != [])
    && (c.stage != Notify ==> c.woken == {})
    && (c.stage != Evaluate ==>
          forall f :: 0 <= f < c.Width() ==> c.chans[f].numRead == 0 && c.chans[f].numWritten == 0)
  }

  ghost predicate Inv(c: Column) {
    c.Shape() && OneQueue(c) && History(c) && Flow(c) && Timing(c)
  }

  lemma StartInv(n: nat, depth: nat)
    requires 1 <= n <= MAX_FIFOS && 1 <= depth
    ensures Inv(Start(n, depth))
  {
    IdentityIsPermutation(n);
    StartByRecency(n);
  }

  // ---------------------------------------------------------------------------
  // Consequences of the invariant
  // ---------------------------------------------------------------------------

  /** At a posedge the readable packets of a FIFO are exactly its part of the queue. */
  lemma LoggedIsReadable(c: Column, f: nat)
    requires Inv(c) && c.stage == Evaluate && f < c.Width()
    ensures |From(c.queue, f)| == c.chans[f].NumAvailable() == c.Avail()[f]
    ensures f in c.arb.log <==> c.Avail()[f] > 0
  {
    assert ViewOf(c, f);
    FromNonEmpty(c.queue, f);
  }

  function Occupancy(chans: seq<Channel<Packet>>, n: nat): nat
    requires n <= |chans|
  {
    if n == 0 then 0 else Occupancy(chans, n - 1) + |chans[n - 1].contents|
  }

  function Tags(g: seq<Tagged>, n: nat): nat {
    if n == 0 then 0 else Tags(g, n - 1) + |From(g, n - 1)|
  }

  /** Every entry of the queue belongs to exactly one source. */
  lemma {:induction false} TagsCount(g: seq<Tagged>, n: nat)
    requires forall i :: 0 <= i < |g| ==> g[i].src < n
    ensures Tags(g, n) == |g|
  {
    if g == [] {
      NoTags(n);
    } else {
      TagsCount(g[1..], n);
      TagsHead(g[0], g[1..], n);
      assert g == [g[0]] + g[1..];
    }
  }

  lemma {:induction false} NoTags(n: nat)
    ensures Tags([], n) == 0
  {
    if n > 0 {
      NoTags(n - 1);
    }
  }

  lemma {:induction false} TagsHead(x: Tagged, t: seq<Tagged>, n: nat)
    ensures Tags([x] + t, n) == Tags(t, n) + if x.src < n then 1 else 0
  {
    if n > 0 {
      TagsHead(x, t, n - 1);
      FromCons(x, t, n - 1);
    }
  }

  lemma {:induction false} OccupancyBounds(c: Column, n: nat, f: nat)
    requires c.Shape() && OneQueue(c) && n <= c.Width()
    ensures Tags(c.queue, n) + (if f < n && Unlogged(c, f) > 0 then 1 else 0) <= Occupancy(c.chans, n)
    ensures Occupancy(c.chans, n) <= n * c.depth
  {
    if n > 0 {
      OccupancyBounds(c, n - 1, f);
      assert ViewOf(c, n - 1);
      OneMoreTime(n, c.depth);
    }
  }

  lemma OneMoreTime(n: int, depth: int)
    ensures n * depth == (n - 1) * depth + depth
  {
  }

  /** The log never holds more entries than the FIFOs hold packets, hence at most n times the
      depth, and it has room for every packet still to be logged. */
  lemma LogFits(c: Column)
    requires Inv(c)
    ensures |c.arb.log| <= Occupancy(c.chans, c.Width()) <= c.Width() * c.depth
    ensures forall f :: f in c.woken ==> |c.arb.log| + 1 <= c.Width() * c.depth
  {
    TagsCount(c.queue, c.Width());
    OccupancyBounds(c, c.Width(), 0);
    forall f | f in c.woken ensures |c.arb.log| + 1 <= c.Width() * c.depth {
      assert ViewOf(c, f);
      OccupancyBounds(c, c.Width(), f);
    }
  }

  // ---------------------------------------------------------------------------
  // Every step keeps the invariant
  // ---------------------------------------------------------------------------

  lemma AcceptKeepsInv(c: Column, f: nat, p: Packet)
    requires Inv(c) && Can(c, Accept(f, p))
    ensures Inv(Do(c, Accept(f, p)))
  {
    var d := Do(c, Accept(f, p));
    forall g | 0 <= g < d.Width() ensures ViewOf(d, g) {
      assert ViewOf(c, g);
    }
    forall g | 0 <= g < d.Width() ensures FlowOf(d, g) {
      assert FlowOf(c, g);
    }
  }

  /** A step that moves no packet keeps everything that is said about packets. */
  lemma NothingMoves(c: Column, d: Column)
    requires c.Shape() && OneQueue(c) && History(c) && Flow(c)
    requires d.Shape() && d.Width() == c.Width() && d.arb == c.arb
    requires d.queue == c.queue && d.logged == c.logged && d.emitted == c.emitted && d.accepted == c.accepted
    requires forall f :: 0 <= f < c.Width() ==>
               d.chans[f].contents == c.chans[f].contents && Unlogged(d, f) == Unlogged(c, f)
    ensures OneQueue(d) && History(d) && Flow(d)
  {
    forall f | 0 <= f < d.Width() ensures ViewOf(d, f) && FlowOf(d, f) {
      assert ViewOf(c, f) && FlowOf(c, f);
    }
  }

  lemma CommitKeepsInv(c: Column)
    requires Inv(c) && Can(c, Commit)
    ensures Inv(Do(c, Commit))
  {
    var d := Do(c, Commit);
    forall f | 0 <= f < c.Width() ensures Unlogged(d, f) == Unlogged(c, f) {
      assert ViewOf(c, f);
    }
    NothingMoves(c, d);
  }

  lemma LogStep(c: Column, f: nat, entry: Tagged)
    requires Inv(c) && Can(c, Log(f))
    requires entry == Tagged(f, c.chans[f].contents[|c.chans[f].contents| - 1])
    ensures Do(c, Log(f)) == c.(woken := c.woken - {f}, arb := c.arb.(log := c.arb.log + [f]),
                                queue := c.queue + [entry], logged := c.logged + [entry])
  {
    LogFits(c);
  }

  /** FIFO g's view of the queue when f's newest packet joins it. */
  lemma LogKeepsView(c: Column, d: Column, f: nat, g: nat, entry: Tagged)
    requires f < c.Width() && g < c.Width() && d.chans == c.chans && c.stage == d.stage == Notify
    requires f in c.woken && d.woken == c.woken - {f} && ViewOf(c, g)
    requires entry.src == f && d.queue == c.queue + [entry]
    requires c.chans[f].contents != []
    requires entry.packet == c.chans[f].contents[|c.chans[f].contents| - 1]
    ensures ViewOf(d, g)
  {
    FromAppend(c.queue, [entry], g);
    assert From([entry], g) == if g == f then [entry.packet] else [];
  }

  lemma LogKeepsFlow(c: Column, d: Column, g: nat, entry: Tagged)
    requires c.Shape() && d.Shape() && g < c.Width() && d.Width() == c.Width() && FlowOf(c, g)
    requires d.chans == c.chans && d.emitted == c.emitted && d.accepted == c.accepted
    requires d.queue == c.queue + [entry] && d.logged == c.logged + [entry]
    ensures FlowOf(d, g)
  {
    FromAppend(c.queue, [entry], g);
    FromAppend(c.logged, [entry], g);
    var e, q, x := From(c.emitted, g), From(c.queue, g), From([entry], g);
    assert (e + q) + x == e + (q + x);
  }

  lemma LogKeepsQueue(c: Column, d: Column, f: nat, entry: Tagged)
    requires c.Shape() && OneQueue(c) && Flow(c) && c.stage == Notify && f in c.woken
    requires entry == Tagged(f, c.chans[f].contents[|c.chans[f].contents| - 1])
    requires d == c.(woken := c.woken - {f}, arb := c.arb.(log := c.arb.log + [f]),
                     queue := c.queue + [entry], logged := c.logged + [entry])
    ensures d.Shape() && OneQueue(d) && Flow(d)
  {
    assert Sources(d.queue) == Sources(c.queue) + [f];
    forall g | 0 <= g < d.Width() ensures ViewOf(d, g) && FlowOf(d, g) {
      LogKeepsView(c, d, f, g, entry);
      LogKeepsFlow(c, d, g, entry);
    }
  }

  lemma LogKeepsInv(c: Column, f: nat)
    requires Inv(c) && Can(c, Log(f))
    ensures Inv(Do(c, Log(f)))
  {
    var entry := Tagged(f, c.chans[f].contents[|c.chans[f].contents| - 1]);
    LogStep(c, f, entry);
    var d := Do(c, Log(f));
    LogKeepsQueue(c, d, f, entry);
    if !d.thread.Choosing? {
      FromAppend(c.queue, [entry], d.thread.fifo);
    }
  }

  /** In every reachable state the decision is work conserving, in every mode. */
  lemma ChoiceIsReadable(c: Column, mode: int)
    requires Inv(c) && c.stage == Evaluate
    ensures
      var pick := Choose(c.arb, mode, c.Avail());
      && (pick != NONE ==> 0 <= pick < c.Width() && From(c.queue, pick) != [])
      && (RAND <= mode <= ROUND_ROBIN ==>
            (pick == NONE <==> forall f :: 0 <= f < c.Width() ==> c.chans[f].NumAvailable() == 0))
  {
    forall f | 0 <= f < c.Width()
      ensures f in c.arb.log <==> c.Avail()[f] > 0
      ensures c.Avail()[f] == c.chans[f].NumAvailable() == |From(c.queue, f)|
    {
      LoggedIsReadable(c, f);
    }
    ChoiceIsWorkConserving(c.arb, mode, c.Avail());
  }

  lemma ChooseStep(c: Column, mode: int)
    requires c.Shape() && Can(c, Clock(mode)) && c.thread.Choosing?
    ensures
      var pick := Choose(c.arb, mode, c.Avail());
      Do(c, Clock(mode)) == c.(clocked := true, thread := if pick == NONE then Choosing else Chosen(pick))
  {
  }

  lemma ChooseKeepsInv(c: Column, mode: int)
    requires Inv(c) && Can(c, Clock(mode)) && c.thread.Choosing?
    ensures Inv(Do(c, Clock(mode)))
  {
    ChoiceIsReadable(c, mode);
    NothingMoves(c, Do(c, Clock(mode)));
  }

  /** What a read finds: the FIFO is not empty and the log has an entry for it. */
  lemma ReadFinds(c: Column, f: nat)
    requires Inv(c) && c.stage == Evaluate && !c.clocked && c.thread == Reading(f)
    ensures c.chans[f].NumAvailable() > 0 && f in c.arb.log && c.chans[f].contents != []
  {
    LoggedIsReadable(c, f);
  }

  lemma ReadStep(c: Column, mode: int, f: nat)
    requires Inv(c) && Can(c, Clock(mode)) && c.thread == Reading(f)
    ensures c.chans[f].NumAvailable() > 0 && f in c.arb.log
    ensures Do(c, Clock(mode)) ==
            c.(clocked := true, thread := Choosing, chans := c.chans[f := c.chans[f].Drop()],
               arb := Served(c.arb, f), queue := Serve(c.queue, f),
               emitted := c.emitted + [Tagged(f, c.chans[f].contents[0])])
    ensures Do(c, Clock(mode)).Shape()
  {
    ReadFinds(c, f);
    ServedIsValid(c.arb, f, c.Width());
  }

  /** FIFO g's view of the queue when f's head packet leaves it. */
  lemma ReadKeepsView(c: Column, d: Column, f: nat, g: nat)
    requires f < c.Width() && g < c.Width() && c.stage == d.stage == Evaluate
    requires ViewOf(c, g) && From(c.queue, f) != [] && d.queue == Serve(c.queue, f)
    requires c.chans[f].contents != [] && d.chans == c.chans[f := c.chans[f].Drop()]
    ensures ViewOf(d, g)
  {
    ServeFrom(c.queue, f, g);
  }

  lemma ReadKeepsFlow(c: Column, d: Column, f: nat, g: nat)
    requires c.Shape() && d.Shape() && f < c.Width() && g < c.Width() && d.Width() == c.Width()
    requires FlowOf(c, g) && From(c.queue, f) != [] && d.queue == Serve(c.queue, f)
    requires c.chans[f].contents != [] && d.chans == c.chans[f := c.chans[f].Drop()]
    requires From(c.queue, f)[0] == c.chans[f].contents[0]
    requires d.emitted == c.emitted + [Tagged(f, c.chans[f].contents[0])]
    requires d.logged == c.logged && d.accepted == c.accepted
    ensures FlowOf(d, g)
  {
    var head := c.chans[f].contents[0];
    var x := if g == f then [head] else [];
    assert From(d.emitted, g) == From(c.emitted, g) + x by {
      FromAppend(c.emitted, [Tagged(f, head)], g);
      FromOne(Tagged(f, head), g);
    }
    assert From(c.queue, g) == x + From(d.queue, g) by {
      ServeFrom(c.queue, f, g);
    }
    HandOver(From(c.emitted, g), x, c.chans[g].contents, d.chans[g].contents);
    HandOver(From(c.emitted, g), x, From(c.queue, g), From(d.queue, g));
  }

  lemma FromOne(t: Tagged, f: nat)
    ensures From([t], f) == if t.src == f then [t.packet] else []
  {
    assert [t][1..] == [];
  }

  lemma HandOver(e: seq<Packet>, x: seq<Packet>, s: seq<Packet>, t: seq<Packet>)
    requires s == x + t
    ensures e + s == (e + x) + t
  {
  }

  lemma ReadKeepsQueue(c: Column, d: Column, f: nat)
    requires c.Shape() && OneQueue(c) && Flow(c) && f < c.Width() && f in c.arb.log
    requires c.stage == d.stage == Evaluate && d.Shape() && c.chans[f].contents != []
    requires d.chans == c.chans[f := c.chans[f].Drop()]
    requires d.arb == Served(c.arb, f) && d.queue == Serve(c.queue, f)
    requires d.emitted == c.emitted + [Tagged(f, c.chans[f].contents[0])]
    requires d.logged == c.logged && d.accepted == c.accepted
    ensures OneQueue(d) && Flow(d)
  {
    ServedLog(c.arb, f, c.Width());
    ServeSources(c.queue, f);
    ServeMembers(c.queue, f, c.Width());
    FromNonEmpty(c.queue, f);
    assert ViewOf(c, f);
    forall g | 0 <= g < d.Width() ensures ViewOf(d, g) && FlowOf(d, g) {
      ReadKeepsView(c, d, f, g);
      ReadKeepsFlow(c, d, f, g);
    }
  }

  lemma {:induction false} ServeMembers(g: seq<Tagged>, f: nat, n: nat)
    requires forall i :: 0 <= i < |g| ==> g[i].src < n
    ensures forall i :: 0 <= i < |Serve(g, f)| ==> Serve(g, f)[i].src < n
  {
    if g != [] && g[0].src != f {
      ServeMembers(g[1..], f, n);
    }
  }

  lemma ReadKeepsHistory(c: Column, d: Column, f: nat, head: Packet)
    requires c.Shape() && d.Shape() && History(c) && f < c.Width() == d.Width() && f in c.arb.log
    requires d.arb == Served(c.arb, f) && d.emitted == c.emitted + [Tagged(f, head)]
    ensures History(d)
  {
    ServedLog(c.arb, f, c.Width());
    assert Sources(d.emitted) == Sources(c.emitted) + [f];
    ServeKeepsRecency(c.arb.lru, Sources(c.emitted), f, c.Width());
  }

  lemma ReadKeepsInv(c: Column, mode: int, f: nat)
    requires Inv(c) && Can(c, Clock(mode)) && c.thread == Reading(f)
    ensures Inv(Do(c, Clock(mode)))
  {
    ReadStep(c, mode, f);
    var d := Do(c, Clock(mode));
    ReadKeepsQueue(c, d, f);
    ReadKeepsHistory(c, d, f, c.chans[f].contents[0]);
  }

  lemma EdgeKeepsInv(c: Column, l: Label)
    requires Inv(c) && (l == Fall || l == Rise) && Can(c, l)
    ensures Inv(Do(c, l))
  {
    NothingMoves(c, Do(c, l));
  }

  /** The one-queue invariant needs what a router guarantees, at most one write to a FIFO per
      evaluation phase: two writes wake the FIFO's thread once, and one arrival goes unlogged. */
  lemma TwoWritesLogOnce(c: Column, f: nat, p: Packet, p': Packet)
    requires Inv(c) && c.stage == Evaluate && f < c.Width()
    requires c.chans[f].numWritten == 0 && c.chans[f].NumFree() >= 2
    ensures
      var once := Filled(c, f, p);
      && once.Shape()
      && var twice := Committed(Filled(once, f, p'));
         && twice.Shape() && f in twice.woken
         && !ViewOf(PushedInFifo(twice, f), f)
  {
    assert ViewOf(c, f);
    var twice := Committed(Filled(Filled(c, f, p), f, p'));
    var contents := twice.chans[f].contents;
    var d := PushedInFifo(twice, f);
    FromAppend(c.queue, [Tagged(f, contents[|contents| - 1])], f);
    FromOne(Tagged(f, contents[|contents| - 1]), f);
    assert |From(d.queue, f)| + 1 <= |d.chans[f].contents|;
  }

  lemma StepKeepsInv(c: Column, l: Label)
    requires Inv(c) && Can(c, l)
    ensures Inv(Do(c, l))
  {
    match l
    case Accept(f, p) => AcceptKeepsInv(c, f, p);
    case Clock(mode) =>
      if c.thread.Choosing? {
        ChooseKeepsInv(c, mode);
      } else {
        ReadKeepsInv(c, mode, c.thread.fifo);
      }
    case Commit => CommitKeepsInv(c);
    case Log(f) => LogKeepsInv(c, f);
    case _ => EdgeKeepsInv(c, l);
  }

  lemma {:induction false} RunKeepsInv(c: Column, ls: seq<Label>)
    requires Inv(c) && Runs(c, ls)
    ensures Inv(After(c, ls))
    decreases |ls|
  {
    if ls != [] {
      StepKeepsInv(c, ls[0]);
      RunKeepsInv(Do(c, ls[0]), ls[1..]);
    }
  }
}
