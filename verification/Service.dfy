/** What an arbiter guarantees over whole runs, for every interleaving and every sequence
    of modes, and what it adds while one mode is held. */
module Service {
  import opened Sequences
  import opened DeltaFifo
  import opened Arbitration
  import opened Columns

  /** In no run does a read wait, a log access go out of range, the log assertion fail or
      the log count underflow; the log never exceeds what the FIFOs hold. */
  lemma NeverFails(n: nat, depth: nat, ls: seq<Label>)
    requires 1 <= n <= MAX_FIFOS && 1 <= depth && Runs(Start(n, depth), ls)
    ensures
      var c := After(Start(n, depth), ls);
      && !c.fault && !c.thread.Blocked? && c.Width() == n
      && |c.arb.log| <= Occupancy(c.chans, c.Width()) <= n * depth
  {
    StartInv(n, depth);
    RunKeepsInv(Start(n, depth), ls);
    SameShape(Start(n, depth), ls);
    LogFits(After(Start(n, depth), ls));
  }

  /** In every reachable state the log, the FIFOs, the registers and the histories agree: one
      queue, a recency list and pointers that depend on the services alone, and no packet lost
      or reordered. */
  lemma AlwaysOneQueue(n: nat, depth: nat, ls: seq<Label>)
    requires 1 <= n <= MAX_FIFOS && 1 <= depth && Runs(Start(n, depth), ls)
    ensures var c := After(Start(n, depth), ls);
            c.Shape() && c.Width() == n && OneQueue(c) && History(c) && Flow(c)
  {
    StartInv(n, depth);
    RunKeepsInv(Start(n, depth), ls);
    SameShape(Start(n, depth), ls);
  }

  lemma {:induction false} SameShape(c: Column, ls: seq<Label>)
    requires Runs(c, ls)
    ensures After(c, ls).Width() == c.Width() && After(c, ls).depth == c.depth
    decreases |ls|
  {
    if ls != [] {
      SameShape(Do(c, ls[0]), ls[1..]);
    }
  }

  /** In every reachable state, whatever modes did the serving so far, LRU mode would pick a
      non-empty FIFO that no other non-empty FIFO has out-waited. */
  lemma LruPicksLongestUnserved(n: nat, depth: nat, ls: seq<Label>, f: nat)
    requires 1 <= n <= MAX_FIFOS && 1 <= depth && Runs(Start(n, depth), ls) && f < n
    requires After(Start(n, depth), ls).Width() == n
    requires After(Start(n, depth), ls).chans[f].NumAvailable() > 0
    ensures
      var c := After(Start(n, depth), ls);
      && Inv(c)
      && var pick := Choose(c.arb, LRU, c.Avail());
         0 <= pick < n && c.chans[pick].NumAvailable() > 0
         && (pick == f || OutWaited(Sources(c.emitted), pick, f))
  {
    StartInv(n, depth);
    RunKeepsInv(Start(n, depth), ls);
    var c := After(Start(n, depth), ls);
    LruPicksStalest(c.arb.lru, Sources(c.emitted), c.Avail(), f);
    StalerWaits(Sources(c.emitted), Choose(c.arb, LRU, c.Avail()), f);
  }

  /** f was served after g last was; or g never was, and f was or comes later in index order. */
  ghost predicate OutWaited(served: seq<int>, g: int, f: int) {
    if g in served then exists t :: 0 <= t < |served| && served[t] == f && g !in served[t..]
    else f in served || g < f
  }

  lemma StalerWaits(served: seq<int>, g: int, f: int)
    requires g == f || StalerThan(served, g, f)
    ensures g == f || OutWaited(served, g, f)
  {
    LastServedIs(served, g);
    LastServedIs(served, f);
    if g != f && g in served {
      var t := LastServed(served, f);
      assert served[t] == f && g !in served[t..];
    }
  }

  // ---------------------------------------------------------------------------
  // Held modes
  // ---------------------------------------------------------------------------

  ghost predicate ModeHeld(ls: seq<Label>, mode: int) {
    ls == [] || ((ls[0].Clock? ==> ls[0].mode == mode) && ModeHeld(ls[1..], mode))
  }

  /** The posedges of a run: `process` runs once at each. */
  function Posedges(ls: seq<Label>): nat {
    if ls == [] then 0 else (if ls[0].Clock? then 1 else 0) + Posedges(ls[1..])
  }

  /** The output only grows. */
  lemma {:induction false} OutputGrows(c: Column, ls: seq<Label>, f: nat)
    requires Runs(c, ls)
    ensures c.emitted <= After(c, ls).emitted
    ensures From(c.emitted, f) <= From(After(c, ls).emitted, f)
    decreases |ls|
  {
    if ls != [] {
      OutputGrows(Do(c, ls[0]), ls[1..], f);
    }
    FromPrefix(c.emitted, After(c, ls).emitted, f);
  }

  lemma FromPrefix(g: seq<Tagged>, h: seq<Tagged>, f: nat)
    requires g <= h
    ensures From(g, f) <= From(h, f)
  {
    assert h == g + h[|g|..];
    FromAppend(g, h[|g|..], f);
  }

  // LRU and ROUNDROBIN

  ghost predicate Fair(mode: int) { mode == LRU || mode == ROUND_ROBIN }

  /** q turns of each of n FIFOs. */
  function Turns(n: nat, q: nat): (r: nat)
    ensures q == 0 ==> r == 0
  {
    if q == 0 then 0 else Turns(n, q - 1) + n
  }

  lemma {:induction false} TurnsClosed(n: nat, q: nat)
    ensures Turns(n, q) == n * q
  {
    if q > 0 {
      TurnsClosed(n, q - 1);
      assert n * q == n * (q - 1) + n;
    }
  }

  /** At most this many services, the one under way included, until the packet now q places
      from the head of f's logged packets has been emitted. */
  ghost function ServicesLeft(c: Column, mode: int, f: nat, q: nat): (r: nat)
    requires c.Shape() && Fair(mode) && f < c.Width()
    ensures r >= 1
  {
    var n, wait := c.Width(), Rank(mode, c.arb, f, c.Width());
    if c.thread.Choosing? then Turns(n, q) + wait + 1
    else if c.thread.fifo == f then 1 + Turns(n, q)
    else 1 + Turns(n, q) + if Rank(mode, c.arb, c.thread.fifo, n) < wait then wait else n
  }

  /** The same in posedges: a service takes two, of which a decided one has one left. */
  ghost function PosedgesLeft(c: Column, mode: int, f: nat, q: nat): int
    requires c.Shape() && Fair(mode) && f < c.Width()
  {
    2 * ServicesLeft(c, mode, f, q) - if c.thread.Choosing? then 0 else 1
  }

  /** The closed bounds: n*(q+1) services and 2*n*(q+1) posedges from the next decision. */
  lemma ClosedBounds(c: Column, mode: int, f: nat, q: nat)
    requires c.Shape() && Fair(mode) && f < c.Width()
    ensures ServicesLeft(c, mode, f, q) <= c.Width() * (q + 1) + if c.thread.Choosing? then 0 else 1
    ensures PosedgesLeft(c, mode, f, q) <= 2 * c.Width() * (q + 1) + if c.thread.Choosing? then 0 else 1
  {
    TurnsClosed(c.Width(), q);
    assert c.Width() * (q + 1) == c.Width() * q + c.Width();
    assert 2 * c.Width() * (q + 1) == 2 * (c.Width() * (q + 1));
  }

  /** After step l from c to d the packet is q' places from the head, and the bounds have
      shrunk by the service and the posedge that l made up. */
  ghost predicate Closer(c: Column, l: Label, d: Column, mode: int, f: nat, q: nat, q': nat)
    requires c.Shape() && Fair(mode) && f < c.Width() && q < |From(c.queue, f)|
  {
    && d.Shape() && d.Width() == c.Width()
    && |c.emitted| <= |d.emitted| <= |c.emitted| + 1
    && ServicesLeft(d, mode, f, q') + |d.emitted| - |c.emitted| <= ServicesLeft(c, mode, f, q)
    && PosedgesLeft(d, mode, f, q') + (if l.Clock? then 1 else 0) <= PosedgesLeft(c, mode, f, q)
    && q' < |From(d.queue, f)| && From(d.queue, f)[q'] == From(c.queue, f)[q]
    && |From(d.emitted, f)| + q' == |From(c.emitted, f)| + q
  }

  lemma ChooseProgress(c: Column, mode: int, f: nat, q: nat)
    requires Inv(c) && Fair(mode) && f < c.Width() && q < |From(c.queue, f)|
    requires Can(c, Clock(mode)) && c.thread.Choosing?
    ensures Closer(c, Clock(mode), Do(c, Clock(mode)), mode, f, q, q)
  {
    LoggedIsReadable(c, f);
    FairChoice(mode, c.arb, c.Avail(), f);
  }

  /** A read of g emits g's head packet and touches no other source. */
  lemma ReadEffect(c: Column, mode: int, g: nat, f: nat)
    requires Inv(c) && f < c.Width() && Can(c, Clock(mode)) && c.thread == Reading(g)
    ensures
      var d := Do(c, Clock(mode));
      && d.Shape() && d.thread.Choosing? && d.Width() == c.Width()
      && c.arb.log != [] && d.arb == Served(c.arb, g)
      && |d.emitted| == |c.emitted| + 1 && From(c.queue, g) != []
      && From(d.emitted, f) == From(c.emitted, f) + (if g == f then [From(c.queue, f)[0]] else [])
      && From(d.queue, f) == if g == f then From(c.queue, f)[1..] else From(c.queue, f)
  {
    ReadStep(c, mode, g);
    ServeFrom(c.queue, g, f);
    assert ViewOf(c, g);
    FromAppend(c.emitted, [Tagged(g, c.chans[g].contents[0])], f);
  }

  lemma ReadOtherProgress(c: Column, mode: int, f: nat, q: nat)
    requires Inv(c) && Fair(mode) && f < c.Width() && q < |From(c.queue, f)|
    requires Can(c, Clock(mode)) && c.thread.Reading? && c.thread.fifo != f
    ensures Closer(c, Clock(mode), Do(c, Clock(mode)), mode, f, q, q)
  {
    var g, n := c.thread.fifo, c.Width();
    ReadEffect(c, mode, g, f);
    if Rank(mode, c.arb, g, n) < Rank(mode, c.arb, f, n) {
      WaitShrinks(mode, c.arb, g, f, n);
    }
  }

  lemma ReadOwnProgress(c: Column, mode: int, f: nat, q: nat)
    requires Inv(c) && Fair(mode) && f < c.Width() && 1 <= q < |From(c.queue, f)|
    requires Can(c, Clock(mode)) && c.thread == Reading(f)
    ensures Closer(c, Clock(mode), Do(c, Clock(mode)), mode, f, q, q - 1)
  {
    ReadEffect(c, mode, f, f);
    assert Turns(c.Width(), q) == Turns(c.Width(), q - 1) + c.Width();
  }

  lemma LogProgress(c: Column, g: nat, mode: int, f: nat, q: nat)
    requires Inv(c) && Fair(mode) && f < c.Width() && q < |From(c.queue, f)|
    requires Can(c, Log(g))
    ensures Closer(c, Log(g), Do(c, Log(g)), mode, f, q, q)
  {
    var entry := Tagged(g, c.chans[g].contents[|c.chans[g].contents| - 1]);
    LogStep(c, g, entry);
    FromAppend(c.queue, [entry], f);
  }

  lemma IdleProgress(c: Column, l: Label, mode: int, f: nat, q: nat)
    requires Inv(c) && Fair(mode) && f < c.Width() && q < |From(c.queue, f)|
    requires Can(c, l) && !l.Clock? && !l.Log?
    ensures Closer(c, l, Do(c, l), mode, f, q, q)
  {
    StepKeepsInv(c, l);
  }

  /** The packet q places from the head of f's logged packets at c is part of d's output,
      as the next but q of that source. */
  ghost predicate Delivered(c: Column, d: Column, f: nat, q: nat)
    requires q < |From(c.queue, f)|
  {
    var k := |From(c.emitted, f)| + q;
    k < |From(d.emitted, f)| && From(d.emitted, f)[k] == From(c.queue, f)[q]
  }

  ghost predicate Due(c: Column, ls: seq<Label>, mode: int, f: nat, q: nat)
    requires c.Shape() && Fair(mode) && f < c.Width() && Runs(c, ls)
  {
    || Posedges(ls) >= PosedgesLeft(c, mode, f, q)
    || |After(c, ls).emitted| - |c.emitted| >= ServicesLeft(c, mode, f, q)
  }

  /** A step of the run that brings the packet closer leaves it due. */
  lemma StillDue(c: Column, ls: seq<Label>, mode: int, f: nat, q: nat, q': nat)
    requires c.Shape() && Fair(mode) && f < c.Width() && Runs(c, ls) && ls != []
    requires q < |From(c.queue, f)| && Due(c, ls, mode, f, q)
    requires Closer(c, ls[0], Do(c, ls[0]), mode, f, q, q')
    ensures Due(Do(c, ls[0]), ls[1..], mode, f, q')
  {
  }

  lemma StillDelivered(c: Column, l: Label, d: Column, e: Column, mode: int, f: nat, q: nat, q': nat)
    requires c.Shape() && Fair(mode) && f < c.Width() && q < |From(c.queue, f)|
    requires Closer(c, l, d, mode, f, q, q') && Delivered(d, e, f, q')
    ensures Delivered(c, e, f, q)
  {
  }

  lemma FairTurn(c: Column, mode: int, f: nat, q: nat) returns (q': nat)
    requires Inv(c) && Fair(mode) && f < c.Width() && q < |From(c.queue, f)|
    requires Can(c, Clock(mode)) && !(c.thread == Reading(f) && q == 0)
    ensures Closer(c, Clock(mode), Do(c, Clock(mode)), mode, f, q, q')
  {
    q' := if c.thread == Reading(f) then q - 1 else q;
    if c.thread.Choosing? {
      ChooseProgress(c, mode, f, q);
    } else if c.thread == Reading(f) {
      ReadOwnProgress(c, mode, f, q);
    } else {
      ReadOtherProgress(c, mode, f, q);
    }
  }

  lemma FairStep(c: Column, l: Label, mode: int, f: nat, q: nat) returns (q': nat)
    requires Inv(c) && Fair(mode) && f < c.Width() && q < |From(c.queue, f)|
    requires Can(c, l) && (l.Clock? ==> l.mode == mode)
    requires !(l.Clock? && c.thread == Reading(f) && q == 0)
    ensures Closer(c, l, Do(c, l), mode, f, q, q')
  {
    if l.Clock? {
      q' := FairTurn(c, mode, f, q);
    } else {
      q' := q;
      if l.Log? {
        LogProgress(c, l.fifo, mode, f, q);
      } else {
        IdleProgress(c, l, mode, f, q);
      }
    }
  }

  /** The read that emits the awaited packet. */
  lemma LastStep(c: Column, ls: seq<Label>, mode: int, f: nat)
    requires Inv(c) && Fair(mode) && f < c.Width() && From(c.queue, f) != []
    requires Runs(c, ls) && ls != [] && ls[0] == Clock(mode) && c.thread == Reading(f)
    ensures Delivered(c, After(c, ls), f, 0)
  {
    ReadEffect(c, mode, f, f);
    OutputGrows(Do(c, ls[0]), ls[1..], f);
  }

  /** End-to-end service bound. While the mode stays LRU (or stays ROUNDROBIN), the packet q
      places from the head of FIFO f has been emitted once the run holds ServicesLeft
      emissions or PosedgesLeft posedges, whatever else arrives meanwhile. */
  lemma {:induction false} FairService(c: Column, ls: seq<Label>, mode: int, f: nat, q: nat)
    requires Inv(c) && Fair(mode) && f < c.Width() && q < |From(c.queue, f)|
    requires Runs(c, ls) && ModeHeld(ls, mode) && Due(c, ls, mode, f, q)
    ensures Delivered(c, After(c, ls), f, q)
    decreases |ls|
  {
    NotYet(c, ls, mode, f, q);
    var l, d, rest := ls[0], Do(c, ls[0]), ls[1..];
    if l.Clock? && c.thread == Reading(f) && q == 0 {
      LastStep(c, ls, mode, f);
    } else {
      var q' := FairStep(c, l, mode, f, q);
      StepKeepsInv(c, l);
      StillDue(c, ls, mode, f, q, q');
      FairService(d, rest, mode, f, q');
      StillDelivered(c, l, d, After(d, rest), mode, f, q, q');
    }
  }

  lemma NotYet(c: Column, ls: seq<Label>, mode: int, f: nat, q: nat)
    requires c.Shape() && Fair(mode) && f < c.Width() && Runs(c, ls) && Due(c, ls, mode, f, q)
    ensures ls != []
  {
  }

  /** The closed form, counted from a decision: a packet at place q is out within n*(q+1)
      services, hence within 2*n*(q+1) posedges. With q = 0, a FIFO with something to read
      waits for at most n-1 services of others. */
  lemma BoundedWaiting(c: Column, ls: seq<Label>, mode: int, f: nat, q: nat)
    requires Inv(c) && Fair(mode) && f < c.Width() && q < |From(c.queue, f)| && c.thread.Choosing?
    requires Runs(c, ls) && ModeHeld(ls, mode)
    requires Posedges(ls) >= 2 * c.Width() * (q + 1)
          || |After(c, ls).emitted| - |c.emitted| >= c.Width() * (q + 1)
    ensures Delivered(c, After(c, ls), f, q)
  {
    ClosedBounds(c, mode, f, q);
    FairService(c, ls, mode, f, q);
  }
}
