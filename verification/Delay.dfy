/** How many clock periods a packet spends in its FIFO, in the modes that bound it. */
module Delay {
  import opened Sequences
  import opened DeltaFifo
  import opened Arbitration
  import opened Columns
  import opened Service
  import opened ArrivalOrder

  /** The clock periods that suffice for a services of each of n FIFOs: 2*n*a+1. */
  function Periods(n: nat, a: nat): (r: nat)
    ensures r >= 1
  {
    if a == 0 then 1 else Periods(n, a - 1) + 2 * n
  }

  lemma {:induction false} PeriodsClosed(n: nat, a: nat)
    ensures Periods(n, a) == 2 * n * a + 1
  {
    if a > 0 {
      PeriodsClosed(n, a - 1);
      assert 2 * n * a == 2 * n * (a - 1) + 2 * n;
    }
  }

  lemma {:induction false} PeriodsMonotone(n: nat, a: nat, b: nat)
    requires a <= b
    ensures Periods(n, a) <= Periods(n, b)
    decreases b - a
  {
    if a < b {
      PeriodsMonotone(n, a, b - 1);
    }
  }

  /** The modes that bound every packet's wait. */
  ghost predicate Timely(mode: int) { Fair(mode) || mode == FIFO }

  /** The clock periods after which the packet at place q of a FIFO is out. FIFO mode serves the
      whole network's arrivals in turn, so there only their total counts. */
  function Wait(mode: int, n: nat, depth: nat, q: nat): (r: nat)
    ensures r >= 1
  {
    Periods(n, if mode == FIFO then depth else q + 1)
  }

  lemma FairWithin(c: Column, ls: seq<Label>, mode: int, f: nat, q: nat)
    requires Inv(c) && c.stage == Low && Fair(mode) && f < c.Width() && q < |From(c.queue, f)|
    requires Runs(c, ls) && ModeHeld(ls, mode) && Posedges(ls) >= Periods(c.Width(), q + 1)
    ensures Delivered(c, After(c, ls), f, q)
  {
    PeriodsClosed(c.Width(), q + 1);
    ClosedBounds(c, mode, f, q);
    FairService(c, ls, mode, f, q);
  }

  lemma TwiceTheQueue(c: Column)
    requires Inv(c)
    ensures 2 * |c.queue| <= Periods(c.Width(), c.depth)
  {
    LogFits(c);
    DoubleBound(|c.queue|, c.Width(), c.depth);
    PeriodsClosed(c.Width(), c.depth);
  }

  lemma DoubleBound(k: nat, n: nat, depth: nat)
    requires k <= n * depth
    ensures 2 * k <= 2 * n * depth
  {
    assert 2 * n * depth == 2 * (n * depth);
  }

  lemma OutInPlace(e: seq<Packet>, g: seq<Packet>, out: seq<Packet>, q: nat)
    requires e + g <= out && q < |g|
    ensures |e| + q < |out| && out[|e| + q] == g[q]
  {
    assert (e + g)[|e| + q] == g[q];
  }

  lemma FifoWithin(c: Column, ls: seq<Label>, f: nat, q: nat)
    requires Inv(c) && f < c.Width() && q < |From(c.queue, f)|
    requires Runs(c, ls) && ModeHeld(ls, FIFO) && Posedges(ls) >= Periods(c.Width(), c.depth)
    ensures Delivered(c, After(c, ls), f, q)
  {
    TwiceTheQueue(c);
    AllUpcomingOut(c, ls, f);
    OutInPlace(From(c.emitted, f), From(c.queue, f), From(After(c, ls).emitted, f), q);
  }

  /** Between periods everything in a FIFO is logged. */
  lemma AllLogged(c: Column, f: nat)
    requires Inv(c) && c.stage == Low && f < c.Width()
    ensures From(c.queue, f) == c.chans[f].contents
  {
    assert ViewOf(c, f);
  }

  lemma QueuedWithin(c: Column, ls: seq<Label>, mode: int, f: nat, q: nat)
    requires Inv(c) && c.stage == Low && Timely(mode) && f < c.Width() && q < |From(c.queue, f)|
    requires Runs(c, ls) && ModeHeld(ls, mode) && Posedges(ls) >= Wait(mode, c.Width(), c.depth, q)
    ensures Delivered(c, After(c, ls), f, q)
  {
    if mode == FIFO {
      FifoWithin(c, ls, f, q);
    } else {
      FairWithin(c, ls, mode, f, q);
    }
  }

  /** The waits in closed form. */
  lemma WaitClosed(mode: int, n: nat, depth: nat, q: nat)
    ensures Wait(mode, n, depth, q) == if mode == FIFO then 2 * n * depth + 1 else 2 * n * (q + 1) + 1
  {
    PeriodsClosed(n, if mode == FIFO then depth else q + 1);
  }

  /** So the bounds cover all of it. */
  lemma OutAfterWait(c: Column, ls: seq<Label>, mode: int, f: nat, q: nat)
    requires Inv(c) && c.stage == Low && Timely(mode) && f < c.Width() && q < |c.chans[f].contents|
    requires Runs(c, ls) && ModeHeld(ls, mode) && Posedges(ls) >= Wait(mode, c.Width(), c.depth, q)
    ensures
      var k := |From(c.emitted, f)| + q;
      var out := From(After(c, ls).emitted, f);
      k < |out| && out[k] == c.chans[f].contents[q]
  {
    AllLogged(c, f);
    QueuedWithin(c, ls, mode, f, q);
  }

  /** The same in closed form. */
  lemma ServedWithin(c: Column, ls: seq<Label>, mode: int, f: nat, q: nat)
    requires Inv(c) && c.stage == Low && Timely(mode) && f < c.Width() && q < |c.chans[f].contents|
    requires Runs(c, ls) && ModeHeld(ls, mode)
    requires Posedges(ls) >= if mode == FIFO then 2 * c.Width() * c.depth + 1 else 2 * c.Width() * (q + 1) + 1
    ensures
      var k := |From(c.emitted, f)| + q;
      var out := From(After(c, ls).emitted, f);
      k < |out| && out[k] == c.chans[f].contents[q]
  {
    WaitClosed(mode, c.Width(), c.depth, q);
    OutAfterWait(c, ls, mode, f, q);
  }

  /** Every packet a FIFO has accepted is out after enough periods for a full FIFO. */
  lemma AllOutAfterWait(c: Column, ls: seq<Label>, mode: int, f: nat, k: nat)
    requires Inv(c) && c.stage == Low && Timely(mode) && f < c.Width() && k < |c.accepted[f]|
    requires Runs(c, ls) && ModeHeld(ls, mode) && Posedges(ls) >= Periods(c.Width(), c.depth)
    ensures var out := From(After(c, ls).emitted, f);
            k < |out| && out[k] == c.accepted[f][k]
  {
    InFifoOrOut(c, f);
    if k < |From(c.emitted, f)| {
      OutputGrows(c, ls, f);
    } else {
      StillInside(c, ls, mode, f, k - |From(c.emitted, f)|);
    }
  }

  lemma StillInside(c: Column, ls: seq<Label>, mode: int, f: nat, q: nat)
    requires Inv(c) && c.stage == Low && Timely(mode) && f < c.Width() && q < |c.chans[f].contents| <= c.depth
    requires Runs(c, ls) && ModeHeld(ls, mode) && Posedges(ls) >= Periods(c.Width(), c.depth)
    ensures
      var k := |From(c.emitted, f)| + q;
      var out := From(After(c, ls).emitted, f);
      k < |out| && out[k] == c.chans[f].contents[q]
  {
    PeriodsMonotone(c.Width(), q + 1, c.depth);
    OutAfterWait(c, ls, mode, f, q);
  }

  lemma OutWithin(c: Column, ls: seq<Label>, mode: int, f: nat, k: nat)
    requires Inv(c) && c.stage == Low && Timely(mode) && f < c.Width() && k < |c.accepted[f]|
    requires Runs(c, ls) && ModeHeld(ls, mode) && Posedges(ls) >= 2 * c.Width() * c.depth + 1
    ensures var out := From(After(c, ls).emitted, f);
            k < |out| && out[k] == c.accepted[f][k]
  {
    PeriodsClosed(c.Width(), c.depth);
    AllOutAfterWait(c, ls, mode, f, k);
  }

  lemma InFifoOrOut(c: Column, f: nat)
    requires Inv(c) && f < c.Width()
    ensures c.accepted[f] == From(c.emitted, f) + c.chans[f].contents && |c.chans[f].contents| <= c.depth
  {
    assert FlowOf(c, f);
  }
}
