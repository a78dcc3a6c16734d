/** FIFO mode: in which order packets leave while it is held, and how soon. */
module ArrivalOrder {
  import opened Sequences
  import opened DeltaFifo
  import opened Arbitration
  import opened Columns
  import opened Service

  // ---------------------------------------------------------------------------
  // Order
  // ---------------------------------------------------------------------------

  /** What will leave, in order: the packet whose service is under way, which an earlier mode
      may have picked from anywhere in the queue, then the rest of the queue. */
  ghost function Upcoming(c: Column): (r: seq<Tagged>)
    requires Inv(c)
    ensures c.thread.Choosing? ==> r == c.queue
  {
    if c.thread.Choosing? then c.queue
    else [Tagged(c.thread.fifo, From(c.queue, c.thread.fifo)[0])] + Serve(c.queue, c.thread.fifo)
  }

  /** Between c and d exactly the upcoming packets left, in their order, and what was logged
      joined behind them. */
  ghost predicate Follows(c: Column, d: Column)
    requires Inv(c) && Inv(d)
  {
    && c.emitted <= d.emitted && c.logged <= d.logged
    && d.emitted[|c.emitted|..] + Upcoming(d) == Upcoming(c) + d.logged[|c.logged|..]
  }

  /** Appending one history after another. */
  lemma Chain(x: seq<Tagged>, x': seq<Tagged>, y: seq<Tagged>, y': seq<Tagged>,
              a: seq<Tagged>, b: seq<Tagged>, c: seq<Tagged>)
    requires x + b == a + y && x' + c == b + y'
    ensures (x + x') + c == a + (y + y')
  {
    calc {
      (x + x') + c;
      x + (x' + c);
      x + (b + y');
      (x + b) + y';
      (a + y) + y';
      a + (y + y');
    }
  }

  lemma Suffixes(a: seq<Tagged>, b: seq<Tagged>, c: seq<Tagged>)
    requires a <= b <= c
    ensures a <= c && c[|a|..] == b[|a|..] + c[|b|..]
  {
  }

  lemma FollowsJoins(c: Column, d: Column, e: Column)
    requires Inv(c) && Inv(d) && Inv(e) && Follows(c, d) && Follows(d, e)
    ensures Follows(c, e)
  {
    Suffixes(c.emitted, d.emitted, e.emitted);
    Suffixes(c.logged, d.logged, e.logged);
    Chain(d.emitted[|c.emitted|..], e.emitted[|d.emitted|..], d.logged[|c.logged|..], e.logged[|d.logged|..],
          Upcoming(c), Upcoming(d), Upcoming(e));
  }

  lemma {:induction false} ServeAppend(g: seq<Tagged>, h: seq<Tagged>, f: nat)
    requires From(g, f) != []
    ensures Serve(g + h, f) == Serve(g, f) + h
    ensures From(g + h, f) != [] && From(g + h, f)[0] == From(g, f)[0]
  {
    assert (g + h)[1..] == g[1..] + h;
    if g[0].src != f {
      ServeAppend(g[1..], h, f);
    }
  }

  lemma LogFollows(c: Column, f: nat)
    requires Inv(c) && Can(c, Log(f)) && Inv(Do(c, Log(f)))
    ensures Follows(c, Do(c, Log(f)))
  {
    var d, contents := Do(c, Log(f)), c.chans[f].contents;
    var entry := Tagged(f, contents[|contents| - 1]);
    LogStep(c, f, entry);
    assert d.logged[|c.logged|..] == [entry] && d.emitted[|c.emitted|..] == [];
    if !c.thread.Choosing? {
      ServeAppend(c.queue, [entry], c.thread.fifo);
    }
  }

  lemma ReadFollows(c: Column, mode: int)
    requires Inv(c) && Can(c, Clock(mode)) && c.thread.Reading? && Inv(Do(c, Clock(mode)))
    ensures Follows(c, Do(c, Clock(mode)))
  {
    var f, d := c.thread.fifo, Do(c, Clock(mode));
    ReadStep(c, mode, f);
    assert ViewOf(c, f);
    assert d.logged[|c.logged|..] == [] && d.emitted[|c.emitted|..] == [Upcoming(c)[0]];
  }

  lemma ChooseFollows(c: Column)
    requires Inv(c) && Can(c, Clock(FIFO)) && c.thread.Choosing? && Inv(Do(c, Clock(FIFO)))
    ensures Follows(c, Do(c, Clock(FIFO)))
  {
    var d := Do(c, Clock(FIFO));
    ChooseStep(c, FIFO);
    if c.queue != [] {
      ServeHead(c.queue);
    }
    assert d.logged[|c.logged|..] == [] && d.emitted[|c.emitted|..] == [];
  }

  lemma FollowsStep(c: Column, l: Label)
    requires Inv(c) && Can(c, l) && (l.Clock? ==> l.mode == FIFO) && Inv(Do(c, l))
    ensures Follows(c, Do(c, l))
  {
    if l.Log? {
      LogFollows(c, l.fifo);
    } else if l.Clock? {
      if c.thread.Reading? {
        ReadFollows(c, l.mode);
      } else {
        ChooseFollows(c);
      }
    }
  }

  lemma {:induction false} FifoModeFollows(c: Column, ls: seq<Label>)
    requires Inv(c) && Runs(c, ls) && ModeHeld(ls, FIFO)
    ensures Inv(After(c, ls)) && Follows(c, After(c, ls))
    decreases |ls|
  {
    if ls != [] {
      StepKeepsInv(c, ls[0]);
      FollowsStep(c, ls[0]);
      FifoModeFollows(Do(c, ls[0]), ls[1..]);
      FollowsJoins(c, Do(c, ls[0]), After(c, ls));
    }
  }

  /** Any service under way is of the oldest logged packet. */
  ghost predicate OldestInFlight(c: Column) {
    !c.thread.Choosing? ==> c.queue != [] && c.queue[0].src == c.thread.fifo
  }

  /** Between c and d, packets left exactly in the order of their arrivals: what was emitted
      followed by what is still queued is what was queued followed by what was logged. */
  ghost predicate InOrder(c: Column, d: Column) {
    && c.emitted <= d.emitted && c.logged <= d.logged
    && d.emitted[|c.emitted|..] + d.queue == c.queue + d.logged[|c.logged|..]
  }

  lemma UpcomingIsQueue(c: Column)
    requires Inv(c)
    ensures Upcoming(c) == c.queue <==> OldestInFlight(c)
  {
    if !c.thread.Choosing? {
      assert Upcoming(c)[0].src == c.thread.fifo;
      if OldestInFlight(c) {
        ServeHead(c.queue);
      }
    }
  }

  lemma InOrderJoins(c: Column, d: Column, e: Column)
    requires InOrder(c, d) && InOrder(d, e)
    ensures InOrder(c, e)
  {
    Suffixes(c.emitted, d.emitted, e.emitted);
    Suffixes(c.logged, d.logged, e.logged);
    Chain(d.emitted[|c.emitted|..], e.emitted[|d.emitted|..], d.logged[|c.logged|..], e.logged[|d.logged|..],
          c.queue, d.queue, e.queue);
  }

  lemma QuietStep(c: Column, l: Label)
    requires Inv(c) && Can(c, l) && Do(c, l).emitted == c.emitted
    ensures InOrder(c, Do(c, l))
    ensures OldestInFlight(c) && (l.Clock? ==> l.mode == FIFO) ==> OldestInFlight(Do(c, l))
  {
    if l.Log? {
      var contents := c.chans[l.fifo].contents;
      LogStep(c, l.fifo, Tagged(l.fifo, contents[|contents| - 1]));
    } else if l.Clock? {
      if c.thread.Reading? {
        ReadStep(c, l.mode, c.thread.fifo);
      } else {
        ChooseStep(c, l.mode);
      }
    }
  }

  /** Whatever the modes, as long as nothing is emitted the queue only grows. */
  lemma {:induction false} NothingOut(c: Column, ls: seq<Label>)
    requires Inv(c) && Runs(c, ls) && After(c, ls).emitted == c.emitted
    ensures InOrder(c, After(c, ls))
    decreases |ls|
  {
    if ls != [] {
      var d := Do(c, ls[0]);
      StepKeepsInv(c, ls[0]);
      OutputGrows(c, ls[..1], 0);
      OutputGrows(d, ls[1..], 0);
      QuietStep(c, ls[0]);
      NothingOut(d, ls[1..]);
      InOrderJoins(c, d, After(c, ls));
    }
  }

  /** Something emitted came from the head of the upcoming packets. */
  lemma FirstOut(c: Column, d: Column)
    requires Inv(c) && Inv(d) && Follows(c, d) && !c.thread.Choosing? && |d.emitted| > |c.emitted|
    ensures d.emitted[|c.emitted|].src == c.thread.fifo
  {
    var x, up := d.emitted[|c.emitted|..], Upcoming(c);
    assert (x + Upcoming(d))[0] == (up + d.logged[|c.logged|..])[0];
  }

  /** Arrival order needs the service under way to be of the oldest packet, once it completes. */
  lemma OvertakingShows(c: Column, d: Column)
    requires Inv(c) && Inv(d) && Follows(c, d) && InOrder(c, d) && |d.emitted| > |c.emitted|
    ensures OldestInFlight(c)
  {
    if !c.thread.Choosing? {
      FirstOut(c, d);
      var x := d.emitted[|c.emitted|..];
      assert (x + d.queue)[0] == (c.queue + d.logged[|c.logged|..])[0];
    }
  }

  lemma {:induction false} OldestStaysFirst(c: Column, ls: seq<Label>)
    requires Inv(c) && OldestInFlight(c) && Runs(c, ls) && ModeHeld(ls, FIFO)
    ensures Inv(After(c, ls)) && OldestInFlight(After(c, ls))
    decreases |ls|
  {
    if ls != [] {
      StepKeepsInv(c, ls[0]);
      OldestStep(c, ls[0]);
      OldestStaysFirst(Do(c, ls[0]), ls[1..]);
    }
  }

  lemma OldestStep(c: Column, l: Label)
    requires Inv(c) && OldestInFlight(c) && Can(c, l) && (l.Clock? ==> l.mode == FIFO)
    ensures OldestInFlight(Do(c, l))
  {
    if l.Clock? && c.thread.Reading? {
      ReadStep(c, l.mode, c.thread.fifo);
    } else {
      QuietStep(c, l);
    }
  }

  /** While the mode is FIFO: first the packet whose service was under way when the mode was
      set, then the rest of the queue in the order the arrivals were logged over all inputs,
      then what is logged meanwhile. So the whole output is in arrival order if and only if
      that service was of the oldest packet, or has not completed. */
  lemma FifoModeKeepsArrivalOrder(c: Column, ls: seq<Label>)
    requires Inv(c) && Runs(c, ls) && ModeHeld(ls, FIFO)
    ensures Inv(After(c, ls)) && Follows(c, After(c, ls))
    ensures InOrder(c, After(c, ls)) <==> OldestInFlight(c) || After(c, ls).emitted == c.emitted
  {
    var d := After(c, ls);
    FifoModeFollows(c, ls);
    if d.emitted == c.emitted {
      NothingOut(c, ls);
    } else {
      assert |d.emitted| > |c.emitted|;
      if OldestInFlight(c) {
        OldestStaysFirst(c, ls);
        UpcomingIsQueue(c);
        UpcomingIsQueue(d);
      } else if InOrder(c, d) {
        OvertakingShows(c, d);
      }
    }
  }

  // ---------------------------------------------------------------------------
  // A mode change that lets a packet overtake
  // ---------------------------------------------------------------------------

  lemma {:induction false} RunsJoin(c: Column, ls: seq<Label>, ms: seq<Label>)
    requires Runs(c, ls) && Runs(After(c, ls), ms)
    ensures Runs(c, ls + ms) && After(c, ls + ms) == After(After(c, ls), ms)
    decreases |ls|
  {
    if ls == [] {
      assert ls + ms == ms;
    } else {
      assert (ls + ms)[1..] == ls[1..] + ms;
      RunsJoin(Do(c, ls[0]), ls[1..], ms);
    }
  }

  lemma OneStep(c: Column, l: Label)
    requires Inv(c) && Can(c, l)
    ensures Runs(c, [l]) && After(c, [l]) == Do(c, l) && Inv(Do(c, l))
  {
    StepKeepsInv(c, l);
    assert [l][1..] == [];
  }

  /** A run from c, one step longer. */
  lemma Extend(c: Column, ls: seq<Label>, l: Label) returns (longer: seq<Label>)
    requires Runs(c, ls) && Inv(After(c, ls)) && Can(After(c, ls), l)
    ensures longer == ls + [l] && Runs(c, longer)
    ensures After(c, longer) == Do(After(c, ls), l) && Inv(After(c, longer))
  {
    OneStep(After(c, ls), l);
    RunsJoin(c, ls, [l]);
    longer := ls + [l];
  }

  /** Two inputs write at one posedge. */
  lemma TwoArrive(n: nat, depth: nat, p: Packet, q: Packet) returns (ls: seq<Label>)
    requires 2 <= n <= MAX_FIFOS && 1 <= depth
    ensures Runs(Start(n, depth), ls)
    ensures var c := After(Start(n, depth), ls);
            Inv(c) && c.Width() == n && c.stage == Notify && c.woken == {0, 1} && c.thread == Choosing && c.queue == []
  {
    var c := Start(n, depth);
    StartInv(n, depth);
    ls := Extend(c, [], Rise);
    ls := Extend(c, ls, Accept(0, p));
    ls := Extend(c, ls, Accept(1, q));
    ls := Extend(c, ls, Clock(FIFO));
    ls := Extend(c, ls, Commit);
  }

  /** They are logged in the opposite order. */
  lemma LoggedBackwards(c: Column) returns (ls: seq<Label>)
    requires Inv(c) && c.stage == Notify && c.woken == {0, 1} && c.thread == Choosing && c.queue == []
    ensures Runs(c, ls)
    ensures
      var d := After(c, ls);
      Inv(d) && d.stage == Notify && d.woken == {} && d.thread == Choosing && Sources(d.queue) == [1, 0]
  {
    LogStep(c, 1, Tagged(1, c.chans[1].contents[|c.chans[1].contents| - 1]));
    ls := Extend(c, [], Log(1));
    var c' := After(c, ls);
    LogStep(c', 0, Tagged(0, c'.chans[0].contents[|c'.chans[0].contents| - 1]));
    ls := Extend(c, ls, Log(0));
  }

  lemma FixedPicksNewer(c: Column)
    requires Inv(c) && c.stage == Evaluate && c.thread == Choosing && !c.clocked && Sources(c.queue) == [1, 0]
    ensures Do(c, Clock(FIXED)) == c.(clocked := true, thread := Chosen(0))
  {
    FromNonEmpty(c.queue, 0);
    LoggedIsReadable(c, 0);
    FixedPicksLowest(c.arb, c.Avail(), 0);
    ChooseStep(c, FIXED);
  }

  /** And FIXED mode picks the newer one. */
  lemma NewerPicked(c: Column) returns (ls: seq<Label>)
    requires Inv(c) && c.stage == Notify && c.woken == {} && c.thread == Choosing && Sources(c.queue) == [1, 0]
    ensures Runs(c, ls) && Inv(After(c, ls))
    ensures var d := After(c, ls);
            d.thread == Chosen(0) && d.queue == c.queue
  {
    ls := Extend(c, [], Fall);
    ls := Extend(c, ls, Rise);
    FixedPicksNewer(After(c, ls));
    ls := Extend(c, ls, Clock(FIXED));
  }

  lemma Overtaking(n: nat, depth: nat, p: Packet, q: Packet) returns (ls: seq<Label>, c: Column)
    requires 2 <= n <= MAX_FIFOS && 1 <= depth
    ensures Runs(Start(n, depth), ls) && c == After(Start(n, depth), ls)
    ensures Inv(c) && c.thread == Chosen(0) && Sources(c.queue) == [1, 0]
  {
    ls := TwoArrive(n, depth, p, q);
    c := After(Start(n, depth), ls);
    var more := LoggedBackwards(c);
    RunsJoin(Start(n, depth), ls, more);
    ls, c := ls + more, After(c, more);
    more := NewerPicked(c);
    RunsJoin(Start(n, depth), ls, more);
    ls, c := ls + more, After(c, more);
  }

  /** The case is reachable: from the start some run ends in a state from which FIFO mode,
      however long it is then held, emits out of arrival order. */
  lemma OvertakingIsReachable(n: nat, depth: nat, p: Packet, q: Packet) returns (ls: seq<Label>)
    requires 2 <= n <= MAX_FIFOS && 1 <= depth
    ensures Runs(Start(n, depth), ls)
    ensures
      var c := After(Start(n, depth), ls);
      && Inv(c) && !OldestInFlight(c)
      && forall ms :: Runs(c, ms) && ModeHeld(ms, FIFO) && Posedges(ms) >= 1 ==> !InOrder(c, After(c, ms))
  {
    var d;
    ls, d := Overtaking(n, depth, p, q);
    assert d.queue[0].src == Sources(d.queue)[0];
    forall ms | Runs(d, ms) && ModeHeld(ms, FIFO) && Posedges(ms) >= 1 ensures !InOrder(d, After(d, ms)) {
      HeldKnown(ms, FIFO);
      WorkConserving(d, ms, 1);
      FifoModeKeepsArrivalOrder(d, ms);
    }
  }

  // ---------------------------------------------------------------------------
  // Throughput
  // ---------------------------------------------------------------------------

  ghost predicate KnownModes(ls: seq<Label>) {
    ls == [] || ((ls[0].Clock? ==> RAND <= ls[0].mode <= ROUND_ROBIN) && KnownModes(ls[1..]))
  }

  lemma {:induction false} HeldKnown(ls: seq<Label>, mode: int)
    requires ModeHeld(ls, mode) && RAND <= mode <= ROUND_ROBIN
    ensures KnownModes(ls)
  {
    if ls != [] {
      HeldKnown(ls[1..], mode);
    }
  }

  /** The posedge already spent on the service under way. */
  ghost function Spent(c: Column): nat { if c.thread.Choosing? then 0 else 1 }

  /** The services a step completes: a read, if it is one. */
  lemma BusyStep(c: Column, l: Label, k: nat)
    requires Inv(c) && Can(c, l) && (l.Clock? ==> RAND <= l.mode <= ROUND_ROBIN) && 1 <= k <= |c.queue|
    ensures
      var d := Do(c, l);
      && |c.emitted| <= |d.emitted| <= |c.emitted| + 1 && k + |c.emitted| <= |d.queue| + |d.emitted|
      && 2 * (|d.emitted| - |c.emitted|) + Spent(d) >= Spent(c) + if l.Clock? then 1 else 0
  {
    if l.Log? {
      var contents := c.chans[l.fifo].contents;
      LogStep(c, l.fifo, Tagged(l.fifo, contents[|contents| - 1]));
    } else if l.Clock? && c.thread.Reading? {
      ReadStep(c, l.mode, c.thread.fifo);
      ServeLength(c.queue, c.thread.fifo);
    } else if l.Clock? {
      LoggedIsReadable(c, c.queue[0].src);
      FromNonEmpty(c.queue, c.queue[0].src);
      assert Sources(c.queue)[0] == c.queue[0].src;
      ChoiceIsReadable(c, l.mode);
      ChooseStep(c, l.mode);
    }
  }

  lemma {:induction false} ServeLength(g: seq<Tagged>, f: nat)
    ensures |Serve(g, f)| == if From(g, f) == [] then |g| else |g| - 1
  {
    if g != [] && g[0].src != f {
      ServeLength(g[1..], f);
    }
  }

  /** Work conservation over time: under any modes, changing as they may, k of the logged
      packets leave within 2*k posedges. */
  lemma {:induction false} WorkConserving(c: Column, ls: seq<Label>, k: nat)
    requires Inv(c) && Runs(c, ls) && KnownModes(ls) && k <= |c.queue|
    requires Posedges(ls) >= 2 * k - if c.thread.Choosing? then 0 else 1
    ensures |After(c, ls).emitted| >= |c.emitted| + k
    decreases |ls|
  {
    OutputGrows(c, ls, 0);
    if k > 0 && ls != [] {
      var d := Do(c, ls[0]);
      BusyStep(c, ls[0], k);
      StepKeepsInv(c, ls[0]);
      WorkConserving(d, ls[1..], k + |c.emitted| - |d.emitted|);
    }
  }

  /** FIFO mode bounds every wait by the packet's place in the queue alone: the r-th upcoming
      packet is the r-th to leave, within 2*(r+1) posedges. */
  lemma PlaceBoundsWait(c: Column, ls: seq<Label>, r: nat)
    requires Inv(c) && Runs(c, ls) && ModeHeld(ls, FIFO) && r < |Upcoming(c)|
    requires Posedges(ls) >= 2 * (r + 1) - if c.thread.Choosing? then 0 else 1
    ensures var out := After(c, ls).emitted;
            |out| > |c.emitted| + r && out[|c.emitted| + r] == Upcoming(c)[r]
  {
    var d := After(c, ls);
    UpcomingLength(c);
    HeldKnown(ls, FIFO);
    WorkConserving(c, ls, r + 1);
    FifoModeFollows(c, ls);
    var x := d.emitted[|c.emitted|..];
    assert (x + Upcoming(d))[r] == (Upcoming(c) + d.logged[|c.logged|..])[r];
  }

  lemma UpcomingLength(c: Column)
    requires Inv(c)
    ensures |Upcoming(c)| == |c.queue|
  {
    if !c.thread.Choosing? {
      ServeLength(c.queue, c.thread.fifo);
    }
  }

  /** Source by source, the upcoming packets are the queued ones. */
  lemma UpcomingFrom(c: Column, f: nat)
    requires Inv(c)
    ensures From(Upcoming(c), f) == From(c.queue, f)
  {
    if !c.thread.Choosing? {
      var g := c.thread.fifo;
      FromCons(Tagged(g, From(c.queue, g)[0]), Serve(c.queue, g), f);
      ServeFrom(c.queue, g, f);
    }
  }

  lemma HeadOfSum(up: seq<Tagged>, y: seq<Tagged>, x: seq<Tagged>, rest: seq<Tagged>)
    requires up + y == x + rest && |up| <= |x|
    ensures up <= x
  {
    assert forall i :: 0 <= i < |up| ==> up[i] == (up + y)[i] == x[i];
  }

  lemma AllFollowed(c: Column, d: Column)
    requires Inv(c) && Inv(d) && Follows(c, d) && |d.emitted| >= |c.emitted| + |Upcoming(c)|
    ensures c.emitted + Upcoming(c) <= d.emitted
  {
    var x := d.emitted[|c.emitted|..];
    HeadOfSum(Upcoming(c), d.logged[|c.logged|..], x, Upcoming(d));
    assert c.emitted + x == d.emitted;
  }

  /** Everything logged at c, of every source, is out after as many services. */
  lemma AllUpcomingOut(c: Column, ls: seq<Label>, f: nat)
    requires Inv(c) && Runs(c, ls) && ModeHeld(ls, FIFO)
    requires Posedges(ls) >= 2 * |c.queue| - Spent(c)
    ensures From(c.emitted, f) + From(c.queue, f) <= From(After(c, ls).emitted, f)
  {
    HeldKnown(ls, FIFO);
    WorkConserving(c, ls, |c.queue|);
    FifoModeFollows(c, ls);
    UpcomingLength(c);
    AllFollowed(c, After(c, ls));
    FromPrefix(c.emitted + Upcoming(c), After(c, ls).emitted, f);
    FromAppend(c.emitted, Upcoming(c), f);
    UpcomingFrom(c, f);
  }
}
