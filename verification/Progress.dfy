/** The network goes on for ever, and its clock with it: the scheduler is never stuck, and no
    clock period holds more than a fixed number of activations. */
module Progress {
  import opened Sequences
  import opened DeltaFifo
  import opened Arbitration
  import opened Columns
  import opened Handshake
  import opened Network
  import opened Latency

  /** In every state of every run some process or phase can go on. */
  lemma NeverStuck(net: Net)
    requires NetInv(net)
    ensures exists e :: Network.Can(net, e)
  {
    if net.stage == Evaluate {
      if i :| 0 <= i < |net.links| && !net.links[i].senderRan {
        assert Network.Can(net, Generate(i, None));
      } else if i :| 0 <= i < |net.links| && !net.links[i].receiverRan {
        assert Network.Can(net, Route(i));
      } else if j :| 0 <= j < |net.cols| && !net.cols[j].clocked {
        assert Network.Can(net, Arbitrate(j, LRU));
      } else {
        assert Network.Can(net, Update);
      }
    } else if net.stage == Notify {
      if j :| 0 <= j < |net.cols| && net.cols[j].woken != {} {
        var i :| i in net.cols[j].woken;
        assert Network.Can(net, Record(j, i));
      } else {
        assert Network.Can(net, Negedge);
      }
    } else {
      assert Network.Can(net, Posedge);
    }
  }

  // ---------------------------------------------------------------------------
  // Activations left in a period
  // ---------------------------------------------------------------------------

  /** The turns that the first k generators and routers have still to take at this posedge. */
  function Turns(links: seq<Link>, k: nat): nat
    requires k <= |links|
  {
    if k == 0 then 0
    else Turns(links, k - 1) + (if links[k - 1].senderRan then 0 else 1) + (if links[k - 1].receiverRan then 0 else 1)
  }

  function Picks(cols: seq<Column>, k: nat): nat
    requires k <= |cols|
  {
    if k == 0 then 0 else Picks(cols, k - 1) + (if cols[k - 1].clocked then 0 else 1)
  }

  /** The arrivals at the first k outputs that are still to be logged in this delta cycle. */
  function Unrecorded(cols: seq<Column>, k: nat): nat
    requires k <= |cols|
  {
    if k == 0 then 0 else Unrecorded(cols, k - 1) + |cols[k - 1].woken|
  }

  /** The activations up to and including the next update phase of a posedge. */
  function Left(net: Net): (r: nat)
    ensures r >= 1
  {
    var n, m := |net.links|, |net.cols|;
    match net.stage
    case Evaluate => Turns(net.links, n) + Picks(net.cols, m) + 1
    case Notify => Unrecorded(net.cols, m) + 2 * n + m + 3
    case Low => 2 * n + m + 2
  }

  lemma {:induction false} TurnsOf(links: seq<Link>, links': seq<Link>, i: nat, k: nat)
    requires k <= |links| == |links'| && i < |links| && links' == links[i := links'[i]]
    ensures Turns(links', k) + (if i < k then Turned(links[i]) else 0) ==
            Turns(links, k) + (if i < k then Turned(links'[i]) else 0)
  {
    if k > 0 {
      TurnsOf(links, links', i, k - 1);
    }
  }

  function Turned(l: Link): nat {
    (if l.senderRan then 0 else 1) + (if l.receiverRan then 0 else 1)
  }

  lemma {:induction false} PicksOf(cols: seq<Column>, cols': seq<Column>, k: nat)
    requires k <= |cols| == |cols'|
    requires forall j :: 0 <= j < k ==> cols'[j].clocked == cols[j].clocked
    ensures Picks(cols', k) == Picks(cols, k)
  {
    if k > 0 {
      PicksOf(cols, cols', k - 1);
    }
  }

  lemma {:induction false} PickedOne(cols: seq<Column>, cols': seq<Column>, j: nat, k: nat)
    requires k <= |cols| == |cols'| && j < |cols| && cols' == cols[j := cols'[j]]
    requires !cols[j].clocked && cols'[j].clocked
    ensures Picks(cols, k) == Picks(cols', k) + if j < k then 1 else 0
  {
    if k > 0 {
      PickedOne(cols, cols', j, k - 1);
    }
  }

  lemma {:induction false} RecordedOne(cols: seq<Column>, cols': seq<Column>, j: nat, i: nat, k: nat)
    requires k <= |cols| == |cols'| && j < |cols| && cols' == cols[j := cols'[j]]
    requires i in cols[j].woken && cols'[j].woken == cols[j].woken - {i}
    ensures Unrecorded(cols, k) == Unrecorded(cols', k) + if j < k then 1 else 0
  {
    if k > 0 {
      RecordedOne(cols, cols', j, i, k - 1);
    }
  }

  lemma {:induction false} NoneTurned(links: seq<Link>, k: nat)
    requires k <= |links| && forall i :: 0 <= i < k ==> !links[i].senderRan && !links[i].receiverRan
    ensures Turns(links, k) == 2 * k
  {
    if k > 0 {
      NoneTurned(links, k - 1);
    }
  }

  lemma {:induction false} AllTurned(links: seq<Link>, k: nat)
    requires k <= |links| && forall i :: 0 <= i < k ==> links[i].senderRan && links[i].receiverRan
    ensures Turns(links, k) == 0
  {
    if k > 0 {
      AllTurned(links, k - 1);
    }
  }

  lemma {:induction false} PicksAll(cols: seq<Column>, k: nat, ran: bool)
    requires k <= |cols| && forall j :: 0 <= j < k ==> cols[j].clocked == ran
    ensures Picks(cols, k) == if ran then 0 else k
  {
    if k > 0 {
      PicksAll(cols, k - 1, ran);
    }
  }

  lemma {:induction false} NoneUnrecorded(cols: seq<Column>, k: nat)
    requires k <= |cols| && forall j :: 0 <= j < k ==> cols[j].woken == {}
    ensures Unrecorded(cols, k) == 0
  {
    if k > 0 {
      NoneUnrecorded(cols, k - 1);
    }
  }

  lemma {:induction false} WokenBound(s: set<nat>, n: nat)
    requires forall f :: f in s ==> f < n
    ensures |s| <= n
  {
    if n == 0 {
      assert s == {};
    } else {
      var rest := s - {n - 1};
      WokenBound(rest, n - 1);
      assert s <= rest + {n - 1};
      assert |s| <= |rest| + 1 by {
        if n - 1 in s {
          assert s == rest + {n - 1};
        } else {
          assert s == rest;
        }
      }
    }
  }

  lemma {:induction false} UnrecordedBound(cols: seq<Column>, n: nat, k: nat)
    requires k <= |cols| && forall j :: 0 <= j < k ==> forall f :: f in cols[j].woken ==> f < n
    ensures Unrecorded(cols, k) <= n * k
  {
    if k > 0 {
      UnrecordedBound(cols, n, k - 1);
      WokenBound(cols[k - 1].woken, n);
      assert n * k == n * (k - 1) + n;
    }
  }

  /** The most activations between two update phases, counting one of them. */
  function Longest(net: Net): (r: nat)
    ensures r >= 3
  {
    var n, m := |net.links|, |net.cols|;
    2 * n + m + n * m + 3
  }

  lemma GeneratorTurn(net: Net, e: Event)
    requires NetInv(net) && Network.Can(net, e) && e.Generate?
    ensures Left(Network.Do(net, e)) == Left(net) - 1
  {
    TurnsOf(net.links, Network.Do(net, e).links, e.input, |net.links|);
  }

  lemma RouterTurn(net: Net, e: Event)
    requires NetInv(net) && Network.Can(net, e) && e.Route?
    ensures Left(Network.Do(net, e)) == Left(net) - 1
  {
    var d := Network.Do(net, e);
    TurnsOf(net.links, d.links, e.input, |net.links|);
    PicksOf(net.cols, d.cols, |net.cols|);
  }

  lemma ArbiterTurn(net: Net, e: Event)
    requires NetInv(net) && Network.Can(net, e) && e.Arbitrate?
    ensures Left(Network.Do(net, e)) == Left(net) - 1
  {
    PickedOne(net.cols, Network.Do(net, e).cols, e.output, |net.cols|);
  }

  lemma RecordTurn(net: Net, e: Event)
    requires NetInv(net) && Network.Can(net, e) && e.Record?
    ensures Left(Network.Do(net, e)) == Left(net) - 1
  {
    RecordedOne(net.cols, Network.Do(net, e).cols, e.output, e.input, |net.cols|);
  }

  lemma NegedgeTurn(net: Net)
    requires NetInv(net) && Network.Can(net, Negedge)
    ensures Left(Network.Do(net, Negedge)) == Left(net) - 1
  {
    NoneUnrecorded(net.cols, |net.cols|);
  }

  lemma PosedgeBegins(net: Net)
    requires NetInv(net) && Network.Can(net, Posedge)
    ensures Left(Network.Do(net, Posedge)) == Left(net) - 1
  {
    var d := Network.Do(net, Posedge);
    forall i | 0 <= i < |d.links| ensures !d.links[i].senderRan && !d.links[i].receiverRan {
      assert LinkInv(net.links[i], Low);
    }
    NoneTurned(d.links, |d.links|);
    PicksAll(d.cols, |d.cols|, false);
  }

  /** A period's update phase is its last activation, and the next period is not too long. */
  lemma UpdateTurn(net: Net)
    requires NetInv(net) && Network.Can(net, Update)
    ensures Left(net) == 1 && Left(Network.Do(net, Update)) <= Longest(net)
  {
    var d := Network.Do(net, Update);
    AllTurned(net.links, |net.links|);
    PicksAll(net.cols, |net.cols|, true);
    UnrecordedBound(d.cols, |net.links|, |d.cols|);
  }

  lemma OneLess(net: Net, e: Event)
    requires NetInv(net) && Network.Can(net, e)
    ensures if e.Update? then Left(net) == 1 && Left(Network.Do(net, e)) <= Longest(net)
            else Left(Network.Do(net, e)) == Left(net) - 1
    ensures Longest(Network.Do(net, e)) == Longest(net)
  {
    SameSize(net, e);
    match e
    case Arbitrate(_, _) => ArbiterTurn(net, e);
    case Record(_, _) => RecordTurn(net, e);
    case Update => UpdateTurn(net);
    case Negedge => NegedgeTurn(net);
    case Posedge => PosedgeBegins(net);
    case Generate(_, _) => GeneratorTurn(net, e);
    case Route(_) => RouterTurn(net, e);
  }

  /** One activation more is worth one of those left, or a round. */
  lemma Paid(net: Net, e: Event, count: nat, rounds: nat)
    requires NetInv(net) && Network.Can(net, e)
    requires count < Left(Network.Do(net, e)) + Longest(Network.Do(net, e)) * rounds
    ensures count + 1 < Left(net) + Longest(net) * ((if e.Update? then 1 else 0) + rounds)
  {
    OneLess(net, e);
    OneMoreRound(Longest(net), rounds);
  }

  /** The activations of a run are paid for by its rounds. */
  lemma {:induction false} RunIsPaid(net: Net, es: seq<Event>)
    requires NetInv(net) && Network.Runs(net, es)
    ensures |es| < Left(net) + Longest(net) * Rounds(es)
    decreases |es|
  {
    if es != [] {
      StepKeepsNet(net, es[0]);
      RunIsPaid(Network.Do(net, es[0]), es[1..]);
      Paid(net, es[0], |es[1..]|, Rounds(es[1..]));
    }
  }

  lemma OneMoreRound(t: nat, r: nat)
    ensures t * (1 + r) == t + t * r
  {
  }

  lemma LeftBound(net: Net)
    requires NetInv(net)
    ensures Left(net) <= Longest(net)
  {
    var n, m := |net.links|, |net.cols|;
    TurnsBound(net.links, n);
    PicksBound(net.cols, m);
    UnrecordedBound(net.cols, n, m);
  }

  lemma {:induction false} TurnsBound(links: seq<Link>, k: nat)
    requires k <= |links|
    ensures Turns(links, k) <= 2 * k
  {
    if k > 0 {
      TurnsBound(links, k - 1);
    }
  }

  lemma {:induction false} PicksBound(cols: seq<Column>, k: nat)
    requires k <= |cols|
    ensures Picks(cols, k) <= k
  {
    if k > 0 {
      PicksBound(cols, k - 1);
    }
  }

  /** Time advances: whatever the scheduler picks, every 2n+m+nm+3 activations complete another
      clock period. */
  lemma TimeAdvances(net: Net, es: seq<Event>, r: nat)
    requires NetInv(net) && Network.Runs(net, es)
    requires |es| >= (2 * |net.links| + |net.cols| + |net.links| * |net.cols| + 3) * r
    ensures Rounds(es) >= r
  {
    LongestIs(net, r);
    RoundsPass(net, es, r);
  }

  lemma LongestIs(net: Net, r: nat)
    ensures Longest(net) * r == (2 * |net.links| + |net.cols| + |net.links| * |net.cols| + 3) * r
  {
  }

  lemma RoundsPass(net: Net, es: seq<Event>, r: nat)
    requires NetInv(net) && Network.Runs(net, es) && |es| >= Longest(net) * r
    ensures Rounds(es) >= r
  {
    RunIsPaid(net, es);
    LeftBound(net);
    EnoughRounds(|es|, Left(net), Longest(net), Rounds(es), r);
  }

  lemma EnoughRounds(count: nat, left: nat, longest: nat, rounds: nat, r: nat)
    requires longest * r <= count < left + longest * rounds && left <= longest
    ensures rounds >= r
  {
    OneMoreRound(longest, rounds);
    if rounds + 1 <= r {
      TimesMonotone(longest, 1 + rounds, r);
    }
  }

  lemma TimesMonotone(t: nat, a: nat, b: nat)
    requires a <= b
    ensures t * a <= t * b
  {
  }

  /** And it never stops: some run goes on for any number of activations. */
  lemma {:induction false} RunsForever(net: Net, k: nat) returns (es: seq<Event>)
    requires NetInv(net)
    ensures |es| == k && Network.Runs(net, es)
    decreases k
  {
    if k == 0 {
      es := [];
    } else {
      NeverStuck(net);
      var e :| Network.Can(net, e);
      StepKeepsNet(net, e);
      var rest := RunsForever(Network.Do(net, e), k - 1);
      es := [e] + rest;
      assert es[1..] == rest;
    }
  }
}
