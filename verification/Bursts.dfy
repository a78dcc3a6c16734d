/** A burst generator on its link: how far apart its packets start, and how many of them a
    burst holds. The counters are those of `Generators`, the handshake that of `Handshake`. */
module Bursts {
  import opened Division
  import opened Sequences
  import opened Columns
  import opened Handshake
  import opened Generators
  import opened DeltaFifo
  import Lfsr

  /** Whether the clock counter or the generator runs first at a posedge, or now one and now
      the other. */
  datatype Order = CounterFirst | GeneratorFirst | EitherFirst

  datatype Source = Source(
    order: Order,
    burst: Burst,
    link: Link,
    stage: Stage,
    counted: bool,    // clock_counter has had its turn at this posedge
    begun: bool,      // `generate` has reached its loop's wait
    // History, read by no process.
    starts: seq<nat>, // the posedges at which packets were started
    seen: seq<nat>,   // the clock counts seen at those since the last reset
    resets: nat,
    wrapped: bool)    // the count has wrapped around since the last reset

  /** A new generator; set_burst and set_offset have done their part. */
  function StartSource(order: Order, offset: nat, longPeriod: nat, shortPeriod: nat, burstLength: nat): Source {
    Source(order, Burst(offset % Lfsr.WORD, 0, false, longPeriod, shortPeriod, burstLength, 0), StartLink(), Low,
           false, false, [], [], 0, false)
  }

  datatype Act =
    | Count                   // clock_counter's turn at a posedge
    | Generate(packet: Packet) // generate's turn, at its own wait or inside an emission
    | Take(space: bool)       // the router's turn
    | Update
    | Negedge
    | Posedge

  ghost predicate Can(s: Source, a: Act) {
    match a
    case Count => s.stage == Evaluate && !s.counted && (s.order.GeneratorFirst? ==> s.link.senderRan)
    case Generate(_) => s.stage == Evaluate && !s.link.senderRan && (s.order.CounterFirst? ==> s.counted)
    case Take(_) => s.stage == Evaluate && !s.link.receiverRan
    case Update => s.stage == Evaluate && s.counted && s.link.senderRan && s.link.receiverRan
    case Negedge => s.stage == Notify
    case Posedge => s.stage == Low
  }

  function Do(s: Source, a: Act): Source
    requires s.burst.shortPeriod >= 1
  {
    match a
    case Count =>
      var b := Advance(s.burst, Tick);
      s.(counted := true, burst := b, wrapped := s.wrapped || b.clockCount == 0)
    case Generate(p) => Turned(s, p)
    case Take(space) => s.(link := Receive(s.link, space))
    case Update => s.(link := Settle(s.link), stage := Notify, counted := false)
    case Negedge =>
      var l := FallingEdge(s.link);
      if s.link.sender.Idle? || !l.sender.Idle? then s.(link := l, stage := Low)
      else Renewed(s, Advance(s.burst, Finish)).(link := l, stage := Low)
    case Posedge => s.(link := RisingEdge(s.link), stage := Evaluate)
  }

  function Turned(s: Source, p: Packet): Source
    requires s.burst.shortPeriod >= 1
  {
    if !s.link.sender.Idle? || !s.begun then s.(begun := true, link := Send(s.link, None))
    else if StartsPacket(s.burst) then
      s.(burst := Advance(s.burst, Turn), link := Send(s.link, Some(p)),
         starts := s.starts + [s.link.time], seen := s.seen + [s.burst.clockCount])
    else Renewed(s, Advance(s.burst, Turn)).(link := Send(s.link, None))
  }

  /** The end of generate's loop body, where it may reset the counters. */
  function Renewed(s: Source, b: Burst): Source {
    if s.burst.clockCount >= s.burst.longPeriod
    then s.(burst := b, seen := [], resets := s.resets + 1, wrapped := false)
    else s.(burst := b)
  }

  ghost predicate Runs(s: Source, acts: seq<Act>)
    decreases |acts|
  {
    acts == [] || (s.burst.shortPeriod >= 1 && Can(s, acts[0]) && Runs(Do(s, acts[0]), acts[1..]))
  }

  ghost function After(s: Source, acts: seq<Act>): Source
    requires Runs(s, acts)
    decreases |acts|
  {
    if acts == [] then s else After(Do(s, acts[0]), acts[1..])
  }

  // ---------------------------------------------------------------------------
  // The invariant
  // ---------------------------------------------------------------------------

  function Last(s: seq<nat>): nat
    requires s != []
  {
    s[|s| - 1]
  }

  /** The generator's threads and the link agree. */
  ghost predicate Coupled(s: Source) {
    && Timed(s.link, s.stage, s.starts)
    && (s.burst.emitting <==> !s.link.sender.Idle?)
    && (s.stage != Evaluate ==> !s.counted)
    && (s.order.GeneratorFirst? && s.counted ==> s.link.senderRan)
    && (!s.begun ==> s.link.sender.Idle?)
  }

  /** Packets start three posedges apart. */
  ghost predicate Timed(l: Link, stage: Stage, starts: seq<nat>) {
    && LinkInv(l, stage)
    && |l.sent| == |starts|
    && WellSpaced(starts)
    && (starts != [] ==> Recent(l, stage, starts))
  }

  /** Where the last start is in time: before any posedge at which its packet can be taken. */
  ghost predicate Recent(l: Link, stage: Stage, starts: seq<nat>)
    requires starts != [] && |l.takenAt| == |l.taken|
  {
    && Last(starts) <= l.time
    && (stage == Evaluate && Last(starts) == l.time ==> l.sender.Prepared?)
    && (|l.taken| == |starts| ==> Last(starts) < Last(l.takenAt))
  }

  /** Clock counts minus posedges, once this posedge's count has been made. */
  function Offset(s: Source): int {
    s.burst.clockCount + (if s.stage == Evaluate && !s.counted then 1 else 0) - s.link.time
  }

  /** The fewest counts between two starts three posedges apart. */
  function Gap(order: Order): nat { if order.EitherFirst? then 2 else 3 }

  /** Since the last reset, packet k started at a count of at least k short periods, within
      the burst, and at least a gap after its predecessor. */
  ghost predicate Paced(s: Source) {
    && s.burst.shortPeriod >= 1
    && s.burst.clockCount < Lfsr.WORD
    && |s.seen| == s.burst.started == s.burst.packetCount <= |s.starts|
    && InBurst(s.burst.shortPeriod, s.burst.burstLength, s.seen)
    && (!s.wrapped ==> Spaced(s.seen, Gap(s.order)))
    && (!s.wrapped && s.seen != [] ==> Aligned(s))
  }

  ghost predicate InBurst(shortPeriod: nat, burstLength: nat, seen: seq<nat>)
    requires shortPeriod >= 1
  {
    forall k :: 0 <= k < |seen| ==> k <= seen[k] / shortPeriod && seen[k] < burstLength
  }

  ghost predicate Spaced(seen: seq<nat>, gap: nat) {
    forall k :: 0 < k < |seen| ==> seen[k - 1] + gap <= seen[k]
  }

  /** The count has kept pace with the posedges since the last start. */
  ghost predicate Aligned(s: Source)
    requires s.seen != [] && |s.seen| <= |s.starts|
  {
    var drift := Last(s.seen) - Last(s.starts);
    Offset(s) - (if s.order.CounterFirst? then 0 else 1) <= drift
    <= Offset(s) - (if s.order.GeneratorFirst? then 1 else 0)
  }

  ghost predicate SourceInv(s: Source) { Coupled(s) && Paced(s) }

  lemma StartSourceInv(order: Order, offset: nat, longPeriod: nat, shortPeriod: nat, burstLength: nat)
    requires shortPeriod >= 1
    ensures SourceInv(StartSource(order, offset, longPeriod, shortPeriod, burstLength))
    ensures
      var s := StartSource(order, offset, longPeriod, shortPeriod, burstLength);
      && s.order == order && s.burst.longPeriod == longPeriod && s.burst.shortPeriod == shortPeriod
      && s.burst.burstLength == burstLength && s.burst.packetCount == 0 && s.burst.clockCount == offset % Lfsr.WORD
  {
    StartLinkInv();
  }

  // Every act keeps it

  /** An idle generator's turn comes three posedges after its last start. */
  lemma IdleTurnIsLate(l: Link, starts: seq<nat>)
    requires Timed(l, Evaluate, starts) && !l.senderRan && l.sender.Idle? && starts != []
    ensures Last(starts) + 3 <= l.time
  {
  }

  lemma StartKeepsTimed(l: Link, starts: seq<nat>, p: Packet)
    requires Timed(l, Evaluate, starts) && !l.senderRan && l.sender.Idle?
    ensures Timed(Send(l, Some(p)), Evaluate, starts + [l.time])
  {
    if starts != [] {
      IdleTurnIsLate(l, starts);
    }
    SendKeepsLink(l, Some(p));
  }

  lemma RestKeepsTimed(l: Link, starts: seq<nat>)
    requires Timed(l, Evaluate, starts) && !l.senderRan
    ensures Timed(Send(l, None), Evaluate, starts)
    ensures l.sender.Idle? <==> Send(l, None).sender.Idle?
  {
    SendKeepsLink(l, None);
  }

  lemma TakeKeepsTimed(l: Link, starts: seq<nat>, space: bool)
    requires Timed(l, Evaluate, starts) && !l.receiverRan
    ensures Timed(Receive(l, space), Evaluate, starts)
  {
    ReceiveKeepsLink(l, space);
  }

  lemma UpdateKeepsTimed(l: Link, starts: seq<nat>)
    requires Timed(l, Evaluate, starts) && l.senderRan && l.receiverRan
    ensures Timed(Settle(l), Notify, starts)
    ensures l.sender.Idle? <==> Settle(l).sender.Idle?
  {
    SettleKeepsLink(l);
  }

  lemma FallKeepsTimed(l: Link, starts: seq<nat>)
    requires Timed(l, Notify, starts)
    ensures Timed(FallingEdge(l), Low, starts)
    ensures l.sender.Idle? ==> FallingEdge(l).sender.Idle?
  {
    FallKeepsLink(l);
  }

  lemma RiseKeepsTimed(l: Link, starts: seq<nat>)
    requires Timed(l, Low, starts)
    ensures Timed(RisingEdge(l), Evaluate, starts)
  {
    RiseKeepsLink(l);
  }

  /** A start is a gap of counts after the last one. */
  lemma CountsSpread(s: Source)
    requires SourceInv(s) && Can(s, Generate(Packet(0, 0))) && s.link.sender.Idle? && !s.wrapped && s.seen != []
    ensures Last(s.seen) + Gap(s.order) <= s.burst.clockCount
  {
    IdleTurnIsLate(s.link, s.starts);
  }

  lemma StartKeepsCoupled(s: Source, p: Packet)
    requires SourceInv(s) && Can(s, Generate(p)) && s.link.sender.Idle? && s.begun && StartsPacket(s.burst)
    ensures Coupled(Do(s, Generate(p)))
  {
    StartKeepsTimed(s.link, s.starts, p);
  }

  lemma InBurstAppend(shortPeriod: nat, burstLength: nat, seen: seq<nat>, count: nat)
    requires shortPeriod >= 1 && InBurst(shortPeriod, burstLength, seen)
    requires |seen| <= count / shortPeriod && count < burstLength
    ensures InBurst(shortPeriod, burstLength, seen + [count])
  {
  }

  lemma StartAligned(s: Source, p: Packet)
    requires SourceInv(s) && Can(s, Generate(p)) && s.link.sender.Idle? && s.begun && StartsPacket(s.burst)
    ensures var d := Do(s, Generate(p));
            d.seen != [] && |d.seen| <= |d.starts| && Aligned(d)
  {
    assert Last(s.seen + [s.burst.clockCount]) == s.burst.clockCount;
    assert Last(s.starts + [s.link.time]) == s.link.time;
  }

  lemma StartKeepsPaced(s: Source, p: Packet)
    requires SourceInv(s) && Can(s, Generate(p)) && s.link.sender.Idle? && s.begun && StartsPacket(s.burst)
    ensures Paced(Do(s, Generate(p)))
  {
    InBurstAppend(s.burst.shortPeriod, s.burst.burstLength, s.seen, s.burst.clockCount);
    if !s.wrapped && s.seen != [] {
      CountsSpread(s);
    }
    StartAligned(s, p);
  }

  /** A turn that starts nothing. */
  lemma RestKeepsCoupled(s: Source, p: Packet)
    requires SourceInv(s) && Can(s, Generate(p))
    requires !(s.link.sender.Idle? && s.begun && StartsPacket(s.burst))
    ensures Coupled(Do(s, Generate(p)))
  {
    RestKeepsTimed(s.link, s.starts);
  }

  lemma RestKeepsPaced(s: Source, p: Packet)
    requires SourceInv(s) && Can(s, Generate(p))
    requires !(s.link.sender.Idle? && s.begun && StartsPacket(s.burst))
    ensures Paced(Do(s, Generate(p)))
  {
  }

  lemma TakeKeepsCoupled(s: Source, space: bool)
    requires SourceInv(s) && Can(s, Take(space))
    ensures Coupled(Do(s, Take(space)))
  {
    TakeKeepsTimed(s.link, s.starts, space);
  }

  lemma FallKeepsCoupled(s: Source)
    requires SourceInv(s) && Can(s, Negedge)
    ensures Coupled(Do(s, Negedge))
  {
    FallKeepsTimed(s.link, s.starts);
  }

  lemma FallKeepsPaced(s: Source)
    requires SourceInv(s) && Can(s, Negedge)
    ensures Paced(Do(s, Negedge))
  {
    var l := FallingEdge(s.link);
    assert l.time == s.link.time;
  }

  lemma OtherActKeeps(s: Source, a: Act)
    requires SourceInv(s) && Can(s, a) && (a.Count? || a.Update? || a.Posedge?)
    ensures SourceInv(Do(s, a))
  {
    match a
    case Update => UpdateKeepsTimed(s.link, s.starts);
    case Posedge => RiseKeepsTimed(s.link, s.starts);
    case _ =>
  }

  lemma ActKeeps(s: Source, a: Act)
    requires SourceInv(s) && Can(s, a)
    ensures SourceInv(Do(s, a))
  {
    match a
    case Generate(p) =>
      if s.link.sender.Idle? && s.begun && StartsPacket(s.burst) {
        StartKeepsCoupled(s, p);
        StartKeepsPaced(s, p);
      } else {
        RestKeepsCoupled(s, p);
        RestKeepsPaced(s, p);
      }
    case Take(space) => TakeKeepsCoupled(s, space);
    case Negedge =>
      FallKeepsCoupled(s);
      FallKeepsPaced(s);
    case _ => OtherActKeeps(s, a);
  }

  /** What every act does to the counters. A turn of an idle generator starts a packet if and only
      if the count is within the burst and the packets so far are not ahead of the short periods.
      A turn that starts none, and the end of an emission, reset both counters if and only if the
      count has reached the long period. The clock counts by one modulo 2^32. Nothing else moves
      either counter. */
  lemma CountersExactly(s: Source, a: Act)
    requires SourceInv(s) && Can(s, a)
    ensures
      var b, d := s.burst, Do(s, a);
      var turn := a.Generate? && s.begun && s.link.sender.Idle?;
      var starts := turn && b.clockCount < b.burstLength && b.clockCount / b.shortPeriod >= b.packetCount;
      var ends := (turn && !starts) || (a.Negedge? && s.link.sender.AwaitRelease?);
      && (starts <==> |d.link.sent| == |s.link.sent| + 1)
      && (starts ==> d.burst.clockCount == b.clockCount && d.burst.packetCount == b.packetCount + 1
                     && d.seen == s.seen + [b.clockCount] && d.link.sent == s.link.sent + [a.packet])
      && (ends ==> if b.clockCount >= b.longPeriod
                   then d.burst.clockCount == 0 && d.burst.packetCount == 0 && d.seen == [] && d.resets == s.resets + 1
                   else d.burst.clockCount == b.clockCount && d.burst.packetCount == b.packetCount
                        && d.seen == s.seen && d.resets == s.resets)
      && (!starts && !ends ==> d.burst.packetCount == b.packetCount && d.seen == s.seen && d.resets == s.resets)
      && (!starts && !ends ==>
            d.burst.clockCount == if a.Count? then (if b.clockCount == 0xFFFF_FFFF then 0 else b.clockCount + 1)
                                  else b.clockCount)
  {
    if a.Negedge? {
      EndsWithRelease(s.link);
    } else if a.Count? {
      CountsByOne(s.burst);
    }
  }

  lemma CountsByOne(b: Burst)
    requires b.shortPeriod >= 1 && b.clockCount < Lfsr.WORD
    ensures Advance(b, Tick) ==
            b.(clockCount := if b.clockCount == 0xFFFF_FFFF then 0 else b.clockCount + 1)
  {
  }

  /** An emission ends at a negedge exactly if the generator is waiting for the release. */
  lemma EndsWithRelease(l: Link)
    requires LinkInv(l, Notify)
    ensures !l.sender.Idle? && FallingEdge(l).sender.Idle? <==> l.sender.AwaitRelease?
    ensures FallingEdge(l).sent == l.sent
  {
  }

  ghost predicate SameSettings(s: Source, d: Source) {
    && d.order == s.order && d.burst.shortPeriod == s.burst.shortPeriod
    && d.burst.longPeriod == s.burst.longPeriod && d.burst.burstLength == s.burst.burstLength
  }

  /** The settings stay, resets only add up, and a wrap-around is remembered until one. */
  lemma ActSettings(s: Source, a: Act)
    requires s.burst.shortPeriod >= 1
    ensures SameSettings(s, Do(s, a))
    ensures s.resets <= Do(s, a).resets
    ensures Do(s, a).resets == s.resets && s.wrapped ==> Do(s, a).wrapped
  {
  }

  lemma {:induction false} RunSettings(s: Source, acts: seq<Act>)
    requires Runs(s, acts)
    ensures SameSettings(s, After(s, acts))
    ensures s.resets <= After(s, acts).resets
    ensures After(s, acts).resets == s.resets && s.wrapped ==> After(s, acts).wrapped
    decreases |acts|
  {
    if acts != [] {
      ActSettings(s, acts[0]);
      RunSettings(Do(s, acts[0]), acts[1..]);
    }
  }

  lemma {:induction false} RunKeepsSource(s: Source, acts: seq<Act>)
    requires SourceInv(s) && Runs(s, acts)
    ensures SourceInv(After(s, acts))
    decreases |acts|
  {
    if acts != [] {
      ActKeeps(s, acts[0]);
      RunKeepsSource(Do(s, acts[0]), acts[1..]);
    }
  }

  // ---------------------------------------------------------------------------
  // Whatever stalls
  // ---------------------------------------------------------------------------

  /** In every run, stalled as it may be, packets start at least three posedges apart. */
  lemma StartsAreSpaced(order: Order, offset: nat, longPeriod: nat, shortPeriod: nat, burstLength: nat, acts: seq<Act>)
    requires shortPeriod >= 1 && Runs(StartSource(order, offset, longPeriod, shortPeriod, burstLength), acts)
    ensures var s := After(StartSource(order, offset, longPeriod, shortPeriod, burstLength), acts);
            (forall k :: 0 < k < |s.starts| ==> s.starts[k - 1] + 3 <= s.starts[k]) && |s.starts| == |s.link.sent| && s.burst.started <= |s.starts|
  {
    StartSourceInv(order, offset, longPeriod, shortPeriod, burstLength);
    RunKeepsSource(StartSource(order, offset, longPeriod, shortPeriod, burstLength), acts);
  }

  function Min(a: nat, b: nat): nat { if a <= b then a else b }

  function Max(a: int, b: int): int { if a >= b then a else b }

  lemma CeilAbove(k: nat, m: nat, b: nat)
    requires m >= 1
    ensures k * m < b <==> k < CeilDiv(b, m)
  {
    var q := CeilDiv(b, m);
    var r := (b + m - 1) % m;
    assert b + m - 1 == m * q + r;
    if k < q {
      Product(k + 1, q, m);
      assert (k + 1) * m == k * m + m;
    } else {
      Product(q, k, m);
    }
  }

  lemma Product(a: nat, b: nat, m: nat)
    requires a <= b
    ensures a * m <= b * m
  {
  }

  lemma {:induction false} SpacedGrows(seen: seq<nat>, gap: nat, k: nat)
    requires Spaced(seen, gap) && k < |seen|
    ensures seen[0] + k * gap <= seen[k]
  {
    if k > 0 {
      SpacedGrows(seen, gap, k - 1);
      assert k * gap == (k - 1) * gap + gap;
    }
  }

  lemma QuotientBelow(k: nat, x: nat, m: nat)
    requires m >= 1
    ensures k <= x / m <==> k * m <= x
  {
    var q, r := x / m, x % m;
    assert x == m * q + r;
    if k <= q {
      Product(k, q, m);
    } else {
      Product(q + 1, k, m);
      assert (q + 1) * m == q * m + m;
    }
  }

  /** However long handshakes stall, a burst holds at most ceil(burst_length / short_period)
      packets, and at most one for every three counts of its length: two if the threads' order
      may change from posedge to posedge. */
  lemma BurstHoldsAtMost(s: Source)
    requires SourceInv(s) && !s.wrapped
    ensures
      var b := s.burst;
      && b.started <= CeilDiv(b.burstLength, b.shortPeriod)
      && b.started <= CeilDiv(b.burstLength, if s.order.EitherFirst? then 2 else 3)
  {
    if s.seen != [] {
      var k := |s.seen| - 1;
      SpacedGrows(s.seen, Gap(s.order), k);
      CeilAbove(k, Gap(s.order), s.burst.burstLength);
      QuotientBelow(k, s.seen[k], s.burst.shortPeriod);
      CeilAbove(k, s.burst.shortPeriod, s.burst.burstLength);
    }
  }

  // ---------------------------------------------------------------------------
  // Nothing stalls
  // ---------------------------------------------------------------------------

  /** The router always finds space. */
  ghost predicate Open(acts: seq<Act>) {
    forall i :: 0 <= i < |acts| ==> acts[i].Take? ==> acts[i].space
  }

  /** Every handshake is as far along as it can be. */
  ghost predicate Prompt(l: Link, stage: Stage, starts: seq<nat>) {
    starts != [] ==>
      var age := l.time - Last(starts);
      match l.sender
      case Prepared => age == 0
      case AwaitAck => age == (if stage == Evaluate then 1 else 0) && stage != Notify && !l.receiver.AwaitSpace?
      case AwaitPosedge => age == if stage == Evaluate then 2 else 1
      case AwaitRelease => age == 2
      case Idle => true
  }

  /** The posedge of the next turn at which `generate` may start a packet, if nothing stalls. */
  function NextTurn(s: Source): nat {
    if !s.link.sender.Idle? && s.starts != [] then Last(s.starts) + 3
    else s.link.time + (if s.stage == Evaluate && !s.link.senderRan then 0 else 1) + (if s.begun then 0 else 1)
  }

  /** The clock count it will see, under a fixed order of the threads. */
  function NextCount(s: Source): int {
    Offset(s) - (if s.order.CounterFirst? then 0 else 1) + NextTurn(s)
  }

  /** The clock count at which packet k of an unobstructed burst starts, if the first turn sees
      count c: a handshake takes three posedges. */
  function Pace(c: int, shortPeriod: nat, k: nat): int { Max(c + 3 * k, k * shortPeriod) }

  /** The packets start at exactly those counts, the next one included. */
  ghost predicate Eager(s: Source, c: int) {
    var pace := Pace(c, s.burst.shortPeriod, |s.seen|);
    && !s.order.EitherFirst? && !s.wrapped
    && Prompt(s.link, s.stage, s.starts)
    && OnPace(s.seen, s.burst.shortPeriod, c)
    && (pace >= NextCount(s) || pace >= s.burst.burstLength)
    && (s.seen == [] ==> NextCount(s) >= c)
  }

  ghost predicate OnPace(seen: seq<nat>, shortPeriod: nat, c: int) {
    forall k :: 0 <= k < |seen| ==> seen[k] == Pace(c, shortPeriod, k)
  }

  lemma PaceStep(c: int, shortPeriod: nat, k: nat)
    requires c >= 0
    ensures Pace(c, shortPeriod, k + 1) >= Pace(c, shortPeriod, k) + 3
  {
    assert (k + 1) * shortPeriod == k * shortPeriod + shortPeriod;
    if shortPeriod < 3 {
      assert k * shortPeriod <= k * 3 by {
        Product(shortPeriod, 3, k);
      }
    }
  }

  // Every act of an unobstructed burst keeps it

  lemma TakeKeepsPrompt(l: Link, starts: seq<nat>)
    requires Timed(l, Evaluate, starts) && Prompt(l, Evaluate, starts) && !l.receiverRan
    ensures Prompt(Receive(l, true), Evaluate, starts)
  {
  }

  lemma UpdateKeepsPrompt(l: Link, starts: seq<nat>)
    requires Timed(l, Evaluate, starts) && Prompt(l, Evaluate, starts) && l.senderRan && l.receiverRan
    ensures Prompt(Settle(l), Notify, starts)
  {
  }

  lemma FallKeepsPrompt(l: Link, starts: seq<nat>)
    requires Timed(l, Notify, starts) && Prompt(l, Notify, starts)
    ensures Prompt(FallingEdge(l), Low, starts)
    ensures !l.sender.Idle? && FallingEdge(l).sender.Idle? && starts != [] ==> l.time == Last(starts) + 2
    ensures !l.sender.Idle? ==> starts != []
  {
  }

  lemma RiseKeepsPrompt(l: Link, starts: seq<nat>)
    requires Timed(l, Low, starts) && Prompt(l, Low, starts)
    ensures Prompt(RisingEdge(l), Evaluate, starts)
  {
  }

  lemma RestKeepsPrompt(l: Link, starts: seq<nat>)
    requires Timed(l, Evaluate, starts) && Prompt(l, Evaluate, starts) && !l.senderRan
    ensures Prompt(Send(l, None), Evaluate, starts)
  {
  }

  /** An act other than a start moves neither the counts seen nor, unless it is generate's own
      turn, the count of the next turn. */
  lemma QuietFall(s: Source)
    requires SourceInv(s) && Can(s, Negedge) && Prompt(s.link, s.stage, s.starts)
    requires Do(s, Negedge).resets == s.resets
    ensures var d := Do(s, Negedge);
            Prompt(d.link, d.stage, d.starts) && NextCount(d) == NextCount(s) && d.seen == s.seen
  {
    FallKeepsPrompt(s.link, s.starts);
  }

  lemma QuietCount(s: Source)
    requires SourceInv(s) && Can(s, Count) && Prompt(s.link, s.stage, s.starts) && !Do(s, Count).wrapped
    ensures var d := Do(s, Count);
            Prompt(d.link, d.stage, d.starts) && NextCount(d) == NextCount(s)
  {
  }

  lemma QuietUpdate(s: Source)
    requires SourceInv(s) && Can(s, Update) && Prompt(s.link, s.stage, s.starts)
    ensures var d := Do(s, Update);
            Prompt(d.link, d.stage, d.starts) && NextCount(d) == NextCount(s)
  {
    UpdateKeepsPrompt(s.link, s.starts);
    UpdateKeepsTimed(s.link, s.starts);
  }

  lemma QuietAct(s: Source, a: Act)
    requires SourceInv(s) && Can(s, a) && !a.Generate? && Prompt(s.link, s.stage, s.starts)
    requires a.Take? ==> a.space
    requires Do(s, a).resets == s.resets && !Do(s, a).wrapped
    ensures var d := Do(s, a);
            Prompt(d.link, d.stage, d.starts) && NextCount(d) == NextCount(s) && d.seen == s.seen
  {
    match a
    case Take(_) => TakeKeepsPrompt(s.link, s.starts);
    case Update => QuietUpdate(s);
    case Negedge => QuietFall(s);
    case Posedge => RiseKeepsPrompt(s.link, s.starts);
    case Count => QuietCount(s);
  }

  /** At its turn generate sees the count foretold. */
  lemma TurnSeesNext(s: Source, p: Packet)
    requires SourceInv(s) && Can(s, Generate(p)) && s.link.sender.Idle? && s.begun && !s.order.EitherFirst?
    ensures s.burst.clockCount == NextCount(s)
  {
  }

  lemma RestEager(s: Source, p: Packet, c: int)
    requires SourceInv(s) && Can(s, Generate(p)) && Eager(s, c)
    requires !(s.link.sender.Idle? && s.begun && StartsPacket(s.burst))
    requires Do(s, Generate(p)).resets == s.resets
    ensures Eager(Do(s, Generate(p)), c)
  {
    RestKeepsPrompt(s.link, s.starts);
    if s.link.sender.Idle? && s.begun {
      TurnSeesNext(s, p);
      QuotientBelow(|s.seen|, s.burst.clockCount, s.burst.shortPeriod);
    }
  }

  lemma StartOnPace(s: Source, p: Packet, c: int)
    requires SourceInv(s) && Can(s, Generate(p)) && Eager(s, c)
    requires s.link.sender.Idle? && s.begun && StartsPacket(s.burst)
    ensures s.burst.clockCount == Pace(c, s.burst.shortPeriod, |s.seen|)
  {
    TurnSeesNext(s, p);
    QuotientBelow(|s.seen|, s.burst.clockCount, s.burst.shortPeriod);
    if s.seen != [] {
      CountsSpread(s);
    }
  }

  lemma StartEager(s: Source, p: Packet, c: int)
    requires SourceInv(s) && Can(s, Generate(p)) && Eager(s, c) && c >= 0
    requires s.link.sender.Idle? && s.begun && StartsPacket(s.burst)
    ensures Eager(Do(s, Generate(p)), c)
  {
    StartOnPace(s, p, c);
    TurnSeesNext(s, p);
    PaceStep(c, s.burst.shortPeriod, |s.seen|);
    assert Last(s.starts + [s.link.time]) == s.link.time;
  }

  lemma ActEager(s: Source, a: Act, c: int)
    requires SourceInv(s) && Can(s, a) && Eager(s, c) && c >= 0 && (a.Take? ==> a.space)
    requires Do(s, a).resets == s.resets && !Do(s, a).wrapped
    ensures Eager(Do(s, a), c)
  {
    if !a.Generate? {
      QuietAct(s, a);
      ActSettings(s, a);
    } else if s.link.sender.Idle? && s.begun && StartsPacket(s.burst) {
      StartEager(s, a.packet, c);
    } else {
      RestEager(s, a.packet, c);
    }
  }

  /** What a burst holds if nothing stalls and its first turn sees count c. */
  function Holds(c: nat, shortPeriod: nat, burstLength: nat): nat
    requires shortPeriod >= 1
  {
    Min(CeilDiv(Max(burstLength - c, 0), 3), CeilDiv(burstLength, shortPeriod))
  }

  lemma PaceWithin(c: nat, shortPeriod: nat, burstLength: nat, k: nat)
    requires shortPeriod >= 1
    ensures Pace(c, shortPeriod, k) < burstLength <==> k < Holds(c, shortPeriod, burstLength)
  {
    CeilAbove(k, 3, Max(burstLength - c, 0));
    CeilAbove(k, shortPeriod, burstLength);
  }

  /** Once the next turn would be past the burst, all of it has been started. */
  lemma BurstOver(s: Source, c: nat)
    requires SourceInv(s) && Eager(s, c) && NextCount(s) >= s.burst.burstLength
    ensures s.burst.started == Holds(c, s.burst.shortPeriod, s.burst.burstLength)
  {
    var m := |s.seen|;
    PaceWithin(c, s.burst.shortPeriod, s.burst.burstLength, m);
    if m > 0 {
      PaceWithin(c, s.burst.shortPeriod, s.burst.burstLength, m - 1);
    }
  }

  /** The clock count of the turn that resets, if one does: the first turn from the long period
      on at which no emission is under way. */
  function TurnBound(b: Burst, c: nat): int
    requires b.shortPeriod >= 1
  {
    var m := Holds(c, b.shortPeriod, b.burstLength);
    Max(if m == 0 then c else Pace(c, b.shortPeriod, m - 1) + 3, b.longPeriod)
  }

  /** The counts an emission takes up to its end, at a negedge. */
  function EmissionCounts(order: Order): nat { if order.CounterFirst? then 2 else 3 }

  /** No turn comes later than that, nor before the last emission has ended short of the long
      period; and an emission under way began since the last reset. */
  ghost predicate Within(s: Source, c: nat) {
    && s.burst.shortPeriod >= 1
    && s.burst.burstLength <= s.burst.longPeriod
    && NextCount(s) <= TurnBound(s.burst, c) < Lfsr.WORD
    && (!s.link.sender.Idle? ==> s.seen != [])
    && (s.link.sender.Idle? && s.seen != [] ==> Last(s.seen) + EmissionCounts(s.order) < s.burst.longPeriod)
  }

  lemma CountFits(s: Source, c: int)
    requires SourceInv(s) && Can(s, Count) && Eager(s, c) && NextCount(s) < Lfsr.WORD
    ensures !Do(s, Count).wrapped
  {
    assert s.burst.clockCount + 1 < Lfsr.WORD;
  }

  lemma PaceMonotone(c: int, shortPeriod: nat, k: nat, m: nat)
    requires k <= m
    ensures Pace(c, shortPeriod, k) <= Pace(c, shortPeriod, m)
  {
    Product(k, m, shortPeriod);
  }

  lemma SameBound(s: Source, a: Act, c: nat)
    requires s.burst.shortPeriod >= 1
    ensures Do(s, a).burst.shortPeriod >= 1 && TurnBound(Do(s, a).burst, c) == TurnBound(s.burst, c)
  {
    ActSettings(s, a);
  }

  lemma StartFits(s: Source, p: Packet, c: nat)
    requires SourceInv(s) && Can(s, Generate(p)) && Eager(s, c) && Within(s, c)
    requires s.link.sender.Idle? && s.begun && StartsPacket(s.burst)
    ensures Within(Do(s, Generate(p)), c)
  {
    var b := s.burst;
    SameBound(s, Generate(p), c);
    StartOnPace(s, p, c);
    PaceWithin(c, b.shortPeriod, b.burstLength, |s.seen|);
    PaceMonotone(c, b.shortPeriod, |s.seen|, Holds(c, b.shortPeriod, b.burstLength) - 1);
    StartNext(s, p);
  }

  /** After a start the next turn is three posedges on. */
  lemma StartNext(s: Source, p: Packet)
    requires SourceInv(s) && Can(s, Generate(p)) && !s.order.EitherFirst?
    requires s.link.sender.Idle? && s.begun && StartsPacket(s.burst)
    ensures NextCount(Do(s, Generate(p))) == s.burst.clockCount + 3
    ensures !Do(s, Generate(p)).link.sender.Idle? && Do(s, Generate(p)).seen != []
  {
    assert Last(s.starts + [s.link.time]) == s.link.time;
  }

  lemma RestFits(s: Source, p: Packet, c: nat)
    requires SourceInv(s) && Can(s, Generate(p)) && Eager(s, c) && Within(s, c)
    requires !(s.link.sender.Idle? && s.begun && StartsPacket(s.burst))
    requires Do(s, Generate(p)).resets == s.resets
    ensures Within(Do(s, Generate(p)), c)
  {
    SameBound(s, Generate(p), c);
    if s.link.sender.Idle? && s.begun {
      TurnSeesNext(s, p);
    }
  }

  /** An emission ends as many counts after its start as it takes. */
  lemma EmissionEnds(s: Source)
    requires SourceInv(s) && Can(s, Negedge) && Prompt(s.link, s.stage, s.starts) && !s.order.EitherFirst?
    requires !s.wrapped && s.seen != [] && !s.link.sender.Idle? && FallingEdge(s.link).sender.Idle?
    ensures s.burst.clockCount == Last(s.seen) + EmissionCounts(s.order)
  {
    FallKeepsPrompt(s.link, s.starts);
  }

  lemma FallFits(s: Source, c: nat)
    requires SourceInv(s) && Can(s, Negedge) && Eager(s, c) && Within(s, c)
    requires Do(s, Negedge).resets == s.resets
    ensures Within(Do(s, Negedge), c)
  {
    SameBound(s, Negedge, c);
    QuietFall(s);
    if !s.link.sender.Idle? && FallingEdge(s.link).sender.Idle? {
      EmissionEnds(s);
    }
  }

  lemma OtherFits(s: Source, a: Act, c: nat)
    requires SourceInv(s) && Can(s, a) && Eager(s, c) && Within(s, c) && (a.Take? ==> a.space)
    requires !a.Generate? && !a.Negedge?
    ensures !Do(s, a).wrapped && Within(Do(s, a), c)
  {
    SameBound(s, a, c);
    if a.Count? {
      CountFits(s, c);
    } else if a.Update? {
      UpdateKeepsTimed(s.link, s.starts);
    }
    QuietAct(s, a);
  }

  lemma ActFits(s: Source, a: Act, c: nat)
    requires SourceInv(s) && Can(s, a) && Eager(s, c) && Within(s, c) && (a.Take? ==> a.space)
    requires Do(s, a).resets == s.resets
    ensures !Do(s, a).wrapped && Within(Do(s, a), c)
  {
    if a.Negedge? {
      FallFits(s, c);
    } else if !a.Generate? {
      OtherFits(s, a, c);
    } else if s.link.sender.Idle? && s.begun && StartsPacket(s.burst) {
      StartFits(s, a.packet, c);
    } else {
      RestFits(s, a.packet, c);
    }
  }

  lemma SameOffset(s: Source, a: Act)
    requires SourceInv(s) && Can(s, a) && Do(s, a).resets == s.resets && !Do(s, a).wrapped
    ensures Offset(Do(s, a)) == Offset(s)
  {
  }

  lemma {:induction false} RunEager(s: Source, acts: seq<Act>, c: nat)
    requires SourceInv(s) && Runs(s, acts) && Eager(s, c) && Open(acts) && Within(s, c)
    requires After(s, acts).resets == s.resets
    ensures SourceInv(After(s, acts)) && Eager(After(s, acts), c)
    ensures Within(After(s, acts), c) && Offset(After(s, acts)) == Offset(s)
    decreases |acts|
  {
    if acts != [] {
      var d := Do(s, acts[0]);
      ActSettings(s, acts[0]);
      RunSettings(d, acts[1..]);
      ActKeeps(s, acts[0]);
      ActFits(s, acts[0], c);
      SameOffset(s, acts[0]);
      ActEager(s, acts[0], c);
      RunEager(d, acts[1..], c);
    }
  }

  /** A turn that resets is the foretold one. */
  lemma TurnResets(s: Source, p: Packet, c: nat)
    requires SourceInv(s) && Can(s, Generate(p)) && Eager(s, c) && Within(s, c)
    requires Do(s, Generate(p)).resets > s.resets
    ensures NextCount(s) == TurnBound(s.burst, c) && s.link.time == NextTurn(s)
    ensures |s.seen| == Holds(c, s.burst.shortPeriod, s.burst.burstLength)
    ensures s.link.sender.Idle? && NextCount(s) >= s.burst.longPeriod
  {
    TurnSeesNext(s, p);
    BurstOver(s, c);
    if s.seen != [] {
      CountsSpread(s);
    }
  }

  /** And an emission end that resets is the last one's. */
  lemma EndResets(s: Source, c: nat)
    requires SourceInv(s) && Can(s, Negedge) && Eager(s, c) && Within(s, c)
    requires Do(s, Negedge).resets > s.resets
    ensures s.seen != [] && |s.seen| == Holds(c, s.burst.shortPeriod, s.burst.burstLength)
    ensures Last(s.seen) + EmissionCounts(s.order) >= s.burst.longPeriod
    ensures s.link.time == Last(s.starts) + 2
  {
    EmissionEnds(s);
    FallKeepsPrompt(s.link, s.starts);
    assert NextCount(s) == Last(s.seen) + 3;
    BurstOver(s, c);
  }

  /** Between two resets, the threads in a fixed order, the burst no longer than its period and
      the period out of reach of the 32-bit wrap-around. */
  ghost predicate BurstAhead(s: Source) {
    && SourceInv(s) && !s.order.EitherFirst? && s.link.sender.Idle? && s.seen == [] && !s.wrapped
    && s.burst.burstLength <= s.burst.longPeriod
    && 0 <= NextCount(s) && NextCount(s) < Lfsr.WORD && s.burst.longPeriod + 2 < Lfsr.WORD
  }

  lemma BoundFits(b: Burst, c: nat)
    requires b.shortPeriod >= 1 && b.burstLength <= b.longPeriod
    ensures Max(c, b.longPeriod) <= TurnBound(b, c) <= Max(c, b.longPeriod + 2)
  {
    var m := Holds(c, b.shortPeriod, b.burstLength);
    if m > 0 {
      PaceWithin(c, b.shortPeriod, b.burstLength, m - 1);
    }
  }

  lemma BurstRun(s: Source, acts: seq<Act>)
    requires BurstAhead(s) && Runs(s, acts) && Open(acts) && After(s, acts).resets == s.resets
    ensures var d := After(s, acts);
            SourceInv(d) && Eager(d, NextCount(s)) && Within(d, NextCount(s)) && Offset(d) == Offset(s) && SameSettings(s, d)
  {
    assert Pace(NextCount(s), s.burst.shortPeriod, 0) == NextCount(s);
    BoundFits(s.burst, NextCount(s));
    RunSettings(s, acts);
    RunEager(s, acts, NextCount(s));
  }

  /** The burst ends with a reset at the end of its last emission. */
  ghost predicate ResetsAtEnd(s: Source)
    requires s.burst.shortPeriod >= 1 && NextCount(s) >= 0
  {
    var m := Holds(NextCount(s), s.burst.shortPeriod, s.burst.burstLength);
    m > 0 && Pace(NextCount(s), s.burst.shortPeriod, m - 1) + EmissionCounts(s.order) >= s.burst.longPeriod
  }

  /** The posedge at which it resets: its turn there, or the negedge that follows it. */
  function ResetAt(s: Source): int
    requires s.burst.shortPeriod >= 1 && NextCount(s) >= 0
  {
    var c, m := NextCount(s), Holds(NextCount(s), s.burst.shortPeriod, s.burst.burstLength);
    NextTurn(s) - c +
    if m == 0 then Max(c, s.burst.longPeriod)
    else
      var last := Max(c + 3 * (m - 1), (m - 1) * s.burst.shortPeriod);
      if last + EmissionCounts(s.order) >= s.burst.longPeriod then last + 2 else Max(last + 3, s.burst.longPeriod)
  }

  /** Unobstructed, the packets between two resets are exactly as many as fit: one per short
      period, but at most one every three counts from the first turn's count on. They start at
      exactly those counts. */
  lemma UnobstructedBurst(s: Source, acts: seq<Act>, reset: Act)
    requires BurstAhead(s) && Runs(s, acts) && Open(acts) && After(s, acts).resets == s.resets
    requires Can(After(s, acts), reset) && After(s, acts).burst.shortPeriod >= 1
    requires Do(After(s, acts), reset).resets > s.resets
    ensures
      var d := After(s, acts);
      && d.burst.started == |d.seen| == Holds(NextCount(s), s.burst.shortPeriod, s.burst.burstLength)
      && (forall k :: 0 <= k < |d.seen| ==> d.seen[k] == Max(NextCount(s) + 3 * k, k * s.burst.shortPeriod))
      && (forall k: nat :: k < d.burst.started <==>
            NextCount(s) + 3 * k < s.burst.burstLength && k * s.burst.shortPeriod < s.burst.burstLength)
  {
    forall k: nat
      ensures k < Holds(NextCount(s), s.burst.shortPeriod, s.burst.burstLength) <==>
              NextCount(s) + 3 * k < s.burst.burstLength && k * s.burst.shortPeriod < s.burst.burstLength
    {
      PaceWithin(NextCount(s), s.burst.shortPeriod, s.burst.burstLength, k);
    }
    BurstRun(s, acts);
    if reset.Generate? {
      TurnResets(After(s, acts), reset.packet, NextCount(s));
    } else {
      EndResets(After(s, acts), NextCount(s));
    }
  }

  /** In a state without a reset the foretold turn, or the end of the last emission, is still
      ahead or now. */
  lemma NotPastReset(s: Source, c: nat)
    requires SourceInv(s) && Eager(s, c) && Within(s, c)
    ensures
      var m := Holds(c, s.burst.shortPeriod, s.burst.burstLength);
      var left := TurnBound(s.burst, c) - NextCount(s);
      s.link.time <= NextTurn(s) + left -
        if m > 0 && Pace(c, s.burst.shortPeriod, m - 1) + EmissionCounts(s.order) >= s.burst.longPeriod then 1 else 0
  {
    BoundFits(s.burst, c);
    if s.link.sender.Idle? && NextCount(s) >= s.burst.burstLength {
      BurstOver(s, c);
    }
  }

  /** What is known of a state of the burst that begins in s. */
  ghost predicate InBurstOf(s: Source, d: Source) {
    && BurstAhead(s) && SourceInv(d) && Eager(d, NextCount(s)) && Within(d, NextCount(s))
    && Offset(d) == Offset(s) && SameSettings(s, d)
  }

  lemma ResetAtTurn(s: Source)
    requires BurstAhead(s)
    ensures
      ResetAt(s) == NextTurn(s) - NextCount(s) + TurnBound(s.burst, NextCount(s)) - if ResetsAtEnd(s) then 1 else 0
  {
    BoundFits(s.burst, NextCount(s));
  }

  lemma TurnTime(s: Source, d: Source, p: Packet)
    requires InBurstOf(s, d) && Can(d, Generate(p)) && Do(d, Generate(p)).resets > d.resets
    ensures d.link.time == ResetAt(s) && !ResetsAtEnd(s)
  {
    TurnResets(d, p, NextCount(s));
    ResetAtTurn(s);
  }

  lemma EndTime(s: Source, d: Source)
    requires InBurstOf(s, d) && Can(d, Negedge) && Do(d, Negedge).resets > d.resets
    ensures d.link.time == ResetAt(s) && ResetsAtEnd(s)
  {
    EndResets(d, NextCount(s));
    EndOnPace(d, NextCount(s));
    ResetAtTurn(s);
    BoundFits(s.burst, NextCount(s));
  }

  /** At the end of an emission the next turn's count is three past its start. */
  lemma EndOnPace(d: Source, c: nat)
    requires SourceInv(d) && Eager(d, c) && Can(d, Negedge) && d.seen != [] && d.link.time == Last(d.starts) + 2
    ensures Last(d.seen) == Pace(c, d.burst.shortPeriod, |d.seen| - 1)
    ensures d.link.time == Last(d.seen) + 2 - Offset(d) + if d.order.CounterFirst? then 0 else 1
  {
  }

  /** The reset comes at exactly the foretold posedge: at generate's turn, or at the negedge that
      ends the last emission if the count has reached the long period by then. */
  lemma ResetExactly(s: Source, acts: seq<Act>, reset: Act)
    requires BurstAhead(s) && Runs(s, acts) && Open(acts) && After(s, acts).resets == s.resets
    requires Can(After(s, acts), reset) && After(s, acts).burst.shortPeriod >= 1
    requires Do(After(s, acts), reset).resets > s.resets
    ensures After(s, acts).link.time == ResetAt(s)
    ensures if ResetsAtEnd(s) then reset == Negedge else reset.Generate?
  {
    BurstRun(s, acts);
    if reset.Generate? {
      TurnTime(s, After(s, acts), reset.packet);
    } else {
      EndTime(s, After(s, acts));
    }
  }

  lemma NotPast(s: Source, d: Source)
    requires InBurstOf(s, d)
    ensures d.link.time <= ResetAt(s)
  {
    NotPastReset(d, NextCount(s));
    ResetAtTurn(s);
  }

  /** And it does come: past that posedge it has. */
  lemma ResetComes(s: Source, acts: seq<Act>)
    requires BurstAhead(s) && Runs(s, acts) && Open(acts) && After(s, acts).link.time > ResetAt(s)
    ensures After(s, acts).resets > s.resets
  {
    RunSettings(s, acts);
    if After(s, acts).resets == s.resets {
      BurstRun(s, acts);
      NotPast(s, After(s, acts));
    }
  }

  /** The count that the first turn sees: two or one (and the offset) after construction, as the
      generator's first activation only reaches its wait; after a reset one, or none if it came
      with the end of an emission and the generator runs first. */
  lemma FirstCount(order: Order, offset: nat, longPeriod: nat, shortPeriod: nat, burstLength: nat)
    ensures NextCount(StartSource(order, offset, longPeriod, shortPeriod, burstLength)) ==
            offset % Lfsr.WORD + if order.CounterFirst? then 2 else 1
  {
  }

  lemma CountAfterReset(s: Source, a: Act)
    requires SourceInv(s) && !s.order.EitherFirst? && Can(s, a) && Do(s, a).resets > s.resets
    ensures
      var d := Do(s, a);
      && d.link.sender.Idle? && d.seen == [] && !d.wrapped
      && NextCount(d) == if a.Generate? || s.order.CounterFirst? then 1 else 0
  {
  }

  /** When the ceiling of `BurstBound` is met: exactly if three counts a packet suffice for it. */
  lemma BoundMetExactly(c: nat, shortPeriod: nat, burstLength: nat)
    requires shortPeriod >= 1
    ensures Holds(c, shortPeriod, burstLength) == CeilDiv(burstLength, shortPeriod) <==>
            burstLength == 0 || c + 3 * (CeilDiv(burstLength, shortPeriod) - 1) < burstLength
  {
    var n := CeilDiv(burstLength, shortPeriod);
    if n > 0 {
      CeilAbove(n - 1, 3, Max(burstLength - c, 0));
    }
    CeilAbove(0, shortPeriod, burstLength);
  }

  /** From a first count of 0 it is met for every length if and only if the short period is at
      least the three posedges of a handshake. */
  lemma BoundMetFromThree(shortPeriod: nat)
    requires shortPeriod >= 1
    ensures (forall b: nat :: Holds(0, shortPeriod, b) == CeilDiv(b, shortPeriod)) <==> shortPeriod >= 3
  {
    if shortPeriod >= 3 {
      forall b: nat ensures Holds(0, shortPeriod, b) == CeilDiv(b, shortPeriod) {
        SlowEnough(shortPeriod, b);
      }
    } else {
      TooFast(shortPeriod);
    }
  }

  lemma SlowEnough(shortPeriod: nat, b: nat)
    requires shortPeriod >= 3
    ensures Holds(0, shortPeriod, b) == CeilDiv(b, shortPeriod)
  {
    var n := CeilDiv(b, shortPeriod);
    if n > 0 {
      CeilAbove(n - 1, shortPeriod, b);
      Product(3, shortPeriod, n - 1);
      CeilAbove(n - 1, 3, b);
    }
  }

  lemma TooFast(shortPeriod: nat)
    requires 1 <= shortPeriod < 3
    ensures Holds(0, shortPeriod, 3) != CeilDiv(3, shortPeriod)
  {
    CeilAbove(1, 3, 3);
    CeilAbove(1, shortPeriod, 3);
  }
}
