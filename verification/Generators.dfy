/** The traffic generators' own state: the burst generator's counters and the choice of
    addresses. What happens on the wires is in `Handshake`. */
module Generators {
  import opened Division
  import Lfsr

  // ---------------------------------------------------------------------------
  // Bursts
  // ---------------------------------------------------------------------------

  /** The counters of a burst generator. `started` is history: the packets started since the
      last reset. */
  datatype Burst = Burst(
    clockCount: nat, packetCount: nat, emitting: bool,
    longPeriod: nat, shortPeriod: nat, burstLength: nat, started: nat)

  /** The steps of the two threads and of set_offset. While a packet is being emitted, for as
      long as its handshake stalls, `generate` is suspended and the clock counter is not. */
  datatype Step = Tick | SetOffset(count: nat) | Turn | Finish

  function Resets(b: Burst): Burst {
    if b.clockCount >= b.longPeriod then b.(clockCount := 0, packetCount := 0, started := 0) else b
  }

  function StartsPacket(b: Burst): bool
    requires b.shortPeriod >= 1
  {
    b.clockCount < b.burstLength && b.clockCount / b.shortPeriod >= b.packetCount
  }

  function Advance(b: Burst, s: Step): Burst
    requires b.shortPeriod >= 1
  {
    match s
    case Tick => b.(clockCount := (b.clockCount + 1) % Lfsr.WORD)
    case SetOffset(c) => b.(clockCount := c % Lfsr.WORD)
    case Turn =>
      if b.emitting then b
      else if StartsPacket(b) then
        b.(packetCount := b.packetCount + 1, emitting := true, started := b.started + 1)
      else Resets(b)
    case Finish => if b.emitting then Resets(b.(emitting := false)) else b
  }

  /** During an emission generate's thread takes no turn, and without one none ends: such a step
      changes nothing. Otherwise the end of the loop body leaves both counters 0 if the count has
      reached the long period, and leaves them alone if not. */
  lemma LoopEndExactly(b: Burst, s: Step)
    requires b.shortPeriod >= 1 && (s == Turn || s == Finish)
    ensures
      var d := Advance(b, s);
      var starts := s == Turn && !b.emitting && b.clockCount < b.burstLength && b.clockCount / b.shortPeriod >= b.packetCount;
      && (b.emitting == (s == Turn) ==> d == b)
      && (b.emitting != (s == Turn) && !starts ==>
            && !d.emitting
            && if b.clockCount >= b.longPeriod then d.clockCount == 0 && d.packetCount == 0
               else d.clockCount == b.clockCount && d.packetCount == b.packetCount)
      && (starts ==> d.emitting && d.clockCount == b.clockCount && d.packetCount == b.packetCount + 1)
  {
  }

  function AdvanceAll(b: Burst, ss: seq<Step>): Burst
    requires b.shortPeriod >= 1
    decreases |ss|
  {
    if ss == [] then b else AdvanceAll(Advance(b, ss[0]), ss[1..])
  }

  function CeilDiv(a: nat, k: nat): nat
    requires k >= 1
  {
    (a + k - 1) / k
  }

  lemma CeilDivStep(c: nat, k: nat)
    requires k >= 1
    ensures c / k + 1 == CeilDiv(c + 1, k)
    ensures c / k >= CeilDiv(c, k) <==> c % k == 0
    ensures CeilDiv(c + 1, k) == CeilDiv(c, k) + if c % k == 0 then 1 else 0
  {
    var q, r := c / k, c % k;
    assert c == k * q + r;
    assert (q + 1) * k == q * k + k;
    QuotientOf(c + 1 + k - 1, k, q + 1, r);
    if r == 0 {
      QuotientOf(c + k - 1, k, q, k - 1);
    } else {
      QuotientOf(c + k - 1, k, q + 1, r - 1);
    }
  }

  lemma DivMonotone(a: nat, b: nat, k: nat)
    requires a <= b && k >= 1
    ensures a / k <= b / k
  {
    var q, q' := a / k, b / k;
    assert a == k * q + a % k && b == k * q' + b % k;
    assert (q - q') * k == k * q - k * q';
    if q > q' {
      Grows(q - q', k);
    }
  }

  ghost predicate WithinBurst(b: Burst) {
    && b.shortPeriod >= 1
    && b.started == b.packetCount <= CeilDiv(b.burstLength, b.shortPeriod)
  }

  lemma AdvanceKeepsBurst(b: Burst, s: Step)
    requires WithinBurst(b)
    ensures WithinBurst(Advance(b, s))
  {
    if s == Turn && !b.emitting && StartsPacket(b) {
      CeilDivStep(b.clockCount, b.shortPeriod);
      DivMonotone(b.clockCount + 1 + b.shortPeriod - 1, b.burstLength + b.shortPeriod - 1, b.shortPeriod);
    }
  }

  /** Between two resets a burst generator starts at most ceil(burst_length / short_period)
      packets, however long each handshake stalls and however the clock counter moves or is
      set meanwhile, its 32-bit wrap-around included. */
  lemma {:induction false} BurstBound(b: Burst, ss: seq<Step>)
    requires WithinBurst(b)
    ensures WithinBurst(AdvanceAll(b, ss))
    decreases |ss|
  {
    if ss != [] {
      AdvanceKeepsBurst(b, ss[0]);
      BurstBound(Advance(b, ss[0]), ss[1..]);
    }
  }

  /** The generator object. Its two threads and set_offset update the counters in place. */
  class BurstGenerator {
    var clockCount: nat
    var currentPacketCount: nat
    var longPeriod: nat
    var shortPeriod: nat
    var burstLength: nat
    ghost var emitting: bool
    ghost var started: nat

    ghost function State(): Burst
      reads this
    {
      Burst(clockCount, currentPacketCount, emitting, longPeriod, shortPeriod, burstLength, started)
    }

    constructor ()
      ensures WithinBurst(State()) && State() == Burst(0, 0, false, 1, 1, 1, 0)
    {
      clockCount, currentPacketCount := 0, 0;
      longPeriod, shortPeriod, burstLength := 1, 1, 1;
      emitting, started := false, 0;
    }

    /** set_burst. */
    method SetBurst(longPeriod: nat, shortPeriod: nat, burstLength: nat)
      requires shortPeriod >= 1
      modifies this
      ensures old(currentPacketCount) == old(started) == 0 ==> WithinBurst(State())
      ensures State() == old(State()).(longPeriod := longPeriod, shortPeriod := shortPeriod, burstLength := burstLength)
    {
      this.longPeriod, this.shortPeriod, this.burstLength := longPeriod, shortPeriod, burstLength;
    }

    /** One pass of clock_counter. */
    method ClockCounter()
      requires WithinBurst(State())
      modifies this
      ensures State() == Advance(old(State()), Tick) && WithinBurst(State())
      ensures old(clockCount) < Lfsr.WORD ==>
                clockCount == if old(clockCount) == 0xFFFF_FFFF then 0 else old(clockCount) + 1
    {
      clockCount := (clockCount + 1) % Lfsr.WORD;
    }

    method SetOffset(offset: nat)
      requires WithinBurst(State())
      modifies this
      ensures State() == Advance(old(State()), Step.SetOffset(offset)) && WithinBurst(State())
      ensures State() == old(State()).(clockCount := offset % Lfsr.WORD)
    {
      clockCount := offset % Lfsr.WORD;
    }

    /** `generate` from its wait up to the emission, or to the next wait if none starts. */
    method Generate() returns (emits: bool)
      requires WithinBurst(State()) && !emitting
      modifies this
      ensures State() == Advance(old(State()), Turn) && WithinBurst(State())
      ensures emits <==> old(clockCount) < burstLength && old(clockCount) / shortPeriod >= old(currentPacketCount)
      ensures emits ==> clockCount == old(clockCount) && currentPacketCount == old(currentPacketCount) + 1
      ensures !emits ==>
                if old(clockCount) >= longPeriod then clockCount == 0 && currentPacketCount == 0
                else clockCount == old(clockCount) && currentPacketCount == old(currentPacketCount)
    {
      AdvanceKeepsBurst(State(), Turn);
      emits := clockCount < burstLength && clockCount / shortPeriod >= currentPacketCount;
      if emits {
        currentPacketCount := currentPacketCount + 1;
        emitting, started := true, started + 1;
      } else {
        ResetIfOver();
      }
    }

    /** `generate` from the end of an emission to its next wait. */
    method Emitted()
      requires WithinBurst(State()) && emitting
      modifies this
      ensures State() == Advance(old(State()), Finish) && WithinBurst(State())
      ensures if old(clockCount) >= longPeriod then clockCount == 0 && currentPacketCount == 0
              else clockCount == old(clockCount) && currentPacketCount == old(currentPacketCount)
    {
      AdvanceKeepsBurst(State(), Finish);
      emitting := false;
      ResetIfOver();
    }

    method ResetIfOver()
      modifies this
      ensures State() == Resets(old(State()))
      ensures if old(clockCount) >= longPeriod then clockCount == 0 && currentPacketCount == 0
              else clockCount == old(clockCount) && currentPacketCount == old(currentPacketCount)
    {
      if clockCount >= longPeriod {
        clockCount := 0;
        currentPacketCount := 0;
        started := 0;
      }
    }
  }

  // ---------------------------------------------------------------------------
  // Addresses
  // ---------------------------------------------------------------------------

  /** The address state; `life` is a uint8_t. */
  datatype Addressing = Addressing(min: nat, max: nat, maxLife: nat, current: nat, life: nat) {
    ghost predicate Valid() {
      min < max <= 255 && 1 <= maxLife && min <= current < max && life < 256
    }
  }

  /** Two draws of rand(). */
  datatype Draw = Draw(address: nat, life: nat)

  /** choose_new_random_address. */
  function Redraw(a: Addressing, d: Draw): Addressing
    requires a.min < a.max && 1 <= a.maxLife
  {
    a.(current := d.address % (a.max - a.min) + a.min, life := d.life % a.maxLife % 256)
  }

  /** get_address: the address used, and the state for the next packet. */
  function NextAddress(a: Addressing, d: Draw): (nat, Addressing)
    requires a.min < a.max && 1 <= a.maxLife
  {
    var life := (a.life - 1) % 256;
    (a.current, if life == 0 then Redraw(a.(life := life), d) else a.(life := life))
  }

  /** The generator's address fields, updated in place. */
  class AddressSource {
    var addressMin: nat
    var addressMax: nat
    var addressMaxLifeTime: nat
    var currentAddress: nat
    var currentAddressLifeTime: nat

    ghost function State(): Addressing
      reads this
    {
      Addressing(addressMin, addressMax, addressMaxLifeTime, currentAddress, currentAddressLifeTime)
    }

    /** set_address_properties, on a new generator. */
    constructor (min: nat, max: nat, maxLifeTime: nat, d: Draw)
      requires min < max <= 255 && 1 <= maxLifeTime
      ensures State().Valid() && addressMin == min && addressMax == max && addressMaxLifeTime == maxLifeTime
      ensures currentAddress == d.address % (max - min) + min
      ensures currentAddressLifeTime == d.life % maxLifeTime % 256
    {
      addressMin, addressMax, addressMaxLifeTime := min, max, maxLifeTime;
      currentAddress := d.address % (max - min) + min;
      currentAddressLifeTime := d.life % maxLifeTime % 256;
    }

    method GetAddress(d: Draw) returns (address: nat)
      requires State().Valid()
      modifies this
      ensures State().Valid() && (address, State()) == NextAddress(old(State()), d)
      ensures address == old(currentAddress)
      ensures if old(currentAddressLifeTime) == 1
              then currentAddress == d.address % (addressMax - addressMin) + addressMin
                   && currentAddressLifeTime == d.life % addressMaxLifeTime % 256
              else currentAddress == old(currentAddress)
                   && currentAddressLifeTime == if old(currentAddressLifeTime) == 0 then 255 else old(currentAddressLifeTime) - 1
    {
      currentAddressLifeTime := (currentAddressLifeTime - 1) % 256;
      address := currentAddress;
      if currentAddressLifeTime == 0 {
        ChooseNewRandomAddress(d);
      }
    }

    method ChooseNewRandomAddress(d: Draw)
      requires addressMin < addressMax && 1 <= addressMaxLifeTime
      modifies this`currentAddress, this`currentAddressLifeTime
      ensures State() == Redraw(old(State()), d)
    {
      currentAddress := d.address % (addressMax - addressMin) + addressMin;
      currentAddressLifeTime := d.life % addressMaxLifeTime % 256;
    }
  }

  /** The addresses of successive packets, under any draws. */
  function Addresses(a: Addressing, ds: seq<Draw>): seq<nat>
    requires a.min < a.max && 1 <= a.maxLife
    decreases |ds|
  {
    if ds == [] then [] else
      var (used, a') := NextAddress(a, ds[0]);
      [used] + Addresses(a', ds[1..])
  }

  /** Every packet is addressed within the configured range, which is what the routers index
      their FIFOs with. */
  lemma {:induction false} AddressesInRange(a: Addressing, ds: seq<Draw>)
    requires a.Valid()
    ensures forall i :: 0 <= i < |Addresses(a, ds)| ==> a.min <= Addresses(a, ds)[i] < a.max
    decreases |ds|
  {
    if ds != [] {
      AddressesInRange(NextAddress(a, ds[0]).1, ds[1..]);
    }
  }

  /** How many packets use an address whose life is L: the uint8_t wraps a 0 to 256. */
  function Uses(life: nat): nat { if life == 0 then 256 else life }

  /** An address drawn with life L is used by exactly Uses(L) packets; the next one is drawn
      afresh. */
  lemma {:induction false} AddressLife(a: Addressing, ds: seq<Draw>)
    requires a.Valid() && |ds| > Uses(a.life)
    ensures |Addresses(a, ds)| == |ds|
    ensures forall i :: 0 <= i < Uses(a.life) ==> Addresses(a, ds)[i] == a.current
    ensures Addresses(a, ds)[Uses(a.life)] == ds[Uses(a.life) - 1].address % (a.max - a.min) + a.min
    decreases |ds|
  {
    var a' := NextAddress(a, ds[0]).1;
    AddressesCount(a', ds[1..]);
    assert Addresses(a, ds) == [a.current] + Addresses(a', ds[1..]);
    UseOne(a, ds[0]);
    if a.life != 1 {
      AddressLife(a', ds[1..]);
      forall i | 0 < i < Uses(a.life) ensures Addresses(a, ds)[i] == a.current {
        assert Addresses(a, ds)[i] == Addresses(a', ds[1..])[i - 1];
      }
    }
  }

  /** One use of an address: the last one draws the next. */
  lemma UseOne(a: Addressing, d: Draw)
    requires a.Valid()
    ensures
      var a' := NextAddress(a, d).1;
      && a'.Valid() && a'.min == a.min && a'.max == a.max && a'.maxLife == a.maxLife
      && if a.life == 1
         then a'.current == d.address % (a.max - a.min) + a.min && a'.life == d.life % a.maxLife % 256
         else a'.current == a.current && Uses(a'.life) == Uses(a.life) - 1
  {
  }

  /** Two lives in a row. After its draw (x, y) the second address is x brought into the range,
      and it serves exactly y mod max_life packets, as a byte that counts 0 as 256, before the
      next draw is used. */
  lemma DrawnLife(a: Addressing, ds: seq<Draw>)
    requires a.Valid() && |ds| > Uses(a.life)
    ensures
      var u, x, y := Uses(a.life), ds[Uses(a.life) - 1].address, ds[Uses(a.life) - 1].life;
      var v := if y % a.maxLife % 256 == 0 then 256 else y % a.maxLife % 256;
      && |Addresses(a, ds)| == |ds|
      && (forall i :: u <= i < u + v && i < |ds| ==> Addresses(a, ds)[i] == x % (a.max - a.min) + a.min)
      && (u + v < |ds| ==>
            Addresses(a, ds)[u + v] == ds[u + v - 1].address % (a.max - a.min) + a.min)
  {
    var u := Uses(a.life);
    LifeOver(a, ds);
    var b, rest := StateAfter(a, ds[..u]), ds[u..];
    AddressesCount(b, rest);
    LifeLasts(b, rest);
    if |rest| > Uses(b.life) {
      AddressLife(b, rest);
    }
  }

  /** The state after as many packets as there are draws. */
  function StateAfter(a: Addressing, ds: seq<Draw>): Addressing
    requires a.min < a.max && 1 <= a.maxLife
    decreases |ds|
  {
    if ds == [] then a else StateAfter(NextAddress(a, ds[0]).1, ds[1..])
  }

  /** While its life lasts an address is used. */
  lemma {:induction false} LifeLasts(a: Addressing, ds: seq<Draw>)
    requires a.Valid()
    ensures |Addresses(a, ds)| == |ds|
    ensures forall i :: 0 <= i < Uses(a.life) && i < |ds| ==> Addresses(a, ds)[i] == a.current
    decreases |ds|
  {
    if ds != [] {
      var a' := NextAddress(a, ds[0]).1;
      UseOne(a, ds[0]);
      LifeLasts(a', ds[1..]);
      assert Addresses(a, ds) == [a.current] + Addresses(a', ds[1..]);
    }
  }

  /** What a life leaves: a drawn address with a drawn life, and the other packets to come. */
  lemma {:induction false} LifeOver(a: Addressing, ds: seq<Draw>)
    requires a.Valid() && |ds| > Uses(a.life)
    ensures
      var u := Uses(a.life);
      var b := StateAfter(a, ds[..u]);
      && b.Valid() && b.min == a.min && b.max == a.max && b.maxLife == a.maxLife
      && b.current == ds[u - 1].address % (a.max - a.min) + a.min
      && b.life == ds[u - 1].life % a.maxLife % 256
      && |Addresses(a, ds)| == |ds|
      && Addresses(a, ds)[u..] == Addresses(b, ds[u..])
    decreases |ds|
  {
    var a', u := NextAddress(a, ds[0]).1, Uses(a.life);
    UseOne(a, ds[0]);
    AddressesCount(a, ds);
    AddressesCount(a', ds[1..]);
    assert Addresses(a, ds) == [a.current] + Addresses(a', ds[1..]);
    assert ds[..u][1..] == ds[1..][..u - 1] && ds[u..] == ds[1..][u - 1..];
    if a.life == 1 {
      assert ds[1..][..0] == [] && ds[1..][0..] == ds[1..];
    } else {
      LifeOver(a', ds[1..]);
    }
  }

  lemma {:induction false} AddressesCount(a: Addressing, ds: seq<Draw>)
    requires a.Valid()
    ensures |Addresses(a, ds)| == |ds| && (ds != [] ==> Addresses(a, ds)[0] == a.current)
    decreases |ds|
  {
    if ds != [] {
      AddressesCount(NextAddress(a, ds[0]).1, ds[1..]);
    }
  }
}
