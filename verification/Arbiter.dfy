/** The arbiter as the program writes it: a module whose threads update its registers in
    place. Every turn of a thread refines the matching step of `Columns`. */
module ArbiterModule {
  import opened Sequences
  import opened DeltaFifo
  import opened Arbitration
  import opened Columns
  import Lfsr

  /** What one pass of pushed_in_fifo comes to. */
  datatype LogResult = Logged | OutOfRange | AssertionFailed

  /** The left shift that update_lru and update_fifo share: everything behind the first x
      among the first m entries moves up by one. */
  method ShiftOut(a: array<int>, m: nat, x: int)
    requires m <= a.Length
    modifies a
    ensures a[m..] == old(a[m..])
    ensures x !in old(a[..m]) ==> a[..] == old(a[..])
    ensures x in old(a[..m]) ==> a[..m - 1] == RemoveFirst(old(a[..m]), x)
  {
    ghost var was := a[..m];
    ghost var k := 0;
    var found := false;
    var i := 0;
    while i < m
      invariant 0 <= i <= m
      invariant a[m..] == old(a[m..])
      invariant !found ==> x !in was[..i]
      invariant found ==> 0 <= k < i && was[k] == x && x !in was[..k]
      invariant forall j :: 0 <= j < m && !(found && k <= j < i - 1) ==> a[j] == was[j]
      invariant found ==> forall j :: k <= j < i - 1 ==> a[j] == was[j + 1]
    {
      if found {
        a[i - 1] := a[i];
      } else if a[i] == x {
        found, k := true, i;
      }
      i := i + 1;
    }
    if found {
      ShiftedLeft(was, x, k, a[..m - 1]);
    } else {
      assert was[..m] == was;
      assert a[..] == was + a[m..];
    }
  }

  /** The arithmetic of update_rand, each sum and shift wrapping at 32 bits. */
  method NextRegister(lfsr: int) returns (r: int)
    requires -Lfsr.HALF <= lfsr < Lfsr.HALF
    ensures r == Lfsr.Next(lfsr)
  {
    Lfsr.NextWraps(lfsr);
    var retro := Lfsr.Odd(Lfsr.Wrap(Lfsr.Wrap(lfsr / 2 + lfsr / 64) + lfsr / 65536));
    r := Lfsr.Wrap(Lfsr.Wrap(2 * lfsr) + retro);
  }

  class Arbiter {
    const fifos: seq<ScFifo<Packet>>
    const depth: nat
    var lfsr: int
    const lruIndex: array<int>
    const pushsInFifos: array<int>
    var inFifos: nat
    var lastUsed: int
    var thread: Thread
    var output: Packet
    var choiceOut: int

    ghost predicate Valid()
      reads this, lruIndex, pushsInFifos
    {
      && lruIndex != pushsInFifos
      && inFifos <= pushsInFifos.Length == 2 * (|fifos| * depth)
      && -Lfsr.HALF <= lfsr < Lfsr.HALF
      && State().Valid(|fifos|)
    }

    ghost function State(): Arb
      reads this, lruIndex, pushsInFifos
      requires inFifos <= pushsInFifos.Length
    {
      Arb(lfsr, lruIndex[..], pushsInFifos[..inFifos], lastUsed)
    }

    /** The channels bound to the ports: valid, and sharing nothing with the registers ... */
    ghost predicate Ports()
      reads fifos, set i | 0 <= i < |fifos| :: fifos[i].buf
    {
      forall i :: 0 <= i < |fifos| ==>
        fifos[i].Valid() && fifos[i].size == depth && fifos[i].buf != lruIndex as object
        && fifos[i].buf != pushsInFifos as object
    }

    /** ... nor with each other. */
    ghost predicate Bound()
      reads fifos, set i | 0 <= i < |fifos| :: fifos[i].buf
    {
      && Ports()
      && (forall i, j :: 0 <= i < j < |fifos| ==> fifos[i] != fifos[j] && fifos[i].buf != fifos[j].buf)
    }

    ghost function Avail(): (r: seq<int>)
      reads fifos, set i | 0 <= i < |fifos| :: fifos[i].buf
      requires Ports()
      ensures |r| == |fifos|
    {
      seq(|fifos|, i requires 0 <= i < |fifos| && fifos[i].Valid()
                     reads if 0 <= i < |fifos| then {fifos[i] as object, fifos[i].buf} else {}
                   => fifos[i].View().NumAvailable())
    }

    /** A new arbiter whose ports are bound to new channels. */
    constructor (fifos: seq<ScFifo<Packet>>, depth: nat)
      requires 1 <= |fifos| <= MAX_FIFOS && 1 <= depth
      requires forall i :: 0 <= i < |fifos| ==> fifos[i].Valid() && fifos[i].View() == Fresh(depth)
      requires forall i, j :: 0 <= i < j < |fifos| ==> fifos[i] != fifos[j] && fifos[i].buf != fifos[j].buf
      ensures this.fifos == fifos && fresh(lruIndex) && fresh(pushsInFifos)
      ensures Represents(Start(|fifos|, depth))
      ensures pushsInFifos.Length == 2 * (|fifos| * depth) && choiceOut == NONE
    {
      this.fifos, this.depth := fifos, depth;
      lruIndex, pushsInFifos := new int[|fifos|](_ => 0), new int[2 * (|fifos| * depth)](_ => 0);
      thread, output, choiceOut := Choosing, Packet(0, 0), NONE;
      new;
      InitRegisters();
    }

    method InitRegisters()
      requires lruIndex.Length == |fifos| && lruIndex != pushsInFifos && 1 <= |fifos| <= MAX_FIFOS
      requires pushsInFifos.Length == 2 * (|fifos| * depth) && thread == Choosing
      requires Bound() && forall i :: 0 <= i < |fifos| ==> fifos[i].View() == Fresh(depth)
      modifies this`lfsr, this`inFifos, this`lastUsed, lruIndex
      ensures Represents(Start(|fifos|, depth))
    {
      IdentityIsPermutation(|fifos|);
      InitRand();
      InitLru();
      InitFifo();
      InitRoundRobin();
      assert pushsInFifos[..0] == [];
    }

    method InitRand()
      modifies this`lfsr
      ensures lfsr == 1
    {
      lfsr := 1;
    }

    method InitLru()
      requires lruIndex.Length == |fifos|
      modifies lruIndex
      ensures lruIndex[..] == Identity(|fifos|)
    {
      for i := 0 to |fifos|
        invariant forall k :: 0 <= k < i ==> lruIndex[k] == k
      {
        lruIndex[i] := i;
      }
    }

    method InitFifo()
      modifies this`inFifos
      ensures inFifos == 0
    {
      inFifos := 0;
    }

    method InitRoundRobin()
      modifies this`lastUsed
      ensures lastUsed == |fifos| - 1
    {
      lastUsed := |fifos| - 1;
    }

    // -------------------------------------------------------------------------
    // The five decisions
    // -------------------------------------------------------------------------

    /** fifos[i].num_available() > 0. */
    method Ready(i: nat) returns (ready: bool)
      requires Ports() && i < |fifos|
      ensures ready == (Avail()[i] > 0)
    {
      var available := fifos[i].NumAvailable();
      ready := available > 0;
    }

    /** Eight bits of the register, each through a uint8_t. */
    method RandomByte() returns (r: int)
      ensures r == Lfsr.RandomByte(lfsr)
    {
      r := 0;
      for i := 0 to 8
        invariant r == Lfsr.ByteUpTo(lfsr, i)
      {
        var bit := Lfsr.Odd(Lfsr.ShiftRight(lfsr, 4 * i)) % 256;
        r := (r + bit * Lfsr.Pow2(i)) % 256;
      }
    }

    method CountReady() returns (k: nat)
      requires Ports()
      ensures k == |ReadyList(Avail())|
    {
      k := 0;
      ghost var avail := Avail();
      for i := 0 to |fifos|
        invariant k == |ReadyUpTo(avail, i)|
      {
        var ready := Ready(i);
        if ready {
          k := k + 1;
        }
      }
    }

    method ChooseRand() returns (c: int)
      requires Ports()
      ensures c == ChooseRandom(Lfsr.RandomByte(lfsr), Avail())
    {
      var random := RandomByte();
      var available := CountReady();
      if available == 0 {
        return NONE;
      }
      c := PickReady(random % available);
    }

    /** The second pass: its closing assertion, that some FIFO is picked, always holds. */
    method PickReady(chosen: nat) returns (c: int)
      requires Ports() && chosen < |ReadyList(Avail())|
      ensures c == ReadyList(Avail())[chosen]
    {
      ghost var avail := Avail();
      var counter := 0;
      for i := 0 to |fifos|
        invariant counter == |ReadyUpTo(avail, i)| <= chosen
      {
        var ready := Ready(i);
        ReadyAt(avail, i);
        if ready {
          if counter == chosen {
            return i;
          }
          counter := counter + 1;
        }
      }
      assert false;
    }

    method ChooseLru() returns (c: int)
      requires Valid() && Ports()
      ensures c == FirstReady(lruIndex[..], Avail())
    {
      ghost var order, avail := lruIndex[..], Avail();
      for i := 0 to lruIndex.Length
        invariant FirstReady(order, avail) == FirstReady(order[i..], avail)
      {
        ScanNext(order, avail, i);
        var ready := Ready(lruIndex[i]);
        if ready {
          return lruIndex[i];
        }
      }
      c := NONE;
    }

    method ChooseFifo() returns (c: int)
      requires Valid()
      ensures c == if State().log == [] then NONE else State().log[0]
    {
      if inFifos == 0 {
        return -1 % 256;
      }
      c := pushsInFifos[0];
    }

    method ChooseFixed() returns (c: int)
      requires Ports()
      ensures c == FirstReady(Identity(|fifos|), Avail())
    {
      ghost var order, avail := Identity(|fifos|), Avail();
      for i := 0 to |fifos|
        invariant FirstReady(order, avail) == FirstReady(order[i..], avail)
      {
        ScanNext(order, avail, i);
        var ready := Ready(i);
        if ready {
          return i;
        }
      }
      c := NONE;
    }

    method ChooseRoundRobin() returns (c: int)
      requires Ports() && |fifos| >= 1
      ensures c == FirstReady(Rotation(lastUsed, |fifos|), Avail())
    {
      c := ScanTurns(lastUsed, Rotation(lastUsed, |fifos|));
    }

    method ScanTurns(last: int, ghost order: seq<int>) returns (c: int)
      requires Ports() && |order| == |fifos| && Indices(order, |fifos|)
      requires forall i :: 0 <= i < |order| ==> order[i] == (last + 1 + i) % Lfsr.WORD % |order|
      ensures c == FirstReady(order, Avail())
    {
      ghost var avail := Avail();
      for i := 0 to |fifos|
        invariant FirstReady(order, avail) == FirstReady(order[i..], avail)
      {
        var turn := (last + 1 + i) % Lfsr.WORD % |fifos|;
        assert turn == order[i];
        ScanNext(order, avail, i);
        var ready := Ready(turn);
        if ready {
          return turn;
        }
      }
      c := NONE;
    }

    // -------------------------------------------------------------------------
    // The updates after a service, in place
    // -------------------------------------------------------------------------

    method UpdateLru(numFifo: int)
      requires lruIndex.Length >= 1
      modifies lruIndex
      ensures lruIndex[..] == LruUpdate(old(lruIndex[..]), numFifo)
      ensures numFifo !in old(lruIndex[..]) ==>
                lruIndex[..] == old(lruIndex[..])[lruIndex.Length - 1 := ToByte(numFifo)]
    {
      var n := lruIndex.Length;
      ghost var was := lruIndex[..];
      assert was == lruIndex[..n];
      ShiftOut(lruIndex, n, numFifo);
      ghost var kept := lruIndex[..n - 1];
      assert kept == if numFifo in was then RemoveFirst(was, numFifo) else was[..n - 1];
      lruIndex[n - 1] := ToByte(numFifo);
      assert lruIndex[..] == kept + [ToByte(numFifo)];
    }

    method UpdateFifo(numFifo: int)
      requires 1 <= inFifos <= pushsInFifos.Length
      modifies this`inFifos, pushsInFifos
      ensures inFifos == old(inFifos) - 1
      ensures pushsInFifos[..inFifos] == LogUpdate(old(pushsInFifos[..inFifos]), numFifo)
      ensures numFifo !in old(pushsInFifos[..inFifos]) ==>
                pushsInFifos[..inFifos] == old(pushsInFifos[..inFifos])[..inFifos]
    {
      ShiftOut(pushsInFifos, inFifos, numFifo);
      inFifos := inFifos - 1;
    }

    method UpdateRand()
      requires -Lfsr.HALF <= lfsr < Lfsr.HALF
      modifies this`lfsr
      ensures lfsr == Lfsr.Next(old(lfsr))
    {
      lfsr := NextRegister(lfsr);
    }

    /** `update`: all four registers, whatever the mode. */
    method Update(numFifo: int)
      requires Valid() && 0 <= numFifo < |fifos| && inFifos > 0
      modifies this`lfsr, this`inFifos, this`lastUsed, lruIndex, pushsInFifos
      ensures Valid()
      ensures State() == Served(old(State()), numFifo)
    {
      ServedIsValid(State(), numFifo, |fifos|);
      UpdateRand();
      UpdateLru(ToChar(numFifo));
      UpdateFifo(ToByte(ToChar(numFifo)));
      lastUsed := ToChar(numFifo);
    }

    // -------------------------------------------------------------------------
    // Turns of the threads
    // -------------------------------------------------------------------------

    /** The object is in the state given by these values. */
    ghost predicate Matches(chans: seq<Channel<Packet>>, arb: Arb, t: Thread)
      reads this, lruIndex, pushsInFifos, fifos, set i | 0 <= i < |fifos| :: fifos[i].buf
    {
      && Valid() && Bound() && arb == State() && t == thread
      && |chans| == |fifos| && (forall i :: 0 <= i < |fifos| ==> chans[i] == fifos[i].View())
    }

    ghost predicate Represents(c: Column)
      reads this, lruIndex, pushsInFifos, fifos, set i | 0 <= i < |fifos| :: fifos[i].buf
    {
      c.depth == depth && Matches(c.chans, c.arb, c.thread)
    }

    lemma RepresentedAvail(c: Column)
      requires Represents(c)
      ensures c.Avail() == Avail()
    {
    }

    method Decide(mode: int) returns (c: int)
      requires Valid() && Ports()
      ensures c == Choose(State(), mode, Avail())
    {
      match mode {
        case 0 => c := ChooseRand();
        case 1 => c := ChooseLru();
        case 2 => c := ChooseFifo();
        case 3 => c := ChooseFixed();
        case 4 => c := ChooseRoundRobin();
        case _ => c := NONE;
      }
    }

    /** The decision half of `process`, at a posedge. */
    method ProcessChoice(mode: int, ghost c: Column)
      requires Represents(c) && c.Shape() && Can(c, Clock(mode)) && thread.Choosing?
      modifies this`thread, this`choiceOut
      ensures Represents(Do(c, Clock(mode)))
      ensures choiceOut == Choose(c.arb, mode, c.Avail())
    {
      RepresentedAvail(c);
      ChooseStep(c, mode);
      DecideAndWait(mode, c.chans, c.arb);
    }

    method DecideAndWait(mode: int, ghost chans: seq<Channel<Packet>>, ghost arb: Arb)
      requires Matches(chans, arb, Choosing)
      modifies this`thread, this`choiceOut
      ensures choiceOut == Choose(arb, mode, old(Avail()))
      ensures Matches(chans, arb, if choiceOut == NONE then Choosing else Chosen(choiceOut))
    {
      var choice := Decide(mode);
      SignalChoice(choice, chans, arb);
      if choice != NONE {
        Wait(Chosen(choice), chans, arb);
      }
    }

    /** choice_out.write. */
    method SignalChoice(choice: int, ghost chans: seq<Channel<Packet>>, ghost arb: Arb)
      requires Matches(chans, arb, thread)
      modifies this`choiceOut
      ensures Matches(chans, arb, thread) && choiceOut == choice
    {
      choiceOut := choice;
    }

    /** The thread suspends itself at its next wait. */
    method Wait(t: Thread, ghost chans: seq<Channel<Packet>>, ghost arb: Arb)
      requires Matches(chans, arb, thread)
      modifies this`thread
      ensures Matches(chans, arb, t)
    {
      thread := t;
    }

    /** The service half of `process`, at the posedge after the decision. The read never
        finds its FIFO empty. */
    method ProcessRead(mode: int, ghost c: Column)
      requires Represents(c) && Inv(c) && Can(c, Clock(mode)) && thread.Reading?
      modifies this`thread, this`output, this`lfsr, this`inFifos, this`lastUsed, lruIndex, pushsInFifos
      modifies fifos[thread.fifo], fifos[thread.fifo].buf
      ensures Represents(Do(c, Clock(mode)))
      ensures Do(c, Clock(mode)).emitted == c.emitted + [Tagged(c.thread.fifo, output)]
    {
      ReadStep(c, mode, thread.fifo);
      ServePort(thread.fifo, c.chans, c.arb);
    }

    method UpdateMatching(choice: nat, ghost chans: seq<Channel<Packet>>, ghost arb: Arb)
      requires Matches(chans, arb, thread) && choice < |fifos| && arb.log != []
      modifies this`lfsr, this`inFifos, this`lastUsed, lruIndex, pushsInFifos
      ensures Matches(chans, Served(arb, choice), thread)
    {
      Update(choice);
    }

    method ServePort(choice: nat, ghost chans: seq<Channel<Packet>>, ghost arb: Arb)
      requires Matches(chans, arb, Reading(choice)) && choice < |fifos|
      requires chans[choice].NumAvailable() > 0 && arb.log != []
      modifies this`thread, this`output, this`lfsr, this`inFifos, this`lastUsed, lruIndex, pushsInFifos
      modifies fifos[choice], fifos[choice].buf
      ensures Matches(chans[choice := chans[choice].Drop()], Served(arb, choice), Choosing)
      ensures output == chans[choice].contents[0]
    {
      ReadHead(choice, chans, arb);
      UpdateMatching(choice, chans[choice := chans[choice].Drop()], arb);
      Wait(Choosing, chans[choice := chans[choice].Drop()], Served(arb, choice));
    }

    /** output.write(fifos[choice].read()), the FIFO having something to read. */
    method ReadHead(choice: nat, ghost chans: seq<Channel<Packet>>, ghost arb: Arb)
      requires Matches(chans, arb, thread) && choice < |fifos| && chans[choice].NumAvailable() > 0
      modifies this`output, fifos[choice], fifos[choice].buf
      ensures Matches(chans[choice := chans[choice].Drop()], arb, thread)
      ensures output == chans[choice].contents[0]
    {
      var pack := ReadPort(choice);
      output := pack.value;
    }

    /** fifos[choice].read(): one pass of it. */
    method ReadPort(choice: nat) returns (r: Option<Packet>)
      requires Valid() && Bound() && choice < |fifos|
      modifies fifos[choice], fifos[choice].buf
      ensures Valid() && Bound() && State() == old(State())
      ensures r.Some? == (old(fifos[choice].View()).NumAvailable() > 0)
      ensures r.Some? ==> r.value == old(fifos[choice].View()).contents[0]
                          && fifos[choice].View() == old(fifos[choice].View()).Drop()
      ensures forall i :: 0 <= i < |fifos| && i != choice ==> fifos[i].View() == old(fifos[i].View())
    {
      r := fifos[choice].NbRead();
    }

    /** The same thread at the negedge. */
    method ProcessNegedge(ghost c: Column)
      requires Represents(c)
      modifies this`thread
      ensures Represents(Fallen(c))
      ensures thread == if old(thread).Chosen? then Reading(old(thread).fifo) else old(thread)
    {
      if thread.Chosen? {
        thread := Reading(thread.fifo);
      }
    }

    /** One pass of a pushed_in_fifo thread: `.at` throws past the end of the register, and
        the assertion wants room to spare. */
    method PushedInFifo(id: nat) returns (r: LogResult)
      requires Valid() && Bound() && id < |fifos|
      modifies this`inFifos, pushsInFifos
      ensures inFifos <= pushsInFifos.Length
      ensures r == if old(inFifos) >= pushsInFifos.Length then OutOfRange
                   else if old(inFifos) + 1 >= pushsInFifos.Length then AssertionFailed else Logged
      ensures r == Logged ==> Valid() && State() == old(State()).(log := old(State()).log + [id])
    {
      if inFifos >= pushsInFifos.Length {
        return OutOfRange;
      }
      pushsInFifos[inFifos] := ToByte(ToChar(id));
      inFifos := inFifos + 1;
      r := if inFifos < pushsInFifos.Length then Logged else AssertionFailed;
    }

    /** In a reachable state it always logs. */
    method RunPushedInFifo(id: nat, ghost c: Column) returns (r: LogResult)
      requires Represents(c) && Inv(c) && Can(c, Log(id))
      modifies this`inFifos, pushsInFifos
      ensures r == Logged && Represents(Do(c, Log(id)))
    {
      LogFits(c);
      LogStep(c, id, Tagged(id, c.chans[id].contents[|c.chans[id].contents| - 1]));
      r := LogPort(id, c.chans, c.arb);
    }

    method LogPort(id: nat, ghost chans: seq<Channel<Packet>>, ghost arb: Arb) returns (r: LogResult)
      requires Matches(chans, arb, thread) && id < |fifos| && |arb.log| + 1 < pushsInFifos.Length
      modifies this`inFifos, pushsInFifos
      ensures r == Logged && Matches(chans, arb.(log := arb.log + [id]), thread)
    {
      r := PushedInFifo(id);
    }
  }

  /** One step of a scan. */
  lemma ScanNext(order: seq<int>, avail: seq<int>, i: nat)
    requires Indices(order, |avail|) && i < |order|
    ensures FirstReady(order[i..], avail) ==
            if avail[order[i]] > 0 then order[i] else FirstReady(order[i + 1..], avail)
  {
    assert order[i..][1..] == order[i + 1..];
  }

  /** A ready FIFO's place in the list is the number of ready ones before it. */
  lemma ReadyAt(avail: seq<int>, i: nat)
    requires i < |avail|
    ensures |ReadyUpTo(avail, i + 1)| == |ReadyUpTo(avail, i)| + if avail[i] > 0 then 1 else 0
    ensures avail[i] > 0 ==>
              |ReadyUpTo(avail, i)| < |ReadyList(avail)| && ReadyList(avail)[|ReadyUpTo(avail, i)|] == i
  {
    ReadyPrefix(avail, i + 1, |avail|);
    if avail[i] > 0 {
      assert ReadyUpTo(avail, i + 1)[|ReadyUpTo(avail, i)|] == i;
    }
  }

  lemma {:induction false} ReadyPrefix(avail: seq<int>, m: nat, k: nat)
    requires m <= k <= |avail|
    ensures ReadyUpTo(avail, m) <= ReadyUpTo(avail, k)
    decreases k - m
  {
    if m < k {
      ReadyPrefix(avail, m, k - 1);
      assert ReadyUpTo(avail, k - 1) <= ReadyUpTo(avail, k);
    }
  }
}
