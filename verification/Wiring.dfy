/** The construction of the network: which FIFO each router and arbiter port is bound to. */
module Wiring {
  import opened Division
  import opened DeltaFifo

  /** get_fifo: the FIFO from input i to output j in the flat array. */
  function FifoIndex(i: nat, j: nat, nbInput: nat): nat { nbInput * j + i }

  lemma IndexInRange(i: nat, j: nat, nbInput: nat, nbOutput: nat)
    requires i < nbInput && j < nbOutput
    ensures FifoIndex(i, j, nbInput) < nbInput * nbOutput
  {
    assert nbInput * (j + 1) == nbInput * j + nbInput;
    assert nbInput * (j + 1) <= nbInput * nbOutput by {
      MulMonotone(nbInput, j + 1, nbOutput);
    }
  }

  lemma MulMonotone(k: nat, a: nat, b: nat)
    requires a <= b
    ensures k * a <= k * b
  {
    assert k * b == k * a + k * (b - a);
  }

  /** Two flows never share a FIFO. */
  lemma IndexInjective(i: nat, j: nat, i': nat, j': nat, nbInput: nat)
    requires i < nbInput && i' < nbInput && FifoIndex(i, j, nbInput) == FifoIndex(i', j', nbInput)
    ensures i == i' && j == j'
  {
    QuotientOf(FifoIndex(i, j, nbInput), nbInput, j, i);
    QuotientOf(FifoIndex(i', j', nbInput), nbInput, j', i');
  }

  /** Every FIFO of the array carries a flow. */
  lemma IndexSurjective(k: nat, nbInput: nat, nbOutput: nat)
    requires k < nbInput * nbOutput
    ensures nbInput >= 1 && k % nbInput < nbInput && k / nbInput < nbOutput
    ensures FifoIndex(k % nbInput, k / nbInput, nbInput) == k
  {
    if nbInput == 0 {
      assert false;
    }
    var q, r := k / nbInput, k % nbInput;
    assert k == nbInput * q + r;
    if q >= nbOutput {
      MulMonotone(nbInput, nbOutput, q);
    }
  }

  // ---------------------------------------------------------------------------
  // The flat array seen from one output
  // ---------------------------------------------------------------------------

  /** The FIFOs behind the ports of arbiter j, in port order. */
  function ColumnOf<T>(flat: seq<T>, nbInput: nat, nbOutput: nat, j: nat): (r: seq<T>)
    requires |flat| == nbInput * nbOutput && j < nbOutput
    ensures |r| == nbInput
    ensures forall i :: 0 <= i < nbInput ==>
              FifoIndex(i, j, nbInput) < |flat| && r[i] == flat[FifoIndex(i, j, nbInput)]
  {
    assert forall i :: 0 <= i < nbInput ==> FifoIndex(i, j, nbInput) < |flat| by {
      forall i | 0 <= i < nbInput ensures FifoIndex(i, j, nbInput) < |flat| {
        IndexInRange(i, j, nbInput, nbOutput);
      }
    }
    seq(nbInput, i requires 0 <= i < nbInput => flat[FifoIndex(i, j, nbInput)])
  }

  /** A change to the FIFO of flow (i, j) shows at port i of arbiter j and nowhere else, so the
      flat array is exactly one column of FIFOs per output. */
  lemma OneFifoPerFlow<T>(flat: seq<T>, nbInput: nat, nbOutput: nat, i: nat, j: nat, x: T, k: nat)
    requires |flat| == nbInput * nbOutput && i < nbInput && j < nbOutput && k < nbOutput
    ensures FifoIndex(i, j, nbInput) < |flat|
    ensures ColumnOf(flat[FifoIndex(i, j, nbInput) := x], nbInput, nbOutput, k) ==
            if k == j then ColumnOf(flat, nbInput, nbOutput, j)[i := x] else ColumnOf(flat, nbInput, nbOutput, k)
  {
    IndexInRange(i, j, nbInput, nbOutput);
    var r := ColumnOf(flat[FifoIndex(i, j, nbInput) := x], nbInput, nbOutput, k);
    var was := ColumnOf(flat, nbInput, nbOutput, k);
    forall a | 0 <= a < nbInput ensures r[a] == if k == j && a == i then x else was[a] {
      if FifoIndex(a, k, nbInput) == FifoIndex(i, j, nbInput) {
        IndexInjective(a, k, i, j, nbInput);
      }
    }
  }

  // ---------------------------------------------------------------------------
  // The binding loops
  // ---------------------------------------------------------------------------

  /** What construction comes to. Arbiters are built with nb_output ports but bound for
      nb_input; a FIFO takes one reader and one writer; every port must end up bound. */
  datatype Outcome = Wired | PortOutOfRange | SecondReader | SecondWriter | PortUnbound

  /** (i', j') is bound before (i, j) by the nested loops. */
  predicate Before(i': int, j': int, i: int, j: int) { i' < i || (i' == i && j' < j) }

  class Bindings {
    const nbInput: nat
    const nbOutput: nat
    const routerPort: array2<Option<nat>>   // [router, port]
    const arbiterPort: array2<Option<nat>>  // [arbiter, port]
    const writers: array<nat>               // router ports bound to each FIFO
    const readers: array<nat>

    ghost predicate Valid()
      reads this
    {
      && routerPort.Length0 == nbInput && routerPort.Length1 == nbOutput
      && arbiterPort.Length0 == nbOutput && arbiterPort.Length1 == nbOutput
      && writers.Length == readers.Length == nbInput * nbOutput && writers != readers
      && routerPort != arbiterPort
    }

    constructor (nbInput: nat, nbOutput: nat)
      ensures Valid() && this.nbInput == nbInput && this.nbOutput == nbOutput
      ensures fresh(routerPort) && fresh(arbiterPort) && fresh(writers) && fresh(readers)
      ensures Clear(0, 0) && Bound(0, 0)
    {
      this.nbInput, this.nbOutput := nbInput, nbOutput;
      routerPort := new Option<nat>[nbInput, nbOutput]((_, _) => None);
      arbiterPort := new Option<nat>[nbOutput, nbOutput]((_, _) => None);
      writers := new nat[nbInput * nbOutput](_ => 0);
      readers := new nat[nbInput * nbOutput](_ => 0);
      new;
      forall i', j' | 0 <= i' < nbInput && 0 <= j' < nbOutput ensures ClearAt(i', j', 0, 0) {
        IndexInRange(i', j', nbInput, nbOutput);
      }
    }

    /** FIFO (i', j') has its one writer and one reader exactly if the loops have passed it. */
    ghost predicate Clear(i: int, j: int)
      reads this, writers, readers
      requires Valid()
    {
      forall i', j' :: 0 <= i' < nbInput && 0 <= j' < nbOutput ==> ClearAt(i', j', i, j)
    }

    ghost predicate ClearAt(i': nat, j': nat, i: int, j: int)
      reads this, writers, readers
      requires Valid() && i' < nbInput && j' < nbOutput
    {
      var k := FifoIndex(i', j', nbInput);
      k < writers.Length && writers[k] == readers[k] == if Before(i', j', i, j) then 1 else 0
    }

    ghost predicate Bound(i: int, j: int)
      reads this, routerPort, arbiterPort
      requires Valid()
    {
      && (forall i', j' :: 0 <= i' < nbInput && 0 <= j' < nbOutput && i' < nbOutput && Before(i', j', i, j) ==>
            routerPort[i', j'] == arbiterPort[j', i'] == Some(FifoIndex(i', j', nbInput)))
      && (forall i', j' :: nbInput <= i' < nbOutput && 0 <= j' < nbOutput ==> arbiterPort[j', i'] == None)
    }

    /** One turn of the inner loop. */
    method BindFlow(i: nat, j: nat) returns (r: Outcome)
      requires Valid() && i < nbInput && j < nbOutput && Clear(i, j) && Bound(i, j)
      modifies routerPort, arbiterPort, writers, readers
      ensures r == if i < nbOutput then Wired else PortOutOfRange
      ensures r == Wired ==> Clear(i, j + 1) && Bound(i, j + 1)
    {
      assert ClearAt(i, j, i, j);
      IndexInRange(i, j, nbInput, nbOutput);
      var k := nbInput * j + i;
      if writers[k] != 0 {
        return SecondWriter;
      }
      writers[k] := 1;
      routerPort[i, j] := Some(k);
      if i >= nbOutput {
        return PortOutOfRange;
      }
      if readers[k] != 0 {
        return SecondReader;
      }
      readers[k] := 1;
      arbiterPort[j, i] := Some(k);
      var next := j + 1;
      forall i', j' | 0 <= i' < nbInput && 0 <= j' < nbOutput ensures ClearAt(i', j', i, next) {
        assert old(ClearAt(i', j', i, j));
        if FifoIndex(i', j', nbInput) == k {
          IndexInjective(i', j', i, j, nbInput);
        }
      }
      r := Wired;
    }

    /** The end of an inner loop is the start of the next. */
    lemma NextRow(i: nat)
      requires Valid() && i < nbInput && Clear(i, nbOutput) && Bound(i, nbOutput)
      ensures Clear(i + 1, 0) && Bound(i + 1, 0)
    {
      var next := i + 1;
      forall i', j' | 0 <= i' < nbInput && 0 <= j' < nbOutput ensures ClearAt(i', j', next, 0) {
        assert ClearAt(i', j', i, nbOutput);
      }
    }

    lemma EveryFifoTaken()
      requires Valid() && Clear(nbInput, 0)
      ensures forall k :: 0 <= k < writers.Length ==> writers[k] == readers[k] == 1
    {
      forall k | 0 <= k < writers.Length ensures writers[k] == readers[k] == 1 {
        IndexSurjective(k, nbInput, nbOutput);
        assert ClearAt(k % nbInput, k / nbInput, nbInput, 0);
      }
    }

    /** Elaboration refuses a port left unbound: each arbiter has nb_output of them. */
    method AllBound() returns (ok: bool)
      requires Valid() && Bound(nbInput, 0) && (nbInput <= nbOutput || nbOutput == 0)
      ensures ok == (nbInput == nbOutput || nbOutput == 0)
    {
      ok := true;
      for j := 0 to nbOutput
        invariant ok == (j == 0 || nbInput == nbOutput)
      {
        for i := 0 to nbOutput
          invariant ok == ((j == 0 && i <= nbInput) || nbInput == nbOutput)
        {
          if arbiterPort[j, i].None? {
            ok := false;
          }
        }
      }
    }
  }

  /** The constructor's binding loops and elaboration. The network comes up exactly when there
      are as many inputs as outputs (or no outputs at all); then both ends of flow (i, j) hold
      the same FIFO, and every FIFO has one writer and one reader. */
  method Construct(nbInput: nat, nbOutput: nat) returns (r: Outcome, b: Bindings)
    ensures b.Valid() && b.nbInput == nbInput && b.nbOutput == nbOutput
    ensures r == Wired <==> nbInput == nbOutput || nbOutput == 0
    ensures r == (if nbOutput == 0 || nbInput == nbOutput then Wired
                  else if nbInput > nbOutput then PortOutOfRange else PortUnbound)
    ensures r == Wired ==> forall i, j :: 0 <= i < nbInput && 0 <= j < nbOutput ==>
              b.routerPort[i, j] == b.arbiterPort[j, i] == Some(FifoIndex(i, j, nbInput))
    ensures r == Wired ==> forall k :: 0 <= k < b.writers.Length ==> b.writers[k] == b.readers[k] == 1
  {
    b := new Bindings(nbInput, nbOutput);
    for i := 0 to nbInput
      invariant fresh(b.routerPort) && fresh(b.arbiterPort) && fresh(b.writers) && fresh(b.readers)
      invariant b.Valid() && b.nbInput == nbInput && b.nbOutput == nbOutput
      invariant b.Clear(i, 0) && b.Bound(i, 0) && (nbOutput > 0 ==> i <= nbOutput)
    {
      for j := 0 to nbOutput
        invariant fresh(b.routerPort) && fresh(b.arbiterPort) && fresh(b.writers) && fresh(b.readers)
        invariant b.Valid() && b.nbInput == nbInput && b.nbOutput == nbOutput
        invariant b.Clear(i, j) && b.Bound(i, j) && (j > 0 ==> i < nbOutput)
      {
        r := b.BindFlow(i, j);
        if r != Wired {
          return;
        }
      }
      b.NextRow(i);
    }
    var ok := b.AllBound();
    r := if ok then Wired else PortUnbound;
    b.EveryFifoTaken();
  }
}
