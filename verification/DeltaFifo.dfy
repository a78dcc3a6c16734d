/** The bounded channel of sc_fifo.h. Reads and writes act on the ring buffer at once,
    but what the reader and the writer may count on is a snapshot that only Update
    refreshes, at the end of the evaluation phase. */
module DeltaFifo {
  import opened Division

  datatype Option<+T> = None | Some(value: T)

  /** A channel as a value. `contents` lists everything in the buffer, oldest first: the
      part readable in this evaluation phase, then what was written during it. */
  datatype Channel<T> = Channel(
    size: nat, contents: seq<T>, numReadable: nat, numRead: nat, numWritten: nat)
  {
    ghost predicate Valid() {
      && 1 <= size
      && numRead <= numReadable
      && numReadable + numWritten <= size
      && |contents| == numReadable - numRead + numWritten
    }

    function NumAvailable(): int { numReadable - numRead }

    function NumFree(): int { size - numReadable - numWritten }

    function Put(x: T): Channel<T> {
      this.(contents := contents + [x], numWritten := numWritten + 1)
    }

    function Drop(): Channel<T>
      requires contents != []
    {
      this.(contents := contents[1..], numRead := numRead + 1)
    }

    /** The update phase: everything in the buffer becomes readable. */
    function Commit(): Channel<T> {
      this.(numReadable := |contents|, numRead := 0, numWritten := 0)
    }
  }

  function Fresh<T>(size: nat): Channel<T> { Channel(size, [], 0, 0, 0) }

  // ---------------------------------------------------------------------------
  // One evaluation phase as an interleaving of reader and writer operations
  // ---------------------------------------------------------------------------

  datatype Op<T> = Read | Write(x: T)

  /** What the two sides saw: each read's value or refusal, each write's acceptance. */
  datatype Phase<T> = Phase(channel: Channel<T>, got: seq<Option<T>>, taken: seq<bool>)

  /** The non-blocking operations, in the given order. */
  function RunPhase<T>(c: Channel<T>, ops: seq<Op<T>>): Phase<T>
    requires c.Valid()
    decreases |ops|
  {
    if ops == [] then Phase(c, [], [])
    else match ops[0]
      case Read =>
        if c.NumAvailable() == 0 then
          var p := RunPhase(c, ops[1..]);
          p.(got := [None] + p.got)
        else
          var p := RunPhase(c.Drop(), ops[1..]);
          p.(got := [Some(c.contents[0])] + p.got)
      case Write(x) =>
        if c.NumFree() == 0 then
          var p := RunPhase(c, ops[1..]);
          p.(taken := [false] + p.taken)
        else
          var p := RunPhase(c.Put(x), ops[1..]);
          p.(taken := [true] + p.taken)
  }

  function ReadCount<T>(ops: seq<Op<T>>): nat {
    if ops == [] then 0 else (if ops[0].Read? then 1 else 0) + ReadCount(ops[1..])
  }

  function Written<T>(ops: seq<Op<T>>): seq<T> {
    if ops == [] then [] else (if ops[0].Write? then [ops[0].x] else []) + Written(ops[1..])
  }

  function Min(a: int, b: int): int { if a <= b then a else b }

  /** The phase's outcome from the number of reads and the values written alone. */
  function Settled<T>(c: Channel<T>, asked: nat, written: seq<T>): Phase<T>
    requires c.Valid()
  {
    var r := Min(asked, c.NumAvailable());
    var w := Min(|written|, c.NumFree());
    Phase(
      Channel(c.size, c.contents[r..] + written[..w], c.numReadable, c.numRead + r, c.numWritten + w),
      seq(asked, i requires 0 <= i < asked => if i < r then Some(c.contents[i]) else None),
      seq(|written|, i requires 0 <= i < |written| => i < w))
  }

  lemma {:induction false} PhaseSettles<T>(c: Channel<T>, ops: seq<Op<T>>)
    requires c.Valid()
    ensures RunPhase(c, ops) == Settled(c, ReadCount(ops), Written(ops))
    decreases |ops|
  {
    if ops == [] {
      SettleNothing(c);
    } else if ops[0].Read? {
      assert ReadCount(ops) == 1 + ReadCount(ops[1..]) && Written(ops) == Written(ops[1..]);
      SettleRead(c, ReadCount(ops[1..]), Written(ops[1..]));
      PhaseSettles(if c.NumAvailable() == 0 then c else c.Drop(), ops[1..]);
    } else {
      assert ReadCount(ops) == ReadCount(ops[1..]) && Written(ops) == [ops[0].x] + Written(ops[1..]);
      SettleWrite(c, ops[0].x, ReadCount(ops[1..]), Written(ops[1..]));
      PhaseSettles(if c.NumFree() == 0 then c else c.Put(ops[0].x), ops[1..]);
    }
  }

  /** However reader and writer interleave within an evaluation phase, each side sees the
      same answers and the channel ends in the same state: the outcome depends only on how
      many reads there were and on which values were written, in order. */
  lemma PhaseOutcome<T>(c: Channel<T>, ops: seq<Op<T>>)
    requires c.Valid()
    ensures
      var p, asked, written := RunPhase(c, ops), ReadCount(ops), Written(ops);
      var readable, free := c.numReadable - c.numRead, c.size - c.numReadable - c.numWritten;
      var r := if asked <= readable then asked else readable;
      var w := if |written| <= free then |written| else free;
      && p.channel == Channel(c.size, c.contents[r..] + written[..w], c.numReadable, c.numRead + r, c.numWritten + w)
      && |p.got| == asked && (forall i :: 0 <= i < asked ==> p.got[i] == if i < r then Some(c.contents[i]) else None)
      && |p.taken| == |written| && (forall i :: 0 <= i < |written| ==> p.taken[i] == (i < w))
  {
    PhaseSettles(c, ops);
  }

  lemma SettleNothing<T>(c: Channel<T>)
    requires c.Valid()
    ensures Settled(c, 0, []) == Phase(c, [], [])
  {
    assert c.contents[0..] + [] == c.contents;
  }

  lemma SettleRead<T>(c: Channel<T>, asked: nat, written: seq<T>)
    requires c.Valid()
    ensures
      if c.NumAvailable() == 0 then
        var p := Settled(c, asked, written);
        Settled(c, asked + 1, written) == p.(got := [None] + p.got)
      else
        var p := Settled(c.Drop(), asked, written);
        Settled(c, asked + 1, written) == p.(got := [Some(c.contents[0])] + p.got)
  {
    var whole := Settled(c, asked + 1, written);
    if c.NumAvailable() == 0 {
      var p := Settled(c, asked, written);
      assert whole.got == [None] + p.got;
    } else {
      var p := Settled(c.Drop(), asked, written);
      assert whole.got == [Some(c.contents[0])] + p.got;
      var r := Min(asked + 1, c.NumAvailable());
      assert c.contents[1..][r - 1..] == c.contents[r..];
    }
  }

  lemma SettleWrite<T>(c: Channel<T>, x: T, asked: nat, rest: seq<T>)
    requires c.Valid()
    ensures
      if c.NumFree() == 0 then
        var p := Settled(c, asked, rest);
        Settled(c, asked, [x] + rest) == p.(taken := [false] + p.taken)
      else
        var p := Settled(c.Put(x), asked, rest);
        Settled(c, asked, [x] + rest) == p.(taken := [true] + p.taken)
  {
    var whole := Settled(c, asked, [x] + rest);
    var r := Min(asked, c.NumAvailable());
    if c.NumFree() == 0 {
      var p := Settled(c, asked, rest);
      assert whole.taken == [false] + p.taken;
      assert ([x] + rest)[..0] == rest[..0];
    } else {
      var p := Settled(c.Put(x), asked, rest);
      var w := Min(|rest|, c.Put(x).NumFree());
      assert whole.taken == [true] + p.taken;
      assert whole.got == p.got;
      assert (c.contents + [x])[r..] + rest[..w] == c.contents[r..] + ([x] + rest)[..w + 1];
    }
  }

  lemma PhaseOrderIrrelevant<T>(c: Channel<T>, ops: seq<Op<T>>, ops': seq<Op<T>>)
    requires c.Valid() && ReadCount(ops) == ReadCount(ops') && Written(ops) == Written(ops')
    ensures RunPhase(c, ops) == RunPhase(c, ops')
    ensures RunPhase(c, ops).channel.Valid()
  {
    PhaseOutcome(c, ops);
    PhaseOutcome(c, ops');
  }

  // ---------------------------------------------------------------------------
  // The ring buffer
  // ---------------------------------------------------------------------------

  /** The element `k` places after index `i` in a ring of `size` places. */
  function Slot(i: nat, k: nat, size: nat): (s: nat)
    requires i < size && k <= size
    ensures s == (i + k) % size
    ensures s < size
  {
    WrapOnce(i + k, size);
    if i + k < size then i + k else i + k - size
  }

  /** The `count` elements of ring b from index i on. */
  function Ring<T>(b: seq<T>, i: nat, count: nat): (s: seq<T>)
    requires i < |b| && count <= |b|
    ensures |s| == count
  {
    seq(count, k requires 0 <= k < count => b[Slot(i, k, |b|)])
  }

  class ScFifo<T(0)> {
    var size: nat
    var buf: array<T>
    var free: int
    var ri: nat
    var wi: nat
    var numReadable: nat
    var numRead: nat
    var numWritten: nat
    const blank: T

    /** The buffer and counter invariants that make the ignored results of
        buf_read and buf_write always true. */
    ghost predicate Valid()
      reads this, buf
    {
      && 1 <= size == buf.Length
      && 0 <= free <= size
      && ri < size
      && wi == (ri + size - free) % size
      && numRead <= numReadable
      && numReadable + numWritten <= size
      && free == size - numReadable + numRead - numWritten
    }

    ghost function Contents(): (s: seq<T>)
      reads this, buf
      requires Valid()
    {
      Ring(buf[..], ri, size - free)
    }

    ghost function View(): (c: Channel<T>)
      reads this, buf
      requires Valid()
      ensures c.Valid()
    {
      Channel(size, Contents(), numReadable, numRead, numWritten)
    }

    /** sc_fifo::init and buf_init. */
    constructor (capacity: nat, blank: T)
      requires 1 <= capacity
      ensures Valid() && fresh(buf)
      ensures View() == Fresh(capacity)
    {
      size, free, ri, wi := capacity, capacity, 0, 0;
      buf := new T[capacity](_ => blank);
      numReadable, numRead, numWritten := 0, 0, 0;
      this.blank := blank;
    }

    method NumAvailable() returns (n: int)
      requires Valid()
      ensures n == View().NumAvailable()
    {
      n := numReadable - numRead;
    }

    method NumFree() returns (n: int)
      requires Valid()
      ensures n == View().NumFree()
    {
      n := size - numReadable - numWritten;
    }

    /** Stores x at the write index; refuses only when every place is taken. */
    method BufWrite(x: T) returns (ok: bool)
      requires 1 <= size == buf.Length && 0 <= free <= size && ri < size
      requires wi == (ri + size - free) % size
      modifies this`wi, this`free, buf
      ensures ok == (old(free) > 0)
      ensures !ok ==> unchanged(this) && unchanged(buf)
      ensures ok ==> free == old(free) - 1 && wi == (ri + size - free) % size
      ensures ok ==> Ring(buf[..], ri, size - free) == old(Ring(buf[..], ri, size - free)) + [x]
    {
      if free == 0 {
        return false;
      }
      ghost var used := size - free;
      assert wi == Slot(ri, used, size);
      buf[wi] := x;
      WrapOnce(wi + 1, size);
      wi := (wi + 1) % size;
      free := free - 1;
      WrapOnce(ri + used + 1, size);
      ok := true;
    }

    /** Takes the element at the read index and blanks its place; refuses only when empty. */
    method BufRead() returns (r: Option<T>)
      requires 1 <= size == buf.Length && 0 <= free <= size && ri < size
      requires wi == (ri + size - free) % size
      modifies this`ri, this`free, buf
      ensures r.Some? == (old(free) < size)
      ensures r.None? ==> unchanged(this) && unchanged(buf)
      ensures r.Some? ==> free == old(free) + 1 && ri < size && wi == (ri + size - free) % size
      ensures r.Some? ==> old(Ring(buf[..], ri, size - free)) == [r.value] + Ring(buf[..], ri, size - free)
    {
      if free == size {
        return None;
      }
      WrapOnce(ri, size);
      WrapOnce(ri + 1, size);
      WrapOnce(ri + size - free, size);
      r := Some(buf[ri]);
      buf[ri] := blank;
      ri := (ri + 1) % size;
      free := free + 1;
      WrapOnce(ri + size - free, size);
    }

    /** nb_read, and one pass of the blocking read: None is the refusal, on which the
        blocking read suspends its thread. */
    method NbRead() returns (r: Option<T>)
      requires Valid()
      modifies this`ri, this`free, this`numRead, buf
      ensures Valid()
      ensures r.Some? == (old(View()).NumAvailable() > 0)
      ensures r.Some? ==> r.value == old(View()).contents[0] && View() == old(View()).Drop()
      ensures r.None? ==> View() == old(View())
    {
      if numReadable - numRead == 0 {
        return None;
      }
      numRead := numRead + 1;
      r := BufRead();
    }

    /** nb_write, and one pass of the blocking write. */
    method NbWrite(x: T) returns (ok: bool)
      requires Valid()
      modifies this`wi, this`free, this`numWritten, buf
      ensures Valid()
      ensures ok == (old(View()).NumFree() > 0)
      ensures View() == if ok then old(View()).Put(x) else old(View())
    {
      if size - numReadable - numWritten == 0 {
        return false;
      }
      numWritten := numWritten + 1;
      ok := BufWrite(x);
    }

    /** The update phase; the results say which of the two delta events are notified. */
    method Update() returns (readEvent: bool, writtenEvent: bool)
      requires Valid()
      modifies this`numReadable, this`numRead, this`numWritten
      ensures Valid() && View() == old(View()).Commit()
      ensures readEvent == (old(View()).numRead > 0) && writtenEvent == (old(View()).numWritten > 0)
    {
      readEvent := numRead > 0;
      writtenEvent := numWritten > 0;
      numReadable := size - free;
      numRead := 0;
      numWritten := 0;
    }
  }
}
