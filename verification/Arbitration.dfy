/** The arbiter's decisions and its four pieces of arbitration state, as values.
    FIFO numbers travel through `char` and `uint8_t`, so they are ints here and the
    conversions are written out. */
module Arbitration {
  import opened Division
  import opened Sequences
  import Lfsr

  /** numeric_limits<uint8_t>::max(): no FIFO chosen. */
  const NONE: int := 255

  /** Above this, a FIFO number no longer survives the passage through `char`. */
  const MAX_FIFOS: int := 128

  const RAND: int := 0
  const LRU: int := 1
  const FIFO: int := 2
  const FIXED: int := 3
  const ROUND_ROBIN: int := 4

  /** A uint8_t passed as a (signed) char, and back. */
  function ToChar(x: int): int { if x < 128 then x else x - 256 }

  function ToByte(x: int): int { x % 256 }

  datatype Arb = Arb(lfsr: int, lru: seq<int>, log: seq<int>, last: int) {
    ghost predicate Valid(n: nat) {
      && 1 <= n <= MAX_FIFOS
      && IsPermutation(lru, n)
      && 0 <= last < n
    }
  }

  ghost predicate IsPermutation(s: seq<int>, n: nat) {
    && |s| == n
    && (forall i :: 0 <= i < n ==> 0 <= s[i] < n)
    && (forall i, j :: 0 <= i < j < n ==> s[i] != s[j])
    && (forall f :: 0 <= f < n ==> f in s)
  }

  function Identity(n: nat): (r: seq<int>)
    ensures |r| == n
  {
    seq(n, i => i)
  }

  function StartArb(n: nat): Arb { Arb(1, Identity(n), [], n - 1) }

  // ---------------------------------------------------------------------------
  // Choosing
  // ---------------------------------------------------------------------------

  ghost predicate Indices(order: seq<int>, n: nat) {
    forall i :: 0 <= i < |order| ==> 0 <= order[i] < n
  }

  /** The first member of `order` whose FIFO has something to read. */
  function FirstReady(order: seq<int>, avail: seq<int>): (c: int)
    requires Indices(order, |avail|)
  {
    if order == [] then NONE
    else if avail[order[0]] > 0 then order[0]
    else FirstReady(order[1..], avail)
  }

  /** The order in which choose_round_robin scans: the sum is converted to unsigned. */
  function Rotation(last: int, n: nat): (r: seq<int>)
    requires 1 <= n
    ensures |r| == n && Indices(r, n)
  {
    seq(n, i requires 0 <= i < n => (last + 1 + i) % Lfsr.WORD % n)
  }

  /** The non-empty FIFOs in index order. */
  function ReadyUpTo(avail: seq<int>, m: nat): (r: seq<int>)
    requires m <= |avail|
    ensures |r| <= m && Indices(r, m)
    ensures forall i :: 0 <= i < |r| ==> avail[r[i]] > 0
  {
    if m == 0 then [] else
      ReadyUpTo(avail, m - 1) + (if avail[m - 1] > 0 then [m - 1] else [])
  }

  function ReadyList(avail: seq<int>): (r: seq<int>) { ReadyUpTo(avail, |avail|) }

  /** choose_rand for random byte r: the (r mod k)-th of the k non-empty FIFOs. */
  function ChooseRandom(r: nat, avail: seq<int>): int {
    var ready := ReadyList(avail);
    if ready == [] then NONE else ready[r % |ready|]
  }

  /** The choice of `process`; an unknown mode chooses nothing. */
  function Choose(a: Arb, mode: int, avail: seq<int>): int
    requires a.Valid(|avail|)
  {
    if mode == RAND then ChooseRandom(Lfsr.RandomByte(a.lfsr), avail)
    else if mode == LRU then FirstReady(a.lru, avail)
    else if mode == FIFO then (if a.log == [] then NONE else a.log[0])
    else if mode == FIXED then FirstReady(Identity(|avail|), avail)
    else if mode == ROUND_ROBIN then FirstReady(Rotation(a.last, |avail|), avail)
    else NONE
  }

  lemma {:induction false} FirstReadyScan(order: seq<int>, avail: seq<int>)
    requires Indices(order, |avail|) && |avail| <= NONE
    ensures
      var c := FirstReady(order, avail);
      if c == NONE then forall i :: 0 <= i < |order| ==> avail[order[i]] <= 0
      else exists k :: 0 <= k < |order| && order[k] == c && avail[c] > 0
                       && forall i :: 0 <= i < k ==> avail[order[i]] <= 0
  {
    if order != [] && avail[order[0]] <= 0 {
      var rest := order[1..];
      FirstReadyScan(rest, avail);
      var c := FirstReady(rest, avail);
      if c == NONE {
        forall i | 0 <= i < |order| ensures avail[order[i]] <= 0 {
          if i > 0 { assert order[i] == rest[i - 1]; }
        }
      } else {
        var k :| 0 <= k < |rest| && rest[k] == c && avail[c] > 0
                 && forall i :: 0 <= i < k ==> avail[rest[i]] <= 0;
        forall i | 0 <= i < k + 1 ensures avail[order[i]] <= 0 {
          if i > 0 { assert order[i] == rest[i - 1]; }
        }
        assert order[k + 1] == c;
      }
    }
  }

  /** A scan over all FIFOs refuses exactly when nothing is ready, and otherwise returns the
      ready FIFO that comes first in the scan order. */
  lemma ScanChoice(order: seq<int>, avail: seq<int>)
    requires IsPermutation(order, |avail|) && |avail| <= NONE
    ensures
      var c := FirstReady(order, avail);
      && (c == NONE <==> forall f :: 0 <= f < |avail| ==> avail[f] <= 0)
      && (c != NONE ==> 0 <= c < |avail| && avail[c] > 0)
      && (c != NONE ==> forall f :: 0 <= f < |avail| && avail[f] > 0 ==>
            FirstIndex(order, c) <= FirstIndex(order, f))
  {
    FirstReadyScan(order, avail);
    var c := FirstReady(order, avail);
    if c == NONE {
      forall f | 0 <= f < |avail| ensures avail[f] <= 0 {
        assert order[FirstIndex(order, f)] == f;
      }
    } else {
      var k :| 0 <= k < |order| && order[k] == c && avail[c] > 0
               && forall i :: 0 <= i < k ==> avail[order[i]] <= 0;
      assert FirstIndex(order, c) == k;
      forall f | 0 <= f < |avail| && avail[f] > 0 ensures k <= FirstIndex(order, f) {
        assert order[FirstIndex(order, f)] == f;
      }
    }
  }

  lemma IdentityIsPermutation(n: nat)
    ensures IsPermutation(Identity(n), n)
  {
    forall f | 0 <= f < n ensures f in Identity(n) {
      assert Identity(n)[f] == f;
    }
  }

  /** choose_fixed gives priority to the lowest number. */
  lemma FixedPicksLowest(a: Arb, avail: seq<int>, f: int)
    requires a.Valid(|avail|) && 0 <= f < |avail| && avail[f] > 0
    ensures 0 <= Choose(a, FIXED, avail) <= f && avail[Choose(a, FIXED, avail)] > 0
  {
    var order := Identity(|avail|);
    IdentityIsPermutation(|avail|);
    ScanChoice(order, avail);
    var c := Choose(a, FIXED, avail);
    assert order[FirstIndex(order, c)] == c && order[FirstIndex(order, f)] == f;
  }

  /** How far FIFO f is from its turn in a round-robin scan. */
  function TurnsAway(last: int, f: int, n: nat): int {
    if f > last then f - last - 1 else f - last - 1 + n
  }

  lemma RotationAt(last: int, n: nat, k: nat)
    requires 0 <= last < n <= MAX_FIFOS && k < n
    ensures Rotation(last, n)[k] == if last + 1 + k < n then last + 1 + k else last + 1 + k - n
    ensures TurnsAway(last, Rotation(last, n)[k], n) == k
  {
    assert (last + 1 + k) % Lfsr.WORD == last + 1 + k;
    WrapOnce(last + 1 + k, n);
  }

  lemma RotationIsPermutation(last: int, n: nat)
    requires 0 <= last < n <= MAX_FIFOS
    ensures IsPermutation(Rotation(last, n), n)
    ensures forall f :: 0 <= f < n ==> FirstIndex(Rotation(last, n), f) == TurnsAway(last, f, n)
  {
    var r := Rotation(last, n);
    forall i | 0 <= i < n
      ensures TurnsAway(last, r[i], n) == i && 0 <= r[i] < n
    {
      RotationAt(last, n, i);
    }
    forall f | 0 <= f < n ensures f in r && FirstIndex(r, f) == TurnsAway(last, f, n) {
      RotationAt(last, n, TurnsAway(last, f, n));
      assert r[TurnsAway(last, f, n)] == f;
    }
  }

  lemma {:induction false} ReadyUpToHas(avail: seq<int>, m: nat, f: nat)
    requires f < m <= |avail|
    ensures f in ReadyUpTo(avail, m) <==> avail[f] > 0
  {
    if f == m - 1 {
      if avail[f] > 0 {
        var r := ReadyUpTo(avail, m);
        assert r[|r| - 1] == f;
      }
    } else {
      ReadyUpToHas(avail, m - 1, f);
      var shorter, r := ReadyUpTo(avail, m - 1), ReadyUpTo(avail, m);
      assert r[..|shorter|] == shorter;
    }
  }

  /** Work conservation: in each mode the arbiter declines exactly when every FIFO is empty,
      and never picks an empty one. FIFO mode rests on the log naming exactly the FIFOs that
      have something to read. */
  lemma ChoiceIsWorkConserving(a: Arb, mode: int, avail: seq<int>)
    requires a.Valid(|avail|)
    requires Indices(a.log, |avail|)
    requires forall f :: 0 <= f < |avail| ==> (f in a.log <==> avail[f] > 0)
    ensures
      var c := Choose(a, mode, avail);
      && (c != NONE ==> 0 <= c < |avail| && avail[c] > 0)
      && (RAND <= mode <= ROUND_ROBIN ==>
            (c == NONE <==> forall f :: 0 <= f < |avail| ==> avail[f] <= 0))
      && (!(RAND <= mode <= ROUND_ROBIN) ==> c == NONE)
  {
    if mode == RAND {
      var ready := ReadyList(avail);
      forall f | 0 <= f < |avail| ensures f in ready <==> avail[f] > 0 {
        ReadyUpToHas(avail, |avail|, f);
      }
      if ready != [] {
        var r := Lfsr.RandomByte(a.lfsr);
        assert 0 <= r % |ready| < |ready|;
        assert avail[ready[0]] > 0;
      }
    } else if mode == LRU {
      ScanChoice(a.lru, avail);
    } else if mode == FIXED {
      IdentityIsPermutation(|avail|);
      ScanChoice(Identity(|avail|), avail);
    } else if mode == ROUND_ROBIN {
      RotationIsPermutation(a.last, |avail|);
      ScanChoice(Rotation(a.last, |avail|), avail);
    } else if mode == FIFO && a.log != [] {
      assert a.log[0] in a.log;
    }
  }

  /** The round-robin decision, in cyclic order from the last served FIFO: every FIFO between
      that and the pick is empty. */
  lemma RoundRobinPicksNext(a: Arb, avail: seq<int>, f: int)
    requires a.Valid(|avail|) && 0 <= f < |avail|
    requires
      var c := Choose(a, ROUND_ROBIN, avail);
      && c != NONE
      && if c > a.last then a.last < f < c else f > a.last || f < c
    ensures 0 <= Choose(a, ROUND_ROBIN, avail) < |avail| && avail[Choose(a, ROUND_ROBIN, avail)] > 0
    ensures avail[f] <= 0
  {
    RotationIsPermutation(a.last, |avail|);
    ScanChoice(Rotation(a.last, |avail|), avail);
  }

  // ---------------------------------------------------------------------------
  // The random choice, in full and near-uniform
  // ---------------------------------------------------------------------------

  /** The RAND decision in full. The non-empty FIFOs are listed in increasing order; the byte is
      bits 0, 4, ... 28 of the register as a binary number, negated modulo 256 if the register is
      negative; and the pick is the entry at that byte modulo the number of entries. */
  lemma RandChoice(a: Arb, avail: seq<int>, ready: seq<int>)
    requires a.Valid(|avail|) && ready != []
    requires forall f :: 0 <= f < |avail| ==> (f in ready <==> avail[f] > 0)
    requires forall i :: 0 <= i < |ready| ==> 0 <= ready[i] < |avail|
    requires forall i, j :: 0 <= i < j < |ready| ==> ready[i] < ready[j]
    ensures
      var r := a.lfsr;
      var bits := r % 2 + 2 * (r / 0x10 % 2) + 4 * (r / 0x100 % 2) + 8 * (r / 0x1000 % 2)
                + 16 * (r / 0x1_0000 % 2) + 32 * (r / 0x10_0000 % 2) + 64 * (r / 0x100_0000 % 2)
                + 128 * (r / 0x1000_0000 % 2);
      var b := if r >= 0 || bits == 0 then bits else 256 - bits;
      0 <= b < 256 && Choose(a, RAND, avail) == ready[b % |ready|]
  {
    ReadyListIs(avail, ready);
    Lfsr.ByteInFull(a.lfsr);
  }

  /** The list of non-empty FIFOs is the only increasing one. */
  lemma ReadyListIs(avail: seq<int>, ready: seq<int>)
    requires forall f :: 0 <= f < |avail| ==> (f in ready <==> avail[f] > 0)
    requires forall i :: 0 <= i < |ready| ==> 0 <= ready[i] < |avail|
    requires forall i, j :: 0 <= i < j < |ready| ==> ready[i] < ready[j]
    ensures ready == ReadyList(avail)
  {
    ReadyIncreasing(avail, |avail|);
    forall f | 0 <= f < |avail| ensures f in ReadyList(avail) <==> f in ready {
      ReadyUpToHas(avail, |avail|, f);
    }
    var list := ReadyList(avail);
    forall x | x in list ensures x in ready {
      var i :| 0 <= i < |list| && list[i] == x;
    }
    forall x | x in ready ensures x in list {
      var i :| 0 <= i < |ready| && ready[i] == x;
    }
    SameIncreasing(ready, list);
  }

  lemma {:induction false} SameIncreasing(s: seq<int>, t: seq<int>)
    requires forall i, j :: 0 <= i < j < |s| ==> s[i] < s[j]
    requires forall i, j :: 0 <= i < j < |t| ==> t[i] < t[j]
    requires forall x :: x in s <==> x in t
    ensures s == t
  {
    assert s != [] ==> s[0] in s && s[0] in t;
    assert t != [] ==> t[0] in t && t[0] in s;
    if s != [] {
      assert s[0] == t[0];
      forall x ensures x in s[1..] <==> x in t[1..] {
        assert x in s[1..] <==> x in s && x != s[0];
        assert x in t[1..] <==> x in t && x != t[0];
      }
      SameIncreasing(s[1..], t[1..]);
    }
  }

  /** How many of the byte values 0..m-1 make choose_rand return f. */
  function CountChoosing(m: nat, avail: seq<int>, f: int): nat {
    if m == 0 then 0 else
      CountChoosing(m - 1, avail, f) + (if ChooseRandom(m - 1, avail) == f then 1 else 0)
  }

  /** With k non-empty FIFOs, each of them is picked by floor(256/k) or ceil(256/k) of the
      256 byte values: the first 256 mod k in index order get the extra one. */
  lemma NearUniform(avail: seq<int>, j: nat)
    requires j < |ReadyList(avail)| && |avail| <= NONE
    ensures
      var k := |ReadyList(avail)|;
      CountChoosing(256, avail, ReadyList(avail)[j]) == 256 / k + if j < 256 % k then 1 else 0
  {
    CountResidue(256, avail, j);
  }

  lemma {:induction false} CountResidue(m: nat, avail: seq<int>, j: nat)
    requires j < |ReadyList(avail)|
    ensures
      var k := |ReadyList(avail)|;
      CountChoosing(m, avail, ReadyList(avail)[j]) == m / k + if j < m % k then 1 else 0
  {
    var ready := ReadyList(avail);
    var k := |ready|;
    if m == 0 {
      QuotientOf(0, k, 0, 0);
    } else {
      CountResidue(m - 1, avail, j);
      NextQuotient(m - 1, k);
      ReadyIncreasing(avail, |avail|);
      assert 0 <= (m - 1) % k < k;
      assert ChooseRandom(m - 1, avail) == ready[(m - 1) % k];
      assert ChooseRandom(m - 1, avail) == ready[j] <==> (m - 1) % k == j;
    }
  }

  lemma {:induction false} ReadyIncreasing(avail: seq<int>, m: nat)
    requires m <= |avail|
    ensures forall i, j :: 0 <= i < j < |ReadyUpTo(avail, m)| ==>
              ReadyUpTo(avail, m)[i] < ReadyUpTo(avail, m)[j]
  {
    if m > 0 {
      ReadyIncreasing(avail, m - 1);
    }
  }

  // ---------------------------------------------------------------------------
  // Serving
  // ---------------------------------------------------------------------------

  /** update_lru's shift: everything behind the first hit moves up, f goes last. When the
      char c matches nothing, no entry moves and the last one is overwritten. */
  function LruUpdate(lru: seq<int>, c: int): (r: seq<int>)
    requires lru != []
    ensures |r| == |lru|
  {
    (if c in lru then RemoveFirst(lru, c) else lru[..|lru| - 1]) + [ToByte(c)]
  }

  /** update_fifo on the live part of the log: the first entry equal to f goes; when there
      is none the count still drops, which loses the newest entry. */
  function LogUpdate(log: seq<int>, f: int): (r: seq<int>)
    requires log != []
    ensures |r| == |log| - 1
  {
    if f in log then RemoveFirst(log, f) else log[..|log| - 1]
  }

  /** `update`: all four pieces of state after FIFO f has been served, whatever the mode. */
  function Served(a: Arb, f: int): Arb
    requires a.lru != [] && a.log != []
  {
    var c := ToChar(f);
    Arb(Lfsr.Next(a.lfsr), LruUpdate(a.lru, c), LogUpdate(a.log, ToByte(c)), c)
  }

  lemma MoveToBack(lru: seq<int>, f: int, n: nat)
    requires IsPermutation(lru, n) && 0 <= f < n <= MAX_FIFOS
    ensures LruUpdate(lru, ToChar(f)) == Moved(lru, FirstIndex(lru, f))
    ensures IsPermutation(LruUpdate(lru, ToChar(f)), n)
  {
    RemoveFirstAt(lru, f, FirstIndex(lru, f));
    MovedIsPermutation(lru, FirstIndex(lru, f), n);
  }

  /** The list with its k-th entry moved to the back. */
  function Moved(lru: seq<int>, k: nat): (r: seq<int>)
    requires k < |lru|
    ensures |r| == |lru|
    ensures forall i :: 0 <= i < |lru| ==>
              r[i] == if i < k then lru[i] else if i < |lru| - 1 then lru[i + 1] else lru[k]
  {
    lru[..k] + lru[k + 1..] + [lru[k]]
  }

  lemma MovedIsPermutation(lru: seq<int>, k: nat, n: nat)
    requires k < n && IsPermutation(lru, n)
    ensures IsPermutation(Moved(lru, k), n)
  {
    var r := Moved(lru, k);
    forall g | 0 <= g < n ensures g in r {
      var i := FirstIndex(lru, g);
      assert r[if i < k then i else if i == k then n - 1 else i - 1] == g;
    }
  }

  lemma ServedIsValid(a: Arb, f: int, n: nat)
    requires a.Valid(n) && 0 <= f < n && a.log != []
    ensures Served(a, f).Valid(n)
  {
    MoveToBack(a.lru, f, n);
  }

  /** Within the limit the conversions cancel, and serving removes f's first log entry. */
  lemma ServedLog(a: Arb, f: int, n: nat)
    requires a.Valid(n) && 0 <= f < n && f in a.log
    ensures Served(a, f).log == RemoveFirst(a.log, f) && Served(a, f).last == f
    ensures Served(a, f).lru == LruUpdate(a.lru, f) && Served(a, f).lfsr == Lfsr.Next(a.lfsr)
  {
    assert ToChar(f) == f && ToByte(f) == f;
  }

  /** The recency list after these FIFOs have been served, from the initial list. */
  function LruAfter(n: nat, served: seq<int>): (r: seq<int>)
    requires n >= 1
    ensures |r| == n
  {
    if served == [] then Identity(n)
    else LruUpdate(LruAfter(n, served[..|served| - 1]), ToChar(served[|served| - 1]))
  }

  /** The limit of 128 FIFOs is exact, for any list and for the lists that services produce: in
      a larger arbiter, serving a FIFO that the conversion to char turns negative finds no entry
      to move, and overwrites one. */
  lemma LruSafeExactlyUpTo128(n: nat)
    requires 1 <= n <= NONE
    ensures n <= MAX_FIFOS <==>
            forall lru: seq<int>, f :: IsPermutation(lru, n) && 0 <= f < n ==>
              IsPermutation(LruUpdate(lru, ToChar(f)), n)
    ensures n <= MAX_FIFOS <==>
            forall served: seq<int> :: Indices(served, n) ==> IsPermutation(LruAfter(n, served), n)
  {
    if n <= MAX_FIFOS {
      forall lru: seq<int>, f | IsPermutation(lru, n) && 0 <= f < n
        ensures IsPermutation(LruUpdate(lru, ToChar(f)), n)
      {
        MoveToBack(lru, f, n);
      }
      forall served: seq<int> | Indices(served, n) ensures IsPermutation(LruAfter(n, served), n) {
        LruStaysSafe(n, served);
      }
    } else {
      LongRotation(n);
      FirstServed(n);
      EntryLost(n);
      assert Indices([0, 128], n);
    }
  }

  lemma {:induction false} LruStaysSafe(n: nat, served: seq<int>)
    requires 1 <= n <= MAX_FIFOS && Indices(served, n)
    ensures IsPermutation(LruAfter(n, served), n)
    decreases |served|
  {
    if served == [] {
      IdentityIsPermutation(n);
    } else {
      var before := served[..|served| - 1];
      LruStaysSafe(n, before);
      MoveToBack(LruAfter(n, before), served[|served| - 1], n);
    }
  }

  lemma LongRotation(n: nat)
    requires MAX_FIFOS < n <= NONE
    ensures IsPermutation(Rotation(0, n), n)
    ensures forall i :: 0 <= i < n ==> Rotation(0, n)[i] == if i == n - 1 then 0 else i + 1
  {
    var r := Rotation(0, n);
    forall i | 0 <= i < n ensures r[i] == if i == n - 1 then 0 else i + 1 {
      assert (0 + 1 + i) % Lfsr.WORD == 1 + i;
      WrapOnce(1 + i, n);
    }
    forall f | 0 <= f < n ensures f in r {
      assert r[if f == 0 then n - 1 else f - 1] == f;
    }
  }

  /** One service of FIFO 0 produces the list that the next one breaks. */
  lemma FirstServed(n: nat)
    requires MAX_FIFOS < n <= NONE
    ensures LruUpdate(Identity(n), ToChar(0)) == Rotation(0, n)
  {
    LongRotation(n);
    assert Identity(n)[0] == 0;
    assert RemoveFirst(Identity(n), 0) == Identity(n)[1..];
  }

  lemma EntryLost(n: nat)
    requires MAX_FIFOS < n <= NONE
    ensures !IsPermutation(LruUpdate(Rotation(0, n), ToChar(128)), n)
    ensures LruAfter(n, [0, 128]) == LruUpdate(Rotation(0, n), ToChar(128))
  {
    LongRotation(n);
    var r := LruUpdate(Rotation(0, n), ToChar(128));
    assert r[127] == 128 == r[n - 1];
    FirstServed(n);
    assert [0, 128][..1] == [0] && [0][..0] == [];
    assert LruAfter(n, [0]) == LruUpdate(LruAfter(n, []), ToChar(0));
  }

  // ---------------------------------------------------------------------------
  // Recency
  // ---------------------------------------------------------------------------

  /** When f was last served, as a position in the service history; -1 for never. */
  function LastServed(served: seq<int>, f: int): (t: int)
    ensures -1 <= t < |served|
  {
    if served == [] then -1
    else if served[|served| - 1] == f then |served| - 1
    else LastServed(served[..|served| - 1], f)
  }

  lemma {:induction false} LastServedIs(served: seq<int>, f: int)
    ensures
      var t := LastServed(served, f);
      if t == -1 then f !in served
      else served[t] == f && forall i :: t < i < |served| ==> served[i] != f
  {
    if served != [] && served[|served| - 1] != f {
      LastServedIs(served[..|served| - 1], f);
      assert served == served[..|served| - 1] + [served[|served| - 1]];
    }
  }

  /** f has gone without service longer than g: never-served FIFOs first, in index order. */
  predicate StalerThan(served: seq<int>, f: int, g: int) {
    var s, t := LastServed(served, f), LastServed(served, g);
    s < t || (s == -1 && t == -1 && f < g)
  }

  ghost predicate ByRecency(lru: seq<int>, served: seq<int>) {
    forall i, j :: 0 <= i < j < |lru| ==> StalerThan(served, lru[i], lru[j])
  }

  lemma StartByRecency(n: nat)
    ensures ByRecency(Identity(n), [])
  {
  }

  /** Serving f leaves the order of two other FIFOs alone and puts f behind every other. */
  lemma StalerKept(served: seq<int>, f: int, a: int, b: int)
    requires a != f && (b != f ==> StalerThan(served, a, b))
    ensures StalerThan(served + [f], a, b)
  {
    assert (served + [f])[..|served|] == served;
  }

  /** Two places of the moved list, as places of the list before. */
  lemma MovedPair(lru: seq<int>, k: nat, i: nat, j: nat) returns (i': nat, j': nat)
    requires k < |lru| && i < j < |lru|
    ensures i' < |lru| && i' != k && Moved(lru, k)[i] == lru[i']
    ensures j' < |lru| && Moved(lru, k)[j] == lru[j'] && (j' != k ==> i' < j')
  {
    i' := if i < k then i else i + 1;
    j' := if j == |lru| - 1 then k else if j < k then j else j + 1;
  }

  /** Serving keeps the recency list sorted by time of last service. */
  lemma ServeKeepsRecency(lru: seq<int>, served: seq<int>, f: int, n: nat)
    requires IsPermutation(lru, n) && ByRecency(lru, served) && 0 <= f < n <= MAX_FIFOS
    ensures ByRecency(LruUpdate(lru, ToChar(f)), served + [f])
  {
    MoveToBack(lru, f, n);
    var k := FirstIndex(lru, f);
    var r := Moved(lru, k);
    forall i, j | 0 <= i < j < n ensures StalerThan(served + [f], r[i], r[j]) {
      var i', j' := MovedPair(lru, k, i, j);
      StalerKept(served, f, lru[i'], lru[j']);
    }
  }

  /** choose_lru returns the non-empty FIFO that has gone longest without service. */
  lemma LruPicksStalest(lru: seq<int>, served: seq<int>, avail: seq<int>, f: int)
    requires IsPermutation(lru, |avail|) && |avail| <= NONE && ByRecency(lru, served)
    requires 0 <= f < |avail| && avail[f] > 0
    ensures
      var c := FirstReady(lru, avail);
      0 <= c < |avail| && avail[c] > 0 && (c == f || StalerThan(served, c, f))
  {
    ScanChoice(lru, avail);
    var c := FirstReady(lru, avail);
    var i, j := FirstIndex(lru, c), FirstIndex(lru, f);
    assert lru[i] == c && lru[j] == f;
  }

  // ---------------------------------------------------------------------------
  // Bounded waiting
  // ---------------------------------------------------------------------------

  /** How many other FIFOs may still be served before f, in a fair mode. */
  function Rank(mode: int, a: Arb, f: int, n: nat): (r: nat)
    requires a.Valid(n) && 0 <= f < n && (mode == LRU || mode == ROUND_ROBIN)
    ensures r < n
  {
    if mode == LRU then FirstIndex(a.lru, f) else TurnsAway(a.last, f, n)
  }

  /** A fair mode picks a FIFO at least as close to its turn as any ready one. */
  lemma FairChoice(mode: int, a: Arb, avail: seq<int>, f: int)
    requires a.Valid(|avail|) && (mode == LRU || mode == ROUND_ROBIN)
    requires 0 <= f < |avail| && avail[f] > 0
    ensures
      var c := Choose(a, mode, avail);
      && 0 <= c < |avail| && avail[c] > 0
      && (c != f ==> Rank(mode, a, c, |avail|) < Rank(mode, a, f, |avail|))
  {
    if mode == LRU {
      ScanChoice(a.lru, avail);
      var c := Choose(a, mode, avail);
      if c != f {
        DistinctRanks(a.lru, c, f, |avail|);
      }
    } else {
      RotationIsPermutation(a.last, |avail|);
      ScanChoice(Rotation(a.last, |avail|), avail);
    }
  }

  lemma DistinctRanks(s: seq<int>, f: int, g: int, n: nat)
    requires IsPermutation(s, n) && 0 <= f < n && 0 <= g < n && f != g
    ensures FirstIndex(s, f) != FirstIndex(s, g)
  {
    assert s[FirstIndex(s, f)] == f;
  }

  /** Serving another FIFO that was ahead of f brings f strictly closer to its turn. */
  lemma WaitShrinks(mode: int, a: Arb, c: int, f: int, n: nat)
    requires a.Valid(n) && a.log != [] && (mode == LRU || mode == ROUND_ROBIN)
    requires 0 <= c < n && 0 <= f < n && c != f
    requires Rank(mode, a, c, n) < Rank(mode, a, f, n)
    ensures Served(a, c).Valid(n)
    ensures Rank(mode, Served(a, c), f, n) < Rank(mode, a, f, n)
  {
    ServedIsValid(a, c, n);
    if mode == LRU {
      MoveToBack(a.lru, c, n);
      var r := Served(a, c).lru;
      assert r[FirstIndex(a.lru, f) - 1] == f;
    }
  }
}
