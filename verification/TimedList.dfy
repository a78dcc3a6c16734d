/** The payload event queue: a time-ordered linked list with a free list, and the loop of
    `fec` that delivers what is due. */
module TimedLists {
  import opened Lists

  datatype Entry<P> = Entry(payload: P, time: nat, delta: nat)

  /** sc_time is an unsigned 64-bit count of the time resolution. */
  const TIME: int := 0x1_0000_0000_0000_0000

  /** The difference of two of them. */
  function Minus(a: nat, b: nat): int { if a >= b then a - b else a - b + TIME }

  // ---------------------------------------------------------------------------
  // What the list stands for
  // ---------------------------------------------------------------------------

  ghost predicate SortedByTime<P>(s: seq<Entry<P>>) {
    forall i, j :: 0 <= i < j < |s| ==> s[i].time <= s[j].time
  }

  /** Insertion behind every entry that is not later. */
  function Insert<P>(s: seq<Entry<P>>, e: Entry<P>): (r: seq<Entry<P>>)
    ensures |r| == |s| + 1
  {
    if s == [] || s[0].time > e.time then [e] + s else [s[0]] + Insert(s[1..], e)
  }

  /** Insertion adds its entry and keeps every other one, the delta stamps included. */
  lemma {:induction false} InsertAdds<P>(s: seq<Entry<P>>, e: Entry<P>)
    ensures multiset(Insert(s, e)) == multiset(s) + multiset{e}
  {
    if s != [] && s[0].time <= e.time {
      InsertAdds(s[1..], e);
      assert s == [s[0]] + s[1..];
    }
  }

  /** The payloads due at time t, in list order. */
  function DueAt<P>(s: seq<Entry<P>>, t: nat): seq<P> {
    if s == [] then [] else (if s[0].time == t then [s[0].payload] else []) + DueAt(s[1..], t)
  }

  lemma {:induction false} InsertAtIndex<P>(s: seq<Entry<P>>, e: Entry<P>, k: nat)
    requires k <= |s| && (forall i :: 0 <= i < k ==> s[i].time <= e.time)
    requires k < |s| ==> s[k].time > e.time
    ensures Insert(s, e) == Splice(s, k, e)
  {
    if k == 0 {
      assert [e] + s == Splice(s, 0, e);
    } else {
      InsertAtIndex(s[1..], e, k - 1);
      assert [s[0]] + Splice(s[1..], k - 1, e) == Splice(s, k, e);
    }
  }

  lemma {:induction false} InsertSorted<P>(s: seq<Entry<P>>, e: Entry<P>)
    requires SortedByTime(s)
    ensures SortedByTime(Insert(s, e))
    ensures forall i :: 0 <= i < |Insert(s, e)| ==> Insert(s, e)[i] == e || Insert(s, e)[i] in s
  {
    if s != [] && s[0].time <= e.time {
      InsertSorted(s[1..], e);
      var r := Insert(s[1..], e);
      forall i | 0 <= i < |r| ensures r[i] in s || r[i] == e {
      }
      assert Insert(s, e) == [s[0]] + r;
    }
  }

  /** The list is one first-in first-out queue per time: inserting appends to the queue of the
      entry's own time and leaves every other time's queue alone. */
  lemma {:induction false} InsertIsStable<P>(s: seq<Entry<P>>, e: Entry<P>, t: nat)
    requires SortedByTime(s)
    ensures DueAt(Insert(s, e), t) == if t == e.time then DueAt(s, t) + [e.payload] else DueAt(s, t)
  {
    if s == [] || s[0].time > e.time {
      assert ([e] + s)[1..] == s;
      if t == e.time {
        NothingDue(s, t);
      }
    } else {
      var r := [s[0]] + Insert(s[1..], e);
      assert r[1..] == Insert(s[1..], e);
      InsertIsStable(s[1..], e, t);
    }
  }

  lemma {:induction false} NothingDue<P>(s: seq<Entry<P>>, t: nat)
    requires forall i :: 0 <= i < |s| ==> s[i].time > t
    ensures DueAt(s, t) == []
  {
    if s != [] {
      NothingDue(s[1..], t);
    }
  }

  function InsertAll<P>(s: seq<Entry<P>>, es: seq<Entry<P>>): (r: seq<Entry<P>>)
    ensures |r| == |s| + |es|
    decreases |es|
  {
    if es == [] then s else InsertAll(Insert(s, es[0]), es[1..])
  }

  ghost predicate Later<P>(es: seq<Entry<P>>, now: nat) {
    forall i :: 0 <= i < |es| ==> es[i].time > now
  }

  lemma {:induction false} InsertAllEffect<P>(s: seq<Entry<P>>, es: seq<Entry<P>>, t: nat)
    requires SortedByTime(s)
    ensures SortedByTime(InsertAll(s, es))
    ensures DueAt(InsertAll(s, es), t) == DueAt(s, t) + DueAt(es, t)
    decreases |es|
  {
    if es == [] {
      assert DueAt(s, t) + [] == DueAt(s, t);
    } else {
      InsertSorted(s, es[0]);
      InsertIsStable(s, es[0], t);
      InsertAllEffect(Insert(s, es[0]), es[1..], t);
      var x := if es[0].time == t then [es[0].payload] else [];
      assert DueAt(s, t) + [] == DueAt(s, t);
      Regroup(DueAt(s, t), x, DueAt(es[1..], t));
    }
  }

  lemma Regroup<P>(a: seq<P>, b: seq<P>, c: seq<P>)
    ensures (a + b) + c == a + (b + c)
  {
  }

  /** Insertions later than the head do not move it. */
  lemma {:induction false} InsertAllBehind<P>(s: seq<Entry<P>>, es: seq<Entry<P>>)
    requires s != [] && Later(es, s[0].time)
    ensures InsertAll(s, es) == [s[0]] + InsertAll(s[1..], es)
    decreases |es|
  {
    if es == [] {
      assert s == [s[0]] + s[1..];
    } else {
      var s' := Insert(s, es[0]);
      assert s'[1..] == Insert(s[1..], es[0]);
      InsertAllBehind(s', es[1..]);
    }
  }

  /** The loop of `fec` at time `now`: while the head is due, its callback runs and the head is
      deleted. `react` says what a callback inserts, given everything delivered so far with its
      own payload last. */
  datatype Delivery<P> = Delivery(delivered: seq<P>, rest: seq<Entry<P>>)

  ghost predicate Reacts<P(!new)>(react: seq<P> -> seq<Entry<P>>, now: nat) {
    forall h :: Later(react(h), now)
  }

  ghost function Deliver<P(!new)>(s: seq<Entry<P>>, now: nat, done: seq<P>, react: seq<P> -> seq<Entry<P>>): Delivery<P>
    requires SortedByTime(s) && Reacts(react, now)
    decreases |DueAt(s, now)|
  {
    if s == [] || s[0].time != now then Delivery([], s)
    else
      var h := done + [s[0].payload];
      DeleteTop(s, now, react(h));
      var d := Deliver(InsertAll(s, react(h))[1..], now, h, react);
      Delivery([s[0].payload] + d.delivered, d.rest)
  }

  lemma DeleteTop<P>(s: seq<Entry<P>>, now: nat, es: seq<Entry<P>>)
    requires SortedByTime(s) && Later(es, now) && s != [] && s[0].time == now
    ensures InsertAll(s, es)[0] == s[0]
    ensures
      var s' := InsertAll(s, es)[1..];
      && SortedByTime(s') && s' == InsertAll(s[1..], es)
      && DueAt(s', now) == DueAt(s[1..], now)
  {
    InsertAllBehind(s, es);
    InsertAllEffect(s[1..], es, now);
    NothingDue(es, now);
    assert DueAt(s[1..], now) + [] == DueAt(s[1..], now);
  }

  /** What the callbacks of ps, delivered after `done`, inserted for time t. */
  ghost function Replies<P(!new)>(done: seq<P>, ps: seq<P>, react: seq<P> -> seq<Entry<P>>, t: nat): seq<P>
    decreases |ps|
  {
    if ps == [] then []
    else DueAt(react(done + [ps[0]]), t) + Replies(done + [ps[0]], ps[1..], react, t)
  }

  ghost predicate NonePast<P>(s: seq<Entry<P>>, now: nat) {
    forall i :: 0 <= i < |s| ==> s[i].time >= now
  }

  /** If nothing is overdue, the loop delivers exactly the payloads due now, in insertion order,
      and leaves for every later time what was there followed by what the callbacks added. */
  lemma DeliversExactlyDue<P(!new)>(s: seq<Entry<P>>, now: nat, done: seq<P>, react: seq<P> -> seq<Entry<P>>, t: nat)
    requires SortedByTime(s) && Reacts(react, now) && NonePast(s, now) && t > now
    ensures
      var d := Deliver(s, now, done, react);
      && d.delivered == DueAt(s, now)
      && SortedByTime(d.rest) && (d.rest != [] ==> d.rest[0].time > now)
      && DueAt(d.rest, t) == DueAt(s, t) + Replies(done, d.delivered, react, t)
  {
    DeliversDue(s, now, done, react);
    KeepsLater(s, now, done, react, t);
  }

  /** One turn of the loop. */
  lemma Turn<P(!new)>(s: seq<Entry<P>>, now: nat, done: seq<P>, react: seq<P> -> seq<Entry<P>>, t: nat)
    returns (s': seq<Entry<P>>, h: seq<P>)
    requires SortedByTime(s) && Reacts(react, now) && NonePast(s, now)
    requires s != [] && s[0].time == now && t > now
    ensures h == done + [s[0].payload] && SortedByTime(s') && NonePast(s', now)
    ensures DueAt(s, now) == [s[0].payload] + DueAt(s', now)
    ensures DueAt(s', t) == DueAt(s, t) + DueAt(react(h), t)
    ensures
      var d := Deliver(s', now, h, react);
      Deliver(s, now, done, react) == Delivery([s[0].payload] + d.delivered, d.rest)
  {
    h := done + [s[0].payload];
    DeleteTop(s, now, react(h));
    s' := InsertAll(s, react(h))[1..];
    InsertAllNonePast(s[1..], react(h), now);
    InsertAllEffect(s[1..], react(h), t);
    assert DueAt(s, t) == DueAt(s[1..], t);
  }

  /** What the loop comes to when `done` has been delivered and s is left. */
  ghost function Outcome<P(!new)>(done: seq<P>, s: seq<Entry<P>>, now: nat, react: seq<P> -> seq<Entry<P>>): Delivery<P>
    requires SortedByTime(s) && Reacts(react, now)
  {
    var d := Deliver(s, now, done, react);
    Delivery(done + d.delivered, d.rest)
  }

  lemma OneDelivery<P(!new)>(done: seq<P>, s: seq<Entry<P>>, now: nat, react: seq<P> -> seq<Entry<P>>)
    requires SortedByTime(s) && Reacts(react, now) && s != [] && s[0].time == now
    ensures
      var h := done + [s[0].payload];
      var s' := InsertAll(s, react(h))[1..];
      SortedByTime(s') && Outcome(h, s', now, react) == Outcome(done, s, now, react)
  {
    var h := done + [s[0].payload];
    DeleteTop(s, now, react(h));
    Regroup(done, [s[0].payload], Deliver(InsertAll(s, react(h))[1..], now, h, react).delivered);
  }

  lemma RepliesCons<P(!new)>(done: seq<P>, p: P, ps: seq<P>, react: seq<P> -> seq<Entry<P>>, t: nat)
    ensures Replies(done, [p] + ps, react, t) == DueAt(react(done + [p]), t) + Replies(done + [p], ps, react, t)
  {
    assert ([p] + ps)[1..] == ps;
  }

  lemma {:induction false} DeliversDue<P(!new)>(s: seq<Entry<P>>, now: nat, done: seq<P>, react: seq<P> -> seq<Entry<P>>)
    requires SortedByTime(s) && Reacts(react, now) && NonePast(s, now)
    ensures
      var d := Deliver(s, now, done, react);
      d.delivered == DueAt(s, now) && SortedByTime(d.rest) && (d.rest != [] ==> d.rest[0].time > now)
    decreases |DueAt(s, now)|
  {
    if s == [] || s[0].time != now {
      NothingDue(s, now);
    } else {
      var s', h := Turn(s, now, done, react, now + 1);
      DeliversDue(s', now, h, react);
    }
  }

  lemma {:induction false} KeepsLater<P(!new)>(s: seq<Entry<P>>, now: nat, done: seq<P>, react: seq<P> -> seq<Entry<P>>, t: nat)
    requires SortedByTime(s) && Reacts(react, now) && NonePast(s, now) && t > now
    ensures
      var d := Deliver(s, now, done, react);
      DueAt(d.rest, t) == DueAt(s, t) + Replies(done, d.delivered, react, t)
    decreases |DueAt(s, now)|
  {
    if s == [] || s[0].time != now {
      assert DueAt(s, t) + [] == DueAt(s, t);
    } else {
      var s', h := Turn(s, now, done, react, t);
      KeepsLater(s', now, h, react, t);
      var d := Deliver(s', now, h, react);
      RepliesCons(done, s[0].payload, d.delivered, react, t);
      Regroup(DueAt(s, t), DueAt(react(h), t), Replies(h, d.delivered, react, t));
    }
  }

  lemma {:induction false} InsertAllNonePast<P>(s: seq<Entry<P>>, es: seq<Entry<P>>, now: nat)
    requires SortedByTime(s) && NonePast(s, now) && Later(es, now)
    ensures NonePast(InsertAll(s, es), now)
    decreases |es|
  {
    if es != [] {
      InsertSorted(s, es[0]);
      InsertAllNonePast(Insert(s, es[0]), es[1..], now);
    }
  }

  /** The necessary half: an overdue head blocks the loop, which then delivers nothing, whatever
      is due behind it. */
  lemma OverdueBlocks<P(!new)>(s: seq<Entry<P>>, now: nat, done: seq<P>, react: seq<P> -> seq<Entry<P>>)
    requires SortedByTime(s) && Reacts(react, now) && s != []
    ensures Deliver(s, now, done, react).delivered == DueAt(s, now) <==> s[0].time >= now || DueAt(s, now) == []
    ensures s[0].time != now ==> Deliver(s, now, done, react) == Delivery([], s)
  {
    if s[0].time >= now {
      DeliversDue(s, now, done, react);
    }
  }

  // ---------------------------------------------------------------------------
  // The linked nodes
  // ---------------------------------------------------------------------------

  class Element<P> {
    var next: Element?<P>
    var p: P
    var t: nat
    var d: nat

    constructor (p: P)
      ensures this.next == null
    {
      this.next, this.p, this.t, this.d := null, p, 0, 0;
    }
  }

  ghost function EntriesOf<P>(s: seq<Element<P>>): (r: seq<Entry<P>>)
    reads s
    ensures |r| == |s|
    ensures forall i :: 0 <= i < |s| ==> r[i] == Entry(s[i].p, s[i].t, s[i].d)
  {
    seq(|s|, i requires 0 <= i < |s| reads s => Entry(s[i].p, s[i].t, s[i].d))
  }

  lemma SpliceEntries<P>(s: seq<Element<P>>, k: nat, e: Element<P>)
    requires k <= |s|
    ensures EntriesOf(Splice(s, k, e)) == Splice(EntriesOf(s), k, Entry(e.p, e.t, e.d))
  {
  }

  class TimeOrderedList<P(0, !new)> {
    const nill: Element<P>
    var empties: Element?<P>
    var list: Element<P>
    var size: nat
    ghost var items: seq<Element<P>>
    ghost var free: seq<Element<P>>
    ghost var nodes: set<Element<P>>

    /** Every node ever allocated is on the list or on the free list, never on both; `spare`
        holds the one node an insertion has in hand. */
    ghost predicate Holds(spare: set<Element<P>>)
      reads this, nodes`next
    {
      && nill !in nodes && spare <= nodes
      && Apart(items, free)
      && (forall x :: x in nodes ==> x in items || x in free || x in spare)
      && (forall x :: x in spare ==> x !in items && x !in free)
      && list == (if items == [] then nill else items[0])
      && empties == (if free == [] then null else free[0])
      && LinkedTo(items, nill) && LinkedTo(free, null)
      && size == |items|
    }

    ghost predicate Valid()
      reads this, nodes
    {
      Holds({}) && SortedByTime(Entries())
    }

    ghost predicate Apart(s: seq<Element<P>>, t: seq<Element<P>>)
      reads this
    {
      && (forall i :: 0 <= i < |s| ==> s[i] in nodes)
      && (forall i :: 0 <= i < |t| ==> t[i] in nodes)
      && Distinct(s) && Distinct(t)
      && (forall i, j :: 0 <= i < |s| && 0 <= j < |t| ==> s[i] != t[j])
    }

    ghost predicate LinkedTo(s: seq<Element<P>>, end: Element?<P>)
      reads s`next
    {
      forall i {:trigger s[i].next} :: 0 <= i < |s| ==> s[i].next == if i + 1 < |s| then s[i + 1] else end
    }

    ghost function Entries(): (r: seq<Entry<P>>)
      reads this, items
    {
      EntriesOf(items)
    }

    constructor (blank: P)
      ensures Valid() && Entries() == [] && fresh(nodes)
    {
      var n := new Element(blank);
      nill, list, empties, size := n, n, null, 0;
      items, free, nodes := [], [], {};
    }

    /** The node an insertion fills: from the free list, or a new one. */
    method TakeNode(p: P, t: nat, d: nat) returns (e: Element<P>)
      requires Valid()
      modifies this, nodes
      ensures Holds({e}) && Entries() == old(Entries()) && items == old(items)
      ensures e.p == p && e.t == t && e.d == d
      ensures nodes == old(nodes) + {e} && (old(free) == [] <==> fresh(e))
      ensures free == if old(free) == [] then [] else old(free)[1..]
    {
      if empties == null {
        e := new Element(p);
        nodes := nodes + {e};
      } else {
        e := PopFree();
      }
      Fill(e, p, t, d);
    }

    method Fill(e: Element<P>, p: P, t: nat, d: nat)
      requires Holds({e})
      modifies e`p, e`t, e`d
      ensures Holds({e}) && Entries() == old(Entries())
      ensures e.p == p && e.t == t && e.d == d
    {
      e.p, e.t, e.d := p, t, d;
    }

    method PopFree() returns (e: Element<P>)
      requires Holds({}) && free != []
      modifies this`empties, this`free
      ensures e == old(free)[0] && Holds({e}) && free == old(free)[1..]
    {
      e := empties;
      empties := empties.next;
      assert free == [free[0]] + free[1..];
      free := free[1..];
    }

    /** The scan: how many entries are not later than t, and the nodes around that place. */
    method FindPlace(ghost e: Element<P>, t: nat)
      returns (ancestor: Element<P>, iterator_: Element<P>, ghost k: nat)
      requires Holds({e})
      ensures k <= |items| && (forall i :: 0 <= i < k ==> items[i].t <= t)
      ensures k < |items| ==> items[k].t > t
      ensures ancestor == if k == 0 then nill else items[k - 1]
      ensures iterator_ == if k < |items| then items[k] else nill
    {
      ancestor, iterator_, k := nill, list, 0;
      while iterator_ != nill && iterator_.t <= t
        invariant k <= |items| && (forall i :: 0 <= i < k ==> items[i].t <= t)
        invariant ancestor == if k == 0 then nill else items[k - 1]
        invariant iterator_ == if k < |items| then items[k] else nill
        decreases |items| - k
      {
        ancestor := iterator_;
        iterator_ := iterator_.next;
        k := k + 1;
      }
    }

    /** Insertion links the node in behind every entry that is not later. */
    method InsertEntry(p: P, t: nat, d: nat)
      requires Valid()
      modifies this, nodes
      ensures Valid() && Entries() == Insert(old(Entries()), Entry(p, t, d))
      ensures old(nodes) <= nodes && fresh(nodes - old(nodes))
      ensures if old(free) == [] then |nodes| == |old(nodes)| + 1 && free == []
              else nodes == old(nodes) && free == old(free)[1..]
    {
      var e := TakeNode(p, t, d);
      InsertSorted(Entries(), Entry(p, t, d));
      PlaceNode(e);
    }

    method PlaceNode(e: Element<P>)
      requires Holds({e})
      modifies this`list, this`size, this`items, nodes`next
      ensures Holds({}) && Entries() == Insert(old(Entries()), Entry(e.p, e.t, e.d))
    {
      var ancestor, iterator_, k := FindPlace(e, e.t);
      ghost var spliced := InsertedNodes(e, k);
      LinkIn(e, ancestor, iterator_, k);
      OnlyLinksChanged(spliced);
    }

    /** Links may change; entries do not see them. */
    twostate lemma OnlyLinksChanged(s: seq<Element<P>>)
      requires forall x {:trigger x.p} :: x in s ==> x.p == old(x.p) && x.t == old(x.t) && x.d == old(x.d)
      requires items == s
      ensures Entries() == old(EntriesOf(s))
    {
    }

    /** The node sequence that spells the insertion. */
    lemma InsertedNodes(e: Element<P>, k: nat) returns (spliced: seq<Element<P>>)
      requires k <= |items| && (forall i :: 0 <= i < k ==> items[i].t <= e.t)
      requires k < |items| ==> items[k].t > e.t
      ensures spliced == Splice(items, k, e)
      ensures EntriesOf(spliced) == Insert(Entries(), Entry(e.p, e.t, e.d))
    {
      spliced := Splice(items, k, e);
      SpliceEntries(items, k, e);
      InsertAtIndex(Entries(), Entry(e.p, e.t, e.d), k);
    }

    method LinkIn(e: Element<P>, ancestor: Element<P>, iterator_: Element<P>, ghost k: nat)
      requires Holds({e}) && k <= |items|
      requires ancestor == if k == 0 then nill else items[k - 1]
      requires iterator_ == if k < |items| then items[k] else nill
      modifies this`list, this`size, this`items, nodes`next
      ensures Holds({}) && items == Splice(old(items), k, e)
    {
      SpliceApart(e, k);
      Relink(e, ancestor, iterator_, k, Splice(items, k, e));
      size := size + 1;
      items := Splice(items, k, e);
    }

    method Relink(e: Element<P>, ancestor: Element<P>, iterator_: Element<P>, ghost k: nat,
                  ghost spliced: seq<Element<P>>)
      requires Holds({e}) && k <= |items| && spliced == Splice(items, k, e)
      requires ancestor == if k == 0 then nill else items[k - 1]
      requires iterator_ == if k < |items| then items[k] else nill
      modifies this`list, e`next, (if ancestor == nill then {} else {ancestor})`next
      ensures LinkedTo(spliced, nill) && LinkedTo(free, null) && list == spliced[0]
    {
      if ancestor == nill {
        e.next := list;
        list := e;
      } else {
        e.next := iterator_;
        ancestor.next := e;
      }
      forall i | 0 <= i < |spliced|
        ensures spliced[i].next == if i + 1 < |spliced| then spliced[i + 1] else nill
      {
        assert i == k || spliced[i].next == items[if i < k then i else i - 1].next;
      }
    }

    lemma SpliceApart(e: Element<P>, k: nat)
      requires Holds({e}) && k <= |items|
      ensures Apart(Splice(items, k, e), free)
      ensures forall x :: x in Splice(items, k, e) <==> x in items || x == e
    {
      SpliceMembers(items, k, e);
    }

    lemma HeadApart()
      requires Holds({}) && items != []
      ensures Apart(items[1..], [items[0]] + free)
      ensures forall x :: x in items || x in free <==> x in items[1..] || x in [items[0]] + free
    {
      assert items == [items[0]] + items[1..];
      DistinctCons(items[0], free);
    }

    method DeleteTopEntry()
      requires Valid()
      modifies this, nodes`next
      ensures Valid() && nodes == old(nodes)
      ensures Entries() == if old(Entries()) == [] then [] else old(Entries())[1..]
    {
      if list != nill {
        assert EntriesOf(items[1..]) == Entries()[1..];
        MoveTop();
      }
    }

    /** The head node goes from the list to the free list. */
    method MoveTop()
      requires Holds({}) && items != []
      modifies this, list`next
      ensures Holds({}) && nodes == old(nodes)
      ensures items == old(items)[1..] && free == [old(items)[0]] + old(free)
    {
      ghost var s, f := items[1..], [items[0]] + free;
      HeadApart();
      FreeTop(s, f);
      items, free := s, f;
    }

    method FreeTop(ghost s: seq<Element<P>>, ghost f: seq<Element<P>>)
      requires Holds({}) && items != [] && s == items[1..] && f == [items[0]] + free
      modifies this`list, this`empties, this`size, list`next
      ensures list == (if s == [] then nill else s[0]) && empties == f[0] && size == |s|
      ensures LinkedTo(s, nill) && LinkedTo(f, null)
    {
      var e := list;
      list := list.next;
      e.next := empties;
      empties := e;
      size := size - 1;
    }

    /** reset: empties the list node by node. */
    method Reset()
      requires Valid()
      modifies this, nodes
      ensures Valid() && nodes == old(nodes) && Entries() == []
    {
      while size > 0
        invariant Valid() && nodes == old(nodes)
        decreases size
      {
        DeleteTopEntry();
      }
    }

    /** What one callback inserts. */
    method NotifyAll(es: seq<Entry<P>>)
      requires Valid()
      modifies this, nodes
      ensures Valid() && Entries() == InsertAll(old(Entries()), es)
      ensures old(nodes) <= nodes && fresh(nodes - old(nodes))
    {
      for i := 0 to |es|
        invariant Valid() && old(nodes) <= nodes && fresh(nodes - old(nodes))
        invariant InsertAll(Entries(), es[i..]) == InsertAll(old(Entries()), es)
      {
        assert es[i..][1..] == es[i + 1..];
        InsertEntry(es[i].payload, es[i].time, es[i].delta);
      }
    }

    /** The timed part of `fec`. The result is the payloads whose callbacks ran and the delay
        after which the event is notified again, if anything is left: an unsigned difference,
        which wraps around for an overdue head. */
    method Fec(now: nat, react: seq<P> -> seq<Entry<P>>) returns (delivered: seq<P>, renotify: int)
      requires Valid() && Reacts(react, now)
      modifies this, nodes
      ensures Valid() && old(nodes) <= nodes && fresh(nodes - old(nodes))
      ensures Delivery(delivered, Entries()) == Deliver(old(Entries()), now, [], react)
      ensures Entries() != [] ==> renotify == Minus(Entries()[0].time, now)
    {
      delivered, renotify := [], 0;
      if size == 0 {
        return;
      }
      delivered := DeliverDue(now, react);
      renotify := DelayOfTop(now);
    }

    /** top_time() - now, if there is a top. */
    method DelayOfTop(now: nat) returns (delay: int)
      requires Valid() && |Entries()| == size
      ensures Entries() != [] ==> delay == Minus(Entries()[0].time, now)
    {
      delay := 0;
      if size > 0 {
        assert list.t == Entries()[0].time;
        delay := Minus(list.t, now);
      }
    }

    /** The loop of `fec`. */
    method DeliverDue(now: nat, react: seq<P> -> seq<Entry<P>>) returns (delivered: seq<P>)
      requires Valid() && Reacts(react, now) && Entries() != []
      modifies this, nodes
      ensures Valid() && old(nodes) <= nodes && fresh(nodes - old(nodes)) && |Entries()| == size
      ensures Delivery(delivered, Entries()) == Deliver(old(Entries()), now, [], react)
      ensures size > 0 ==> list.t == Entries()[0].time
    {
      delivered := [];
      var top := list.t;
      while size > 0 && top == now
        invariant Valid() && old(nodes) <= nodes && fresh(nodes - old(nodes))
        invariant size > 0 ==> top == list.t == Entries()[0].time
        invariant |Entries()| == size
        invariant Outcome(delivered, Entries(), now, react) == Deliver(old(Entries()), now, [], react)
        decreases |DueAt(Entries(), now)|
      {
        OneDelivery(delivered, Entries(), now, react);
        var payload := DeliverTop(now, delivered, react);
        delivered := delivered + [payload];
        top := list.t;
      }
    }

    /** The callback of the head, then the deletion of the head. */
    method DeliverTop(now: nat, done: seq<P>, react: seq<P> -> seq<Entry<P>>) returns (payload: P)
      requires Valid() && Reacts(react, now) && Entries() != [] && Entries()[0].time == now
      modifies this, nodes
      ensures Valid() && old(nodes) <= nodes && fresh(nodes - old(nodes)) && |Entries()| == size
      ensures size > 0 ==> list.t == Entries()[0].time
      ensures payload == old(Entries())[0].payload
      ensures Entries() == InsertAll(old(Entries()), react(done + [payload]))[1..]
      ensures |DueAt(Entries(), now)| < |DueAt(old(Entries()), now)|
    {
      payload := list.p;
      DeleteTop(Entries(), now, react(done + [payload]));
      NotifyAll(react(done + [payload]));
      DeleteTopEntry();
    }
  }

  /** Of 64-bit times it is the difference modulo 2^64: exact if the head is not overdue, and a
      whole turn of the 64-bit time too much otherwise. */
  lemma RenotifyExact(time: nat, now: nat)
    requires time < TIME && now < TIME
    ensures Minus(time, now) == (time - now) % TIME
    ensures Minus(time, now) == time - now <==> time >= now
  {
  }

  // ---------------------------------------------------------------------------
  // The delta lists
  // ---------------------------------------------------------------------------

  /** Callbacks insert nothing after this many deliveries. */
  ghost predicate Silent<P(!new)>(react: seq<P> -> seq<P>, last: nat) {
    forall h :: |h| > last ==> react(h) == []
  }

  /** A growing vector read from the front; both ends restart at reset. */
  class DeltaList<P(0, !new)> {
    var entries: array<P>
    var size: nat
    var out: nat

    ghost predicate Valid()
      reads this
    {
      out <= size <= entries.Length && entries.Length >= 1
    }

    /** What `next` and `get` have still to return. */
    ghost function Pending(): seq<P>
      reads this, entries
      requires Valid()
    {
      entries[out..size]
    }

    constructor (blank: P)
      ensures Valid() && Pending() == [] && fresh(entries) && entries.Length == 100
    {
      entries := new P[100](_ => blank);
      size, out := 0, 0;
    }

    method InsertPayload(p: P)
      requires Valid()
      modifies this, entries
      ensures Valid() && Pending() == old(Pending()) + [p] && out == old(out)
      ensures if old(size) < old(entries.Length) then entries == old(entries)
              else fresh(entries) && entries.Length == 2 * old(entries.Length)
    {
      if size == entries.Length {
        var bigger := new P[entries.Length * 2](_ => p);
        forall i | 0 <= i < entries.Length {
          bigger[i] := entries[i];
        }
        entries := bigger;
      }
      entries[size] := p;
      size := size + 1;
    }

    method Get() returns (p: P)
      requires Valid() && Pending() != []
      modifies this`out
      ensures Valid() && [p] + Pending() == old(Pending())
    {
      p := entries[out];
      out := out + 1;
    }

    method Clear()
      requires Valid()
      modifies this`size, this`out
      ensures Valid() && Pending() == []
    {
      size, out := 0, 0;
    }

    method InsertEach(ps: seq<P>)
      requires Valid()
      modifies this, entries
      ensures Valid() && Pending() == old(Pending()) + ps && out == old(out)
      ensures entries == old(entries) || fresh(entries)
    {
      for i := 0 to |ps|
        invariant Valid() && Pending() == old(Pending()) + ps[..i] && out == old(out)
        invariant entries == old(entries) || fresh(entries)
      {
        InsertPayload(ps[i]);
        Regroup(old(Pending()), ps[..i], [ps[i]]);
        assert ps[..i] + [ps[i]] == ps[..i + 1];
      }
      assert ps[..|ps|] == ps;
    }

    /** A loop of `fec` over a vector its callbacks may insert into, as they may into the one of
        the immediate notifications. The loop ends once they stop: `last` bounds the deliveries
        that still make one insert. */
    method Drain(react: seq<P> -> seq<P>, ghost last: nat) returns (delivered: seq<P>)
      requires Valid() && Silent(react, last)
      modifies this, entries
      ensures Valid() && Pending() == []
      ensures delivered == old(Pending()) + Answers(delivered, react)
    {
      delivered := [];
      while out < size
        invariant Valid() && (entries == old(entries) || fresh(entries))
        invariant delivered + Pending() == old(Pending()) + Answers(delivered, react)
        decreases if |delivered| <= last then last + 1 - |delivered| else 0, |Pending()|
      {
        var p := DeliverNext(delivered, react, old(Pending()));
        delivered := delivered + [p];
      }
      Clear();
    }

    /** One callback, and what it inserts. */
    method DeliverNext(done: seq<P>, react: seq<P> -> seq<P>, ghost start: seq<P>) returns (p: P)
      requires Valid() && Pending() != [] && done + Pending() == start + Answers(done, react)
      modifies this, entries
      ensures Valid() && (entries == old(entries) || fresh(entries))
      ensures (done + [p]) + Pending() == start + Answers(done + [p], react)
      ensures |Pending()| == |old(Pending())| - 1 + |react(done + [p])|
    {
      ghost var was := Pending();
      p := Get();
      InsertEach(react(done + [p]));
      AnswersStep(done, p, react);
      Shifted(done, p, was, Pending(), react(done + [p]), start, Answers(done, react));
    }
  }

  lemma Shifted<P>(before: seq<P>, p: P, was: seq<P>, now: seq<P>, r: seq<P>, start: seq<P>, answers: seq<P>)
    requires was != [] && p == was[0] && now == was[1..] + r && before + was == start + answers
    ensures (before + [p]) + now == start + (answers + r)
  {
    assert was == [p] + was[1..];
    calc {
      (before + [p]) + now;
      (before + ([p] + was[1..])) + r;
      start + (answers + r);
    }
  }

  /** Everything the callbacks of a list of deliveries inserted, in order. */
  function Answers<P>(delivered: seq<P>, react: seq<P> -> seq<P>): seq<P> {
    if delivered == [] then [] else Answers(delivered[..|delivered| - 1], react) + react(delivered)
  }

  lemma AnswersStep<P>(delivered: seq<P>, p: P, react: seq<P> -> seq<P>)
    ensures Answers(delivered + [p], react) == Answers(delivered, react) + react(delivered + [p])
  {
    assert (delivered + [p])[..|delivered|] == delivered;
  }
}
