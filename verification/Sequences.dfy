/** Sequence facts shared by the models: in-place removal, and a source-tagged
    packet queue seen through one source at a time. */
module Sequences {

  /** A packet as the network carries it. The benchmarking field is not modelled. */
  datatype Packet = Packet(address: nat, data: int)

  /** A packet together with the number of the FIFO it went through. */
  datatype Tagged = Tagged(src: nat, packet: Packet)

  /** s without the first occurrence of x; s itself when there is none. */
  function RemoveFirst(s: seq<int>, x: int): (r: seq<int>)
    ensures |r| == if x in s then |s| - 1 else |s|
  {
    if s == [] then [] else if s[0] == x then s[1..] else [s[0]] + RemoveFirst(s[1..], x)
  }

  /** RemoveFirst is what an in-place left shift from the first hit computes. */
  lemma {:induction false} RemoveFirstAt(s: seq<int>, x: int, k: nat)
    requires k < |s| && s[k] == x && x !in s[..k]
    ensures RemoveFirst(s, x) == s[..k] + s[k + 1..]
  {
    if k > 0 {
      assert s[0] == s[..k][0];
      assert s[1..][..k - 1] == s[..k][1..];
      RemoveFirstAt(s[1..], x, k - 1);
    }
  }

  /** The same, element by element. */
  lemma ShiftedLeft(s: seq<int>, x: int, k: nat, r: seq<int>)
    requires k < |s| && s[k] == x && x !in s[..k] && |r| == |s| - 1
    requires forall j :: 0 <= j < k ==> r[j] == s[j]
    requires forall j :: k <= j < |r| ==> r[j] == s[j + 1]
    ensures r == RemoveFirst(s, x)
  {
    RemoveFirstAt(s, x, k);
    var t := s[..k] + s[k + 1..];
    forall j | 0 <= j < |r| ensures r[j] == t[j] {
    }
  }

  function FirstIndex(s: seq<int>, x: int): (k: nat)
    requires x in s
    ensures k < |s| && s[k] == x && x !in s[..k]
  {
    if s[0] == x then 0 else
      var k := 1 + FirstIndex(s[1..], x);
      assert s[..k] == [s[0]] + s[1..][..k - 1];
      k
  }

  /** The packets of queue g that carry tag f, in queue order. */
  function From(g: seq<Tagged>, f: nat): seq<Packet> {
    if g == [] then [] else (if g[0].src == f then [g[0].packet] else []) + From(g[1..], f)
  }

  /** The packets of s addressed to j, in order. */
  function To(s: seq<Packet>, j: nat): seq<Packet> {
    if s == [] then [] else (if s[0].address == j then [s[0]] else []) + To(s[1..], j)
  }

  /** The tags of queue g, in queue order. */
  function Sources(g: seq<Tagged>): (r: seq<int>)
    ensures |r| == |g|
    ensures forall i :: 0 <= i < |g| ==> r[i] == g[i].src
  {
    seq(|g|, i requires 0 <= i < |g| => g[i].src)
  }

  /** g without its first f-tagged packet. */
  function Serve(g: seq<Tagged>, f: nat): seq<Tagged> {
    if g == [] then [] else if g[0].src == f then g[1..] else [g[0]] + Serve(g[1..], f)
  }

  lemma FromCons(x: Tagged, t: seq<Tagged>, f: nat)
    ensures From([x] + t, f) == (if x.src == f then [x.packet] else []) + From(t, f)
  {
    assert ([x] + t)[1..] == t;
  }

  lemma {:induction false} FromAppend(g: seq<Tagged>, h: seq<Tagged>, f: nat)
    ensures From(g + h, f) == From(g, f) + From(h, f)
  {
    if g == [] {
      assert g + h == h;
    } else {
      var x := if g[0].src == f then [g[0].packet] else [];
      assert (g + h)[1..] == g[1..] + h;
      FromAppend(g[1..], h, f);
      assert x + (From(g[1..], f) + From(h, f)) == (x + From(g[1..], f)) + From(h, f);
    }
  }

  lemma {:induction false} ToAppend(s: seq<Packet>, t: seq<Packet>, j: nat)
    ensures To(s + t, j) == To(s, j) + To(t, j)
  {
    if s == [] {
      assert s + t == t;
    } else {
      var x := if s[0].address == j then [s[0]] else [];
      assert (s + t)[1..] == s[1..] + t;
      ToAppend(s[1..], t, j);
      assert x + (To(s[1..], j) + To(t, j)) == (x + To(s[1..], j)) + To(t, j);
    }
  }

  /** Serving f takes the head of f's packets and leaves every other source alone. */
  lemma {:induction false} ServeFrom(g: seq<Tagged>, f: nat, h: nat)
    ensures From(Serve(g, f), h) == if h == f && From(g, f) != [] then From(g, h)[1..] else From(g, h)
  {
    if g != [] {
      if g[0].src == f {
      } else {
        ServeFrom(g[1..], f, h);
        assert Serve(g, f)[0] == g[0] && Serve(g, f)[1..] == Serve(g[1..], f);
      }
    }
  }

  /** Serving the queue removes exactly one log entry: the first one equal to f. */
  lemma {:induction false} ServeSources(g: seq<Tagged>, f: nat)
    ensures Sources(Serve(g, f)) == RemoveFirst(Sources(g), f)
  {
    if g != [] {
      assert Sources(g)[1..] == Sources(g[1..]);
      if g[0].src == f {
        assert Serve(g, f) == g[1..];
      } else {
        ServeSources(g[1..], f);
        assert Sources(Serve(g, f)) == [g[0].src] + Sources(Serve(g[1..], f));
      }
    }
  }

  lemma {:induction false} FromNonEmpty(g: seq<Tagged>, f: nat)
    ensures From(g, f) != [] <==> f in Sources(g)
  {
    if g != [] {
      assert Sources(g) == [g[0].src] + Sources(g[1..]);
      FromNonEmpty(g[1..], f);
    }
  }

  /** The head of a non-empty queue is the head of its own source's packets. */
  lemma ServeHead(g: seq<Tagged>)
    requires g != []
    ensures From(g, g[0].src) != [] && From(g, g[0].src)[0] == g[0].packet
    ensures g == [Tagged(g[0].src, From(g, g[0].src)[0])] + Serve(g, g[0].src)
  {
  }
}
