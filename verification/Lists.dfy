/** Lists without repetition: the abstract side of the intrusive linked lists. */
module Lists {

  predicate Distinct<P(==)>(s: seq<P>) {
    forall i, j :: 0 <= i < j < |s| ==> s[i] != s[j]
  }

  lemma DistinctCons<P>(x: P, s: seq<P>)
    requires Distinct(s) && x !in s
    ensures Distinct([x] + s)
  {
    var r := [x] + s;
    forall i, j | 0 <= i < j < |r| ensures r[i] != r[j] {
      assert r[j] == s[j - 1];
    }
  }

  lemma DistinctInsert<P>(s: seq<P>, x: P, t: seq<P>)
    requires Distinct(s + t) && x !in s + t
    ensures Distinct(s + [x] + t)
  {
    var r, u := s + [x] + t, s + t;
    forall i, j | 0 <= i < j < |r| ensures r[i] != r[j] {
      assert i == |s| || r[i] == u[if i < |s| then i else i - 1];
      assert j == |s| || r[j] == u[if j < |s| then j else j - 1];
    }
  }

  /** s without its k-th element. */
  function Cut<P>(s: seq<P>, k: nat): (r: seq<P>)
    requires k < |s|
    ensures |r| == |s| - 1
    ensures forall i :: 0 <= i < k ==> r[i] == s[i]
    ensures forall i :: k <= i < |r| ==> r[i] == s[i + 1]
  {
    seq(|s| - 1, i requires 0 <= i < |s| - 1 => if i < k then s[i] else s[i + 1])
  }

  lemma CutMembers<P>(s: seq<P>, k: nat)
    requires Distinct(s) && k < |s|
    ensures Distinct(Cut(s, k)) && forall x :: x in Cut(s, k) <==> x in s && x != s[k]
  {
    var r := Cut(s, k);
    forall x | x in s && x != s[k] ensures x in r {
      var i :| 0 <= i < |s| && s[i] == x;
      assert r[if i < k then i else i - 1] == x;
    }
    forall x | x in r ensures x in s && x != s[k] {
      var i :| 0 <= i < |r| && r[i] == x;
      assert s[if i < k then i else i + 1] == x;
    }
  }

  /** s without p. */
  function Without<P(==)>(s: seq<P>, p: P): (r: seq<P>)
    ensures p !in s ==> r == s
  {
    if s == [] then [] else (if s[0] == p then [] else [s[0]]) + Without(s[1..], p)
  }

  lemma {:induction false} WithoutMembers<P>(s: seq<P>, p: P, x: P)
    ensures x in Without(s, p) <==> x in s && x != p
  {
    if s != [] {
      WithoutMembers(s[1..], p, x);
      assert s == [s[0]] + s[1..];
    }
  }

  lemma {:induction false} WithoutDistinct<P>(s: seq<P>, p: P)
    requires Distinct(s)
    ensures Distinct(Without(s, p))
  {
    if s != [] {
      WithoutDistinct(s[1..], p);
      WithoutMembers(s[1..], p, s[0]);
      assert s[0] !in s[1..];
      if s[0] != p {
        DistinctCons(s[0], Without(s[1..], p));
      }
    }
  }

  lemma {:induction false} WithoutAt<P>(s: seq<P>, p: P, k: nat)
    requires Distinct(s) && k < |s| && s[k] == p
    ensures Without(s, p) == Cut(s, k)
  {
    if k == 0 {
      assert p !in s[1..];
      assert Cut(s, 0) == s[1..];
    } else {
      assert s[0] != p;
      WithoutAt(s[1..], p, k - 1);
      assert [s[0]] + Cut(s[1..], k - 1) == Cut(s, k);
    }
  }

  lemma {:induction false} WithoutJoin<P>(s: seq<P>, t: seq<P>, p: P)
    ensures Without(s + t, p) == Without(s, p) + Without(t, p)
  {
    if s == [] {
      assert s + t == t;
    } else {
      assert (s + t)[1..] == s[1..] + t;
      WithoutJoin(s[1..], t, p);
      var x := if s[0] == p then [] else [s[0]];
      assert x + (Without(s[1..], p) + Without(t, p)) == (x + Without(s[1..], p)) + Without(t, p);
    }
  }

  /** s with x put in at place k. */
  function Splice<P>(s: seq<P>, k: nat, x: P): (r: seq<P>)
    requires k <= |s|
    ensures |r| == |s| + 1 && r[k] == x
    ensures forall i :: 0 <= i < k ==> r[i] == s[i]
    ensures forall i :: k < i < |r| ==> r[i] == s[i - 1]
  {
    seq(|s| + 1, i requires 0 <= i < |s| + 1 => if i < k then s[i] else if i == k then x else s[i - 1])
  }

  lemma SpliceMembers<P>(s: seq<P>, k: nat, x: P)
    requires Distinct(s) && k <= |s| && x !in s
    ensures Distinct(Splice(s, k, x)) && forall y :: y in Splice(s, k, x) <==> y in s || y == x
  {
    var r := Splice(s, k, x);
    forall y | y in s ensures y in r {
      var i :| 0 <= i < |s| && s[i] == y;
      assert r[if i < k then i else i + 1] == y;
    }
    forall y | y in r ensures y in s || y == x {
      var i :| 0 <= i < |r| && r[i] == y;
      assert i == k || s[if i < k then i else i - 1] == y;
    }
    forall i, j | 0 <= i < j < |r| ensures r[i] != r[j] {
      assert i == k || r[i] == s[if i < k then i else i - 1];
      assert j == k || r[j] == s[if j < k then j else j - 1];
    }
  }
}
