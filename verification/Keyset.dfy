/**
  Ordered selection by the pair (timestamp, id): `ORDER BY ts, id` with a row comparison
  against the last key of the previous page and a `LIMIT`.
 */
module Keyset {
  import opened Wrappers
  import opened Types

  datatype Key = Key(ts: Timestamp, id: Uuid)

  datatype Order = Desc | Asc

  /** Does row `a` come strictly before row `b` in the result? */
  predicate Before(o: Order, a: Key, b: Key) {
    match o
    case Asc => a.ts < b.ts || (a.ts == b.ts && a.id < b.id)
    case Desc => a.ts > b.ts || (a.ts == b.ts && a.id > b.id)
  }

  predicate Leads(o: Order, k: Key, s: set<Key>) {
    k in s && forall x | x in s :: x == k || Before(o, k, x)
  }

  lemma {:induction false} SomeKeyLeads(o: Order, s: set<Key>)
    requires s != {}
    ensures exists k :: Leads(o, k, s)
    decreases |s|
  {
    var k :| k in s;
    if s == {k} {
      assert Leads(o, k, s);
    } else {
      SomeKeyLeads(o, s - {k});
      var rest :| Leads(o, rest, s - {k});
      assert forall x | x in s :: x == k || x in s - {k};
      assert Leads(o, if Before(o, k, rest) then k else rest, s);
    }
  }

  function First(o: Order, s: set<Key>): (k: Key)
    requires s != {}
    ensures Leads(o, k, s)
  {
    SomeKeyLeads(o, s);
    var k :| Leads(o, k, s);
    k
  }

  ghost predicate Sorted(o: Order, q: seq<Key>) {
    forall i, j | 0 <= i < j < |q| :: Before(o, q[i], q[j])
  }

  /** The rows in result order. */
  function Ordered(o: Order, s: set<Key>): (q: seq<Key>)
    ensures Sorted(o, q)
    ensures forall k :: k in q <==> k in s
    ensures |q| == |s|
    decreases |s|
  {
    if s == {} then []
    else
      var k := First(o, s);
      [k] + Ordered(o, s - {k})
  }

  /** Only one ordering of the same rows is sorted. */
  lemma {:induction false} SortedIsUnique(o: Order, p: seq<Key>, q: seq<Key>)
    requires Sorted(o, p) && Sorted(o, q)
    requires forall k :: k in p <==> k in q
    ensures p == q
    decreases |p|
  {
    assert p != [] ==> p[0] in q;
    assert q != [] ==> q[0] in p;
    if p != [] && q != [] {
      assert p[0] in q && q[0] in p;
      assert p[0] == q[0];
      forall k
        ensures k in p[1..] <==> k in q[1..]
      {
        assert k in p[1..] ==> k in p && k != p[0];
        assert k in q[1..] ==> k in q && k != q[0];
        assert p == [p[0]] + p[1..] && q == [q[0]] + q[1..];
      }
      SortedIsUnique(o, p[1..], q[1..]);
    }
  }

  /** The rows a page may draw from: those past the cursor. */
  function After(o: Order, s: set<Key>, cursor: Option<Key>): set<Key> {
    match cursor
    case None => s
    case Some(c) => set k | k in s && Before(o, c, k)
  }

  /** What the query returns: the first `n` rows past the cursor. */
  function Fetch(o: Order, s: set<Key>, cursor: Option<Key>, n: nat): (page: seq<Key>)
    ensures forall k | k in page :: k in s
  {
    var all := Ordered(o, After(o, s, cursor));
    if |all| <= n then all else all[..n]
  }

  lemma SuffixIsAfter(o: Order, q: seq<Key>, n: nat, k: Key)
    requires Sorted(o, q) && 0 < n <= |q|
    ensures k in q[n..] <==> k in q && Before(o, q[n - 1], k)
  {
  }

  /** Resuming after the n-th row of what is left continues with row n + 1: no skip, no repeat. */
  lemma {:induction false} ResumeAfter(o: Order, s: set<Key>, cursor: Option<Key>, n: nat)
    requires 0 < n <= |After(o, s, cursor)|
    ensures var all := Ordered(o, After(o, s, cursor));
            Ordered(o, After(o, s, Some(all[n - 1]))) == all[n..]
  {
    var all := Ordered(o, After(o, s, cursor));
    var last := all[n - 1];
    var later := After(o, s, Some(last));
    assert last in After(o, s, cursor);
    forall k
      ensures k in all[n..] <==> k in Ordered(o, later)
    {
      SuffixIsAfter(o, all, n, k);
      assert k in all <==> k in After(o, s, cursor);
    }
    SortedIsUnique(o, all[n..], Ordered(o, later));
  }
}
