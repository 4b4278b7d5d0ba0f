/**
 * Rows in the order of an SQL `ORDER BY major, minor, id`, and the prefix that `LIMIT n` keeps.
 * The outbox lease, the case list and the event feed are all ordered this way by a unique key;
 * a descending column is an ascending column of negated values.
 */
module Order {
  import opened Base

  datatype Key = Key(major: int, minor: int, id: int)

  predicate Less(a: Key, b: Key) {
    a.major < b.major
    || (a.major == b.major && a.minor < b.minor)
    || (a.major == b.major && a.minor == b.minor && a.id < b.id)
  }

  ghost predicate IsLeast(s: set<Key>, k: Key) {
    k in s && forall o :: o in s ==> o == k || Less(k, o)
  }

  lemma LeastExists(s: set<Key>)
    requires s != {}
    ensures exists k :: IsLeast(s, k)
  {
    var k :| k in s;
    if s == {k} {
      assert IsLeast(s, k);
    } else {
      LeastExists(s - {k});
      var m :| IsLeast(s - {k}, m);
      if Less(k, m) {
        forall o | o in s
          ensures o == k || Less(k, o)
        {
          assert o == k || o in s - {k};
        }
        assert IsLeast(s, k);
      } else {
        assert IsLeast(s, m);
      }
    }
  }

  function Least(s: set<Key>): (k: Key)
    requires s != {}
    ensures IsLeast(s, k)
  {
    LeastExists(s);
    assert exists k :: k in s && forall o :: o in s ==> o == k || Less(k, o) by {
      var w :| IsLeast(s, w);
    }
    var k :| k in s && forall o :: o in s ==> o == k || Less(k, o);
    k
  }

  ghost predicate Ascending(r: seq<Key>) {
    forall i, j :: 0 <= i < j < |r| ==> Less(r[i], r[j])
  }

  /** The rows of a table in key order. */
  function Sorted(s: set<Key>): (r: seq<Key>)
    ensures |r| == |s|
    ensures forall k :: k in r <==> k in s
    ensures Ascending(r)
  {
    if s == {} then []
    else
      var k := Least(s);
      var rest := Sorted(s - {k});
      assert forall i :: 0 <= i < |rest| ==> rest[i] in s - {k};
      [k] + rest
  }

  /** The rows that `ORDER BY ... LIMIT n` returns. */
  function TakeFirst(s: set<Key>, n: nat): (r: seq<Key>)
    ensures |r| == Min(n, |s|)
    ensures forall k :: k in r ==> k in s
    ensures Ascending(r)
    ensures forall k, o :: k in r && o in s && o !in r ==> Less(k, o)
  {
    var all := Sorted(s);
    var r := all[..Min(n, |all|)];
    assert all == r + all[|r|..];
    r
  }

  /** The keyset predicate `(major, minor, id) > cursor`. */
  function After(s: set<Key>, cursor: Key): set<Key> {
    set k | k in s && Less(cursor, k)
  }

  lemma AscendingStartsWithLeast(s: set<Key>, r: seq<Key>)
    requires r != [] && Ascending(r)
    requires forall k :: k in r <==> k in s
    ensures s != {} && r[0] == Least(s)
  {
    assert r[0] in r;
    var k := Least(s);
    assert k in r;
    var i :| 0 <= i < |r| && r[i] == k;
    assert r[0] in s;
  }

  lemma AscendingTail(s: set<Key>, r: seq<Key>)
    requires r != [] && Ascending(r)
    requires forall k :: k in r <==> k in s
    ensures Ascending(r[1..])
    ensures forall k :: k in r[1..] <==> k in s - {r[0]}
  {
    forall k | k in r[1..]
      ensures k in s - {r[0]}
    {
      var i :| 1 <= i < |r| && r[i] == k;
      assert k in r;
    }
    forall k | k in s - {r[0]}
      ensures k in r[1..]
    {
      assert k in r;
      var i :| 0 <= i < |r| && r[i] == k;
      assert r[1..][i - 1] == k;
    }
  }

  lemma SortedUnfold(s: set<Key>)
    requires s != {}
    ensures Sorted(s) == [Least(s)] + Sorted(s - {Least(s)})
  {
  }

  /** An ascending enumeration of a set is the sorted one. */
  lemma {:induction false} SortedUnique(s: set<Key>, r: seq<Key>)
    requires Ascending(r)
    requires forall k :: k in r <==> k in s
    ensures r == Sorted(s)
  {
    hide Ascending, Sorted, Least;
    if r == [] {
      assert forall k :: k in s ==> k in r;
      assert s == {};
      assert |Sorted(s)| == 0;
    } else {
      AscendingStartsWithLeast(s, r);
      AscendingTail(s, r);
      SortedUnique(s - {r[0]}, r[1..]);
      SortedUnfold(s);
      assert r == [r[0]] + r[1..];
    }
  }

  /** In an ascending enumeration, what follows position `p - 1` is what is after that key. */
  lemma SuffixIsAfter(s: set<Key>, all: seq<Key>, p: nat)
    requires Ascending(all) && 0 < p <= |all|
    requires forall k :: k in all <==> k in s
    ensures forall k :: k in all[p..] <==> k in After(s, all[p - 1])
  {
    var last := all[p - 1];
    forall k | k in all[p..]
      ensures k in After(s, last)
    {
      var i :| p <= i < |all| && all[i] == k;
      assert k in all;
    }
    forall k | k in After(s, last)
      ensures k in all[p..]
    {
      assert k in all;
      var i :| 0 <= i < |all| && all[i] == k;
      assert i >= p;
      assert all[p..][i - p] == k;
    }
  }

  /** The keys after the p-th are all but the first p. */
  lemma AfterPosition(s: set<Key>, p: nat)
    requires 0 < p <= |s|
    ensures |After(s, Sorted(s)[p - 1])| == |s| - p
  {
    hide Less;
    var all := Sorted(s);
    SuffixIsAfter(s, all, p);
    SortedUnique(After(s, all[p - 1]), all[p..]);
  }

  /** A row is cut off only by a full page of rows that sort before it. */
  lemma CutOff(s: set<Key>, n: nat, k: Key)
    requires k in s && k !in TakeFirst(s, n)
    ensures |TakeFirst(s, n)| == n && forall i :: 0 <= i < n ==> Less(TakeFirst(s, n)[i], k)
  {
    hide Less;
    assert k in Sorted(s);
    assert forall i :: 0 <= i < |TakeFirst(s, n)| ==> TakeFirst(s, n)[i] in TakeFirst(s, n);
  }
}
