/** Orders on strings and on the sort keys the store uses. */
module Ordering {

  /** Lexicographic order, which is how the store compares identifiers. */
  predicate LexLess(a: string, b: string) {
    b != [] && (a == [] || a[0] < b[0] || (a[0] == b[0] && LexLess(a[1..], b[1..])))
  }

  lemma {:induction false} LexTransitive(a: string, b: string, c: string)
    requires LexLess(a, b) && LexLess(b, c)
    ensures LexLess(a, c)
  {
    if a != [] && a[0] == b[0] == c[0] {
      LexTransitive(a[1..], b[1..], c[1..]);
    }
  }

  lemma {:induction false} LexTrichotomy(a: string, b: string)
    ensures LexLess(a, b) || a == b || LexLess(b, a)
    ensures !(LexLess(a, b) && LexLess(b, a))
    ensures a == b ==> !LexLess(a, b)
  {
    if a != [] && b != [] && a[0] == b[0] {
      LexTrichotomy(a[1..], b[1..]);
      assert a == [a[0]] + a[1..] && b == [b[0]] + b[1..];
    }
  }

  /** A sort key: two integer columns compared first, then the row's identifier. */
  datatype Key = Key(first: int, second: int, id: string)

  predicate KeyLess(a: Key, b: Key) {
    || a.first < b.first
    || (a.first == b.first && a.second < b.second)
    || (a.first == b.first && a.second == b.second && LexLess(a.id, b.id))
  }

  lemma KeyTransitive(a: Key, b: Key, c: Key)
    requires KeyLess(a, b) && KeyLess(b, c)
    ensures KeyLess(a, c)
  {
    if LexLess(a.id, b.id) && LexLess(b.id, c.id) {
      LexTransitive(a.id, b.id, c.id);
    }
  }

  lemma KeyTrichotomy(a: Key, b: Key)
    ensures KeyLess(a, b) || a == b || KeyLess(b, a)
    ensures !(KeyLess(a, b) && KeyLess(b, a))
    ensures a == b ==> !KeyLess(a, b)
  {
    LexTrichotomy(a.id, b.id);
  }

  /** k is the least key of s: what ORDER BY puts first. */
  predicate IsLeast(k: Key, s: set<Key>) {
    k in s && forall other <- s :: other == k || KeyLess(k, other)
  }

  lemma {:induction false} LeastExists(s: set<Key>)
    requires s != {}
    ensures exists k :: IsLeast(k, s)
  {
    var x :| x in s;
    if s == {x} {
      assert IsLeast(x, s);
    } else {
      var rest := s - {x};
      LeastExists(rest);
      var k :| IsLeast(k, rest);
      KeyTrichotomy(k, x);
      if KeyLess(x, k) {
        forall other <- s ensures other == x || KeyLess(x, other) {
          if other != x && other != k {
            KeyTransitive(x, k, other);
          }
        }
        assert IsLeast(x, s);
      } else {
        assert IsLeast(k, s);
      }
    }
  }

  lemma LeastIsUnique(j: Key, k: Key, s: set<Key>)
    requires IsLeast(j, s) && IsLeast(k, s)
    ensures j == k
  {
    KeyTrichotomy(j, k);
  }

  /** Rows come out in strictly increasing key order. */
  ghost predicate Ascending(rows: seq<Key>) {
    forall i, j :: 0 <= i < j < |rows| ==> KeyLess(rows[i], rows[j])
  }

  /** A query result: every row of the set, each once, in key order. */
  ghost predicate Listing(rows: seq<Key>, s: set<Key>) {
    Ascending(rows) && forall k :: k in rows <==> k in s
  }

  /** Two listings of one set are the same sequence, so a query with a unique tie-break is a function. */
  lemma {:induction false} ListingIsUnique(a: seq<Key>, b: seq<Key>, s: set<Key>)
    requires Listing(a, s) && Listing(b, s)
    ensures a == b
    decreases |a|
  {
    ListingLength(a, s);
    ListingLength(b, s);
    if a != [] {
      ListingHead(a, s);
      ListingHead(b, s);
      LeastIsUnique(a[0], b[0], s);
      ListingTail(a, s);
      ListingTail(b, s);
      ListingIsUnique(a[1..], b[1..], s - {a[0]});
      assert a == [a[0]] + a[1..] && b == [b[0]] + b[1..];
    }
  }

  lemma ListingHead(a: seq<Key>, s: set<Key>)
    requires Listing(a, s) && a != []
    ensures IsLeast(a[0], s)
  {
    forall other <- s ensures other == a[0] || KeyLess(a[0], other) {
      assert other in a;
    }
  }

  lemma ListingTail(a: seq<Key>, s: set<Key>)
    requires Listing(a, s) && a != []
    ensures Listing(a[1..], s - {a[0]})
  {
    forall k ensures k in a[1..] <==> k in s - {a[0]} {
      if k in a[1..] {
        var i :| 0 <= i < |a| - 1 && a[1..][i] == k;
        assert KeyLess(a[0], a[i + 1]);
        KeyTrichotomy(a[0], k);
        assert k in a;
      }
      if k in s - {a[0]} {
        assert k in a && k != a[0];
      }
    }
  }

  lemma {:induction false} ListingLength(rows: seq<Key>, s: set<Key>)
    requires Listing(rows, s)
    ensures |rows| == |s|
    decreases |rows|
  {
    if rows == [] {
      assert forall k :: k in s ==> k in rows;
      assert s == {};
    } else {
      ListingTail(rows, s);
      ListingLength(rows[1..], s - {rows[0]});
      assert rows[0] in rows;
    }
  }

  /** The ordered query itself: repeatedly take the least remaining row. */
  method Order(s: set<Key>) returns (rows: seq<Key>)
    ensures Listing(rows, s)
  {
    rows := [];
    var remaining := s;
    while remaining != {}
      invariant remaining <= s
      invariant Ascending(rows)
      invariant forall k :: k in rows <==> k in s - remaining
      invariant forall k <- rows, other <- remaining :: KeyLess(k, other)
      decreases remaining
    {
      LeastExists(remaining);
      var k :| k in remaining && IsLeast(k, remaining);
      remaining := remaining - {k};
      rows := rows + [k];
    }
  }
}
