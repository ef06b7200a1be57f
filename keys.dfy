/**
 * The keys of the order book's two sorted maps. A key is the tuple
 * `(price, timestamp, ref)`, the buy side storing the negated price so that its
 * ascending order lists the highest bid first. Python compares tuples
 * lexicographically, and a `SortedDict` iterates its keys in that order.
 */
module Keys {

  datatype Key = Key(price: int, timestamp: int, ref: int)

  /** Python's `<` on `(price, timestamp, ref)` tuples. */
  predicate Less(a: Key, b: Key) {
    || a.price < b.price
    || (a.price == b.price && a.timestamp < b.timestamp)
    || (a.price == b.price && a.timestamp == b.timestamp && a.ref < b.ref)
  }

  /** Tuple order is total: two different keys are ordered one way or the other. */
  lemma LessTotal(a: Key, b: Key)
    ensures a == b || Less(a, b) || Less(b, a)
    ensures !(Less(a, b) && Less(b, a))
  {
  }

  predicate StrictlyIncreasing(ks: seq<Key>) {
    forall i, j :: 0 <= i < j < |ks| ==> Less(ks[i], ks[j])
  }

  predicate IsLeast(k: Key, s: set<Key>) {
    k in s && forall j :: j in s ==> !Less(j, k)
  }

  lemma {:induction false} LeastExists(s: set<Key>)
    requires s != {}
    ensures exists k :: IsLeast(k, s)
  {
    var x :| x in s;
    if s != {x} {
      LeastExists(s - {x});
      var y :| IsLeast(y, s - {x});
      if Less(x, y) {
        forall j | j in s
          ensures !Less(j, x)
        {
          LessTotal(j, y);
        }
        assert IsLeast(x, s);
      } else {
        assert IsLeast(y, s);
      }
    } else {
      assert IsLeast(x, s);
    }
  }

  /** The keys of a `SortedDict` in iteration order: the least key, then the rest. */
  function SortedKeys(s: set<Key>): (ks: seq<Key>)
    ensures |ks| == |s|
    decreases |s|
  {
    if s == {} then []
    else
      LeastExists(s);
      var k :| IsLeast(k, s);
      [k] + SortedKeys(s - {k})
  }

  /** Iteration order is ascending and lists each key of the set once. */
  lemma {:induction false} SortedKeysSorted(s: set<Key>)
    ensures StrictlyIncreasing(SortedKeys(s))
    ensures forall k :: k in SortedKeys(s) <==> k in s
    decreases |s|
  {
    if s != {} {
      LeastExists(s);
      var k :| IsLeast(k, s);
      var rest := SortedKeys(s - {k});
      assert SortedKeys(s) == [k] + rest;
      SortedKeysSorted(s - {k});
      forall j | j in rest
        ensures Less(k, j)
      {
        LessTotal(k, j);
      }
    }
  }

  /** Along an ascending key sequence the first components never decrease. */
  lemma IncreasingPrices(ks: seq<Key>, i: int, j: int)
    requires StrictlyIncreasing(ks) && 0 <= i <= j < |ks|
    ensures ks[i].price <= ks[j].price
  {
    if i < j {
      assert Less(ks[i], ks[j]);
    }
  }
}
