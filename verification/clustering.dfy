/**
 * The order in which a CQL scan visits the rows of one partition.
 *
 * Tweet ids stand in for time-UUIDs, so their natural order is the order of
 * creation. Which clustering order the tables declare is fixed by migrations
 * that are not part of this model, so the order is an explicit parameter.
 */
module Clustering {

  datatype Order = Ascending | Descending

  /** True when a scan under `order` visits `a` before `b`. */
  predicate Precedes(order: Order, a: nat, b: nat)
  {
    match order
    case Ascending => a < b
    case Descending => a > b
  }

  /** `s` lists its elements strictly in scan order (hence without repetition). */
  predicate InOrder(order: Order, s: seq<nat>)
  {
    forall i, j :: 0 <= i < j < |s| ==> Precedes(order, s[i], s[j])
  }

  /** `m` is the key of `keys` that a scan under `order` visits first. */
  predicate IsFirst(order: Order, keys: set<nat>, m: nat)
  {
    m in keys && forall k :: k in keys ==> k == m || Precedes(order, m, k)
  }

  lemma {:induction false} FirstExists(order: Order, keys: set<nat>)
    requires keys != {}
    ensures exists m :: IsFirst(order, keys, m)
  {
    var x :| x in keys;
    if keys == {x} {
      assert IsFirst(order, keys, x);
    } else {
      FirstExists(order, keys - {x});
      var m :| IsFirst(order, keys - {x}, m);
      if Precedes(order, x, m) {
        forall k | k in keys - {x}
          ensures Precedes(order, x, k)
        {
          assert k == m || Precedes(order, m, k);
        }
        assert IsFirst(order, keys, x);
      } else {
        assert IsFirst(order, keys, m);
      }
    }
  }

  function First(order: Order, keys: set<nat>): (m: nat)
    requires keys != {}
    ensures IsFirst(order, keys, m)
  {
    FirstExists(order, keys);
    var m :| m in keys && IsFirst(order, keys, m);
    m
  }

  /** The keys of a partition in the order a scan visits them. */
  function Scan(order: Order, keys: set<nat>): (s: seq<nat>)
    ensures InOrder(order, s)
    ensures forall k :: k in s <==> k in keys
    ensures |s| == |keys|
    decreases |keys|
  {
    if keys == {} then []
    else
      var m := First(order, keys);
      [m] + Scan(order, keys - {m})
  }

  /** The first `limit` keys a scan visits: what a CQL LIMIT returns. */
  function Limit(order: Order, keys: set<nat>, limit: nat): (s: seq<nat>)
    ensures |s| <= limit
    ensures InOrder(order, s)
    ensures forall k :: k in s ==> k in keys
    ensures forall k :: k in keys && k !in s ==>
              |s| == limit && forall j :: 0 <= j < |s| ==> Precedes(order, s[j], k)
  {
    var all := Scan(order, keys);
    if |all| <= limit then all
    else
      assert forall k :: k in all && k !in all[..limit] ==> exists i :: limit <= i < |all| && all[i] == k;
      all[..limit]
  }
}
