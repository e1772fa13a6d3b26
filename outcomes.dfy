/** Option and Result, the two shapes the Go code's "(value, error)" and
    "pointer or nil" returns take in this model, and the choice of the next
    key in a Go map iteration, whose order Go leaves unspecified. */
module Outcomes {

  datatype Option<+T> = None | Some(value: T)

  datatype Result<+T, +E> = Ok(value: T) | Err(error: E) {
    predicate IsFailure() { Err? }
  }

  lemma NonEmptyHasMember(keys: set<int>)
    requires keys != {}
    ensures exists k :: k in keys
  {
    if forall k :: k !in keys {
      assert false;
    }
  }

  /** Any key still to be visited. */
  method AnyKey(keys: set<int>) returns (k: int)
    requires keys != {}
    ensures k in keys
  {
    NonEmptyHasMember(keys);
    k :| k in keys;
  }

  /** The order in which a `range` loop visits the keys of a map: every key
      once, in an order the runtime chooses. */
  method MapOrder(keys: set<int>) returns (order: seq<int>)
    ensures forall x :: x in order <==> x in keys
    ensures forall i, j | 0 <= i < j < |order| :: order[i] != order[j]
  {
    var remaining := keys;
    order := [];
    while remaining != {}
      invariant forall x :: x in keys <==> x in order || x in remaining
      invariant forall x | x in order :: x !in remaining
      invariant forall i, j | 0 <= i < j < |order| :: order[i] != order[j]
      decreases remaining
    {
      var k := AnyKey(remaining);
      order := order + [k];
      remaining := remaining - {k};
    }
  }

  /** A sequence that lists every key of a set once is as long as the set
      is large. */
  lemma {:induction false} DistinctLength(order: seq<int>, keys: set<int>)
    requires forall x :: x in order <==> x in keys
    requires forall i, j | 0 <= i < j < |order| :: order[i] != order[j]
    ensures |order| == |keys|
    decreases |order|
  {
    if order != [] {
      var last := order[|order| - 1];
      var init := order[..|order| - 1];
      assert forall x :: x in init <==> x in keys - {last} by {
        forall x
          ensures x in init <==> x in keys - {last}
        {
          if x in init {
            var i :| 0 <= i < |init| && init[i] == x;
            assert order[i] == x;
          }
          assert x in order && x != last ==> x in init by {
            if x in order && x != last {
              var i :| 0 <= i < |order| && order[i] == x;
              assert i < |order| - 1;
            }
          }
        }
      }
      DistinctLength(init, keys - {last});
    } else {
      assert forall x :: x !in keys;
      assert keys == {};
    }
  }
}
