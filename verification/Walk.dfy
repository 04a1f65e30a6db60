/** Walking over the keys of a Go map: every key once, in an order nobody controls. */
module Walk {
  ghost predicate WalkOf<T(!new)>(order: seq<T>, keys: set<T>) {
    && (forall x :: x in order <==> x in keys)
    && (forall i, j :: 0 <= i < j < |order| ==> order[i] != order[j])
  }

  lemma WalkNext<T(!new)>(order: seq<T>, keys: set<T>, x: T)
    requires WalkOf(order, keys) && x !in keys
    ensures WalkOf(order + [x], keys + {x})
  {
    var longer := order + [x];
    assert longer[|order|] == x;
    forall y ensures y in longer <==> y in keys + {x} {
      if y in order {
        var i :| 0 <= i < |order| && order[i] == y;
        assert longer[i] == y;
      }
    }
  }
}
