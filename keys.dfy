/** Visiting the keys of a map in ascending order, one least key at a time.
    Both bbolt's `ForEach` (byte-wise key order) and the model's account of Go
    map iteration go through here. */
module OrderedKeys {

  predicate IsMinKey(keys: set<nat>, k: nat) {
    k in keys && forall k' :: k' in keys ==> k <= k'
  }

  lemma {:induction false} MinKeyExists(keys: set<nat>)
    requires keys != {}
    ensures exists k :: IsMinKey(keys, k)
    decreases keys
  {
    var x :| x in keys;
    if keys - {x} == {} {
      assert keys == {x};
      assert IsMinKey(keys, x);
    } else {
      MinKeyExists(keys - {x});
      var m :| IsMinKey(keys - {x}, m);
      var least := if x <= m then x else m;
      forall k' | k' in keys ensures least <= k' {
        if k' != x {
          assert k' in keys - {x};
        }
      }
      assert IsMinKey(keys, least);
    }
  }

  ghost function MinKey(keys: set<nat>): (k: nat)
    requires keys != {}
    ensures IsMinKey(keys, k)
  {
    MinKeyExists(keys);
    var k :| IsMinKey(keys, k); k
  }
}
