/**
 * The name-to-value store of src/state/mod.rs: a hash map from variable names updated in place.
 *
 * The store is generic in its values: this revision stores backend variables, and the earlier
 * expression macros of src/macros.rs use it with expressions as values.
 */
module State {
  import opened Wrappers

  class StateManager<V> {
    var vars: map<string, V>

    /** `new`: an empty store. */
    constructor ()
      ensures vars == map[]
      ensures Len() == 0
    {
      vars := map[];
    }

    /** `get`: the value stored under the name, if any. */
    function Get(name: string): (r: Option<V>)
      reads this
      ensures r.Some? <==> name in vars
      ensures r.Some? ==> r.value == vars[name]
    {
      if name in vars then Some(vars[name]) else None
    }

    /** `len`: the number of names stored. */
    function Len(): (n: nat)
      reads this
      ensures n == |vars|
    {
      |vars|
    }

    /**
     * `insert`: binds the name to the value and returns the value it replaced; every other name
     * keeps its value, and the store grows by one exactly when the name was new.
     */
    method Insert(name: string, v: V) returns (prev: Option<V>)
      modifies this
      ensures prev == old(Get(name))
      ensures Get(name) == Some(v)
      ensures forall other :: other != name ==> Get(other) == old(Get(other))
      ensures Len() == old(Len()) + (if prev.None? then 1 else 0)
      ensures vars == old(vars)[name := v]
    {
      prev := Get(name);
      vars := vars[name := v];
    }
  }
}
