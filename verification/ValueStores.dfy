/** The per-call namespace of src/runtime_tensor.h: local values, then the parent scope, then the
    constants of the model.  A missing name (an exception in the source) is `None`. */
module ValueStores {
  import opened Wrappers

  /** Two-level lookup: what a store without a parent does. */
  function Lookup<V>(locals: map<string, V>, consts: map<string, V>, name: string): Option<V> {
    if name in locals then Some(locals[name])
    else if name in consts then Some(consts[name])
    else None
  }

  class ValueStore<V> {
    var values: map<string, V>
    const constants: map<string, V>
    const parent: ValueStore?<V>
    /** Every store on the way to the root. */
    ghost const chain: set<ValueStore<V>>

    constructor (consts: map<string, V>, parent: ValueStore?<V>)
      requires parent != null ==> parent.Chained()
      ensures values == map[] && constants == consts && this.parent == parent && Chained()
      ensures chain == {this} + if parent == null then {} else parent.chain
    {
      values, constants, this.parent := map[], consts, parent;
      chain := {this} + if parent == null then {} else parent.chain;
    }

    ghost predicate Chained()
      decreases chain
    {
      && this in chain
      && (parent != null ==> parent.chain < chain && this !in parent.chain && parent.Chained())
    }

    /** `child_scope`: same constants, and only the parent it is given. */
    method ChildScope(parent: ValueStore?<V>) returns (child: ValueStore<V>)
      requires parent != null ==> parent.Chained()
      ensures fresh(child) && child.Chained() && child.values == map[] && child.constants == constants
      ensures child.parent == parent && child.chain == {child} + if parent == null then {} else parent.chain
    {
      child := new ValueStore(constants, parent);
    }

    method Put(name: string, v: V)
      modifies this`values
      ensures values == old(values)[name := v]
    {
      values := values[name := v];
    }

    function Get(name: string): Option<V>
      requires Chained()
      reads chain
      decreases chain
    {
      if name in values then Some(values[name])
      else if parent != null then parent.Get(name)
      else if name in constants then Some(constants[name])
      else None
    }

    predicate Has(name: string)
      requires Chained()
      reads chain
      decreases chain
    {
      name in values || (parent != null && parent.Has(name)) || name in constants
    }

    /** All scopes of the chain were built over the same constants, as `child_scope` of one of them does. */
    ghost predicate SharedConstants()
      requires Chained()
      decreases chain
    {
      parent != null ==> parent.constants == constants && parent.SharedConstants()
    }

    /** The scopes of the chain merged, inner ones on top. */
    ghost function View(): map<string, V>
      requires Chained()
      reads chain
      decreases chain
    {
      if parent == null then values else parent.View() + values
    }

    /** Over shared constants the lookup chain is one two-level lookup. */
    lemma {:induction false} GetIsLookup(name: string)
      requires Chained() && SharedConstants()
      ensures Get(name) == Lookup(View(), constants, name)
      decreases chain
    {
      if parent != null { parent.GetIsLookup(name); }
    }

    /** `has` promises exactly that `get` will not throw. */
    lemma {:induction false} HasIffGet(name: string)
      requires Chained() && SharedConstants()
      ensures Has(name) <==> Get(name).Some?
      decreases chain
    {
      if parent != null { parent.HasIffGet(name); }
    }
  }
}
