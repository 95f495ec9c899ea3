/** The variable scope chain (src/environment.rs): a local map of bindings
    and an optional enclosing environment. Values are left abstract (`V`);
    the interpreter stores evaluation results there. */
module Environments {
  import opened Outcomes

  /** `Environment`: the boxed optional parent becomes an `Option`. */
  datatype Env<V> = Env(enclosing: Option<Env<V>>, variables: map<string, V>)

  /** The message of a lookup that reaches the outermost scope without a
      binding. */
  function UndefinedMessage(name: string): string {
    "Undefined Identifier: '" + name + "' is unknown in this context."
  }

  /** The reference view of a scope chain: every name visible from `e`,
      bound to the value of its innermost binding. */
  function Visible<V>(e: Env<V>): map<string, V>
    decreases e
  {
    var outer := if e.enclosing.Some? then Visible(e.enclosing.value) else map[];
    outer + e.variables
  }

  /** `new_root`: no bindings and no parent. */
  function NewRoot<V>(): (e: Env<V>)
    ensures e.enclosing.None?
    ensures Visible(e) == map[]
  {
    Env(None, map[])
  }

  /** `new_child`: no bindings of its own, inside `enclosing`. */
  function NewChild<V>(enclosing: Env<V>): (e: Env<V>)
    ensures e.enclosing == Some(enclosing)
    ensures Visible(e) == Visible(enclosing)
  {
    Env(Some(enclosing), map[])
  }

  /** `set`: binds `name` in the local map, replacing a local binding of the
      same name; the enclosing chain is not touched. */
  function Set<V>(e: Env<V>, name: string, value: V): (e': Env<V>)
    ensures e'.enclosing == e.enclosing
    ensures name in e'.variables && e'.variables[name] == value
    ensures forall n :: n != name ==> (n in e'.variables <==> n in e.variables)
    ensures forall n :: n != name && n in e.variables ==> e'.variables[n] == e.variables[n]
  {
    e.(variables := e.variables[name := value])
  }

  /** `get`: the local binding if there is one, else the enclosing
      environment's answer; a miss at the root is an error naming the
      identifier. */
  function Get<V>(e: Env<V>, name: string): (r: Result<V, string>)
    ensures r.Ok? <==> name in Visible(e)
    ensures r.Ok? ==> r.value == Visible(e)[name]
    ensures r.Err? ==> r.error == UndefinedMessage(name)
    decreases e
  {
    if name in e.variables then Ok(e.variables[name])
    else match e.enclosing
      case Some(outer) => Get(outer, name)
      case None => Err(UndefinedMessage(name))
  }

  /** `contains`: looks at the local map only. When it holds, `get` answers
      with the local binding; otherwise `get` answers what the enclosing
      chain answers. */
  predicate Contains<V>(e: Env<V>, name: string): (b: bool)
    ensures b ==> name in e.variables && Get(e, name) == Ok(e.variables[name])
    ensures !b ==> Get(e, name) == Outer(e, name)
  {
    name in e.variables
  }

  /** `remove`: drops the local binding of `name`, if any. */
  function Remove<V>(e: Env<V>, name: string): (e': Env<V>)
    ensures e'.enclosing == e.enclosing
    ensures !Contains(e', name)
    ensures forall n :: n != name ==> (Contains(e', n) <==> Contains(e, n))
    ensures forall n :: n != name && n in e.variables ==> n in e'.variables && e'.variables[n] == e.variables[n]
  {
    e.(variables := e.variables - {name})
  }

  /** `clear`: drops every local binding; the enclosing chain stays. */
  function Clear<V>(e: Env<V>): (e': Env<V>)
    ensures e'.enclosing == e.enclosing
    ensures forall n :: !Contains(e', n)
  {
    e.(variables := map[])
  }

  /** What the enclosing chain alone answers for `name`. */
  function Outer<V>(e: Env<V>, name: string): Result<V, string> {
    if e.enclosing.Some? then Get(e.enclosing.value, name) else Err(UndefinedMessage(name))
  }

  // ---------------------------------------------------------------------
  // Lookup after each operation.
  // ---------------------------------------------------------------------

  /** A local binding shadows every enclosing binding of the same name. */
  lemma LocalShadows<V>(e: Env<V>, name: string)
    requires Contains(e, name)
    ensures Get(e, name) == Ok(e.variables[name])
  {
  }

  /** Without a local binding, `get` is the enclosing chain's answer. */
  lemma LocalMissDelegates<V>(e: Env<V>, name: string)
    requires !Contains(e, name)
    ensures Get(e, name) == Outer(e, name)
  {
  }

  /** After `set(n, v)`, `get(n)` is `v`. */
  lemma GetAfterSet<V>(e: Env<V>, name: string, value: V)
    ensures Get(Set(e, name, value), name) == Ok(value)
  {
  }

  /** `set` does not change the lookup of any other name. */
  lemma SetLeavesOthers<V>(e: Env<V>, name: string, value: V, other: string)
    requires other != name
    ensures Get(Set(e, name, value), other) == Get(e, other)
  {
    var e' := Set(e, name, value);
    if Contains(e, other) {
      LocalShadows(e, other);
      LocalShadows(e', other);
    } else {
      LocalMissDelegates(e, other);
      LocalMissDelegates(e', other);
    }
  }

  /** `set` on a child binds in the child: the parent is unchanged and the
      child now shadows it. */
  lemma SetInChild<V>(parent: Env<V>, name: string, value: V)
    ensures Set(NewChild(parent), name, value).enclosing == Some(parent)
    ensures Get(Set(NewChild(parent), name, value), name) == Ok(value)
  {
    GetAfterSet(NewChild(parent), name, value);
  }

  /** A child from `new_child` sees every binding of its parent, and misses
      exactly where the parent does. */
  lemma ChildSeesParent<V>(parent: Env<V>, name: string)
    ensures Get(NewChild(parent), name) == Get(parent, name)
  {
  }

  /** Every lookup in a new root fails with the undefined-identifier
      message. */
  lemma RootMisses<V>(name: string)
    ensures Get(NewRoot<V>(), name) == Err(UndefinedMessage(name))
  {
  }

  /** A lookup fails exactly when no scope of the chain binds the name. */
  lemma {:induction false} MissMeansUnboundEverywhere<V>(e: Env<V>, name: string)
    ensures Get(e, name).Err? <==> !BoundInChain(e, name)
    decreases e
  {
    if e.enclosing.Some? {
      MissMeansUnboundEverywhere(e.enclosing.value, name);
    }
  }

  /** Some scope of the chain binds `name`. */
  predicate BoundInChain<V>(e: Env<V>, name: string)
    decreases e
  {
    name in e.variables || (e.enclosing.Some? && BoundInChain(e.enclosing.value, name))
  }

  /** `contains` looks only at the local map: a name bound only in the
      parent is found by `get` but not by `contains`. */
  lemma ContainsIsLocal<V>(name: string, value: V)
    ensures !Contains(NewChild(Set(NewRoot(), name, value)), name)
    ensures Get(NewChild(Set(NewRoot(), name, value)), name) == Ok(value)
  {
    ChildSeesParent(Set(NewRoot(), name, value), name);
    GetAfterSet(NewRoot(), name, value);
  }

  /** After `remove(n)`, the lookup of `n` falls through to the enclosing
      chain, and other names are looked up as before. */
  lemma GetAfterRemove<V>(e: Env<V>, name: string, other: string)
    requires other != name
    ensures Get(Remove(e, name), name) == Outer(e, name)
    ensures Get(Remove(e, name), other) == Get(e, other)
  {
    LocalMissDelegates(Remove(e, name), name);
    if Contains(e, other) {
      LocalShadows(e, other);
      LocalShadows(Remove(e, name), other);
    } else {
      LocalMissDelegates(e, other);
      LocalMissDelegates(Remove(e, name), other);
    }
  }

  /** After `clear`, every lookup is the enclosing chain's answer. */
  lemma GetAfterClear<V>(e: Env<V>, name: string)
    ensures Get(Clear(e), name) == Outer(e, name)
  {
    LocalMissDelegates(Clear(e), name);
  }
}
