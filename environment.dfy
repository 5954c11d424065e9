/** The process environment: a table from variable names to values, in which
    an absent variable is distinct from one set to the empty string.
    The functions give the meaning of the three primitives the handle uses
    (read, set, remove); the class `Env` is the one mutable table they act on. */
module Environment {

  datatype Option<T> = None | Some(value: T)

  type Vars = map<string, string>

  /** Reading a variable: `None` exactly when it is unset, otherwise the
      stored value (which may be empty). */
  function Lookup(vars: Vars, key: string): (r: Option<string>)
    ensures r == None <==> key !in vars
    ensures r.Some? ==> key in vars && vars[key] == r.value
  {
    if key in vars then Some(vars[key]) else None
  }

  /** `a` and `b` give every variable outside `keys` the same state. */
  ghost predicate AgreeOutside(a: Vars, b: Vars, keys: set<string>)
  {
    forall k :: k !in keys ==> Lookup(a, k) == Lookup(b, k)
  }

  /** `a` and `b` give every variable other than `key` the same state
      (both unset, or both set to the same value). */
  ghost predicate AgreeExcept(a: Vars, b: Vars, key: string)
  {
    forall k :: k != key ==> Lookup(a, k) == Lookup(b, k)
  }

  /** Setting `key` to `value`: afterwards `key` reads as `value` and
      nothing else changed. */
  function Set(vars: Vars, key: string, value: string): (r: Vars)
    ensures Lookup(r, key) == Some(value)
    ensures AgreeExcept(vars, r, key)
  {
    vars[key := value]
  }

  /** Removing `key`: afterwards `key` is unset and nothing else changed. */
  function Remove(vars: Vars, key: string): (r: Vars)
    ensures Lookup(r, key) == None
    ensures AgreeExcept(vars, r, key)
  {
    vars - {key}
  }

  /** Agreement outside one key is an equivalence; transitivity is the part
      the proofs chain through. */
  lemma AgreeExceptTrans(a: Vars, b: Vars, c: Vars, key: string)
    requires AgreeExcept(a, b, key) && AgreeExcept(b, c, key)
    ensures AgreeExcept(a, c, key)
  {
  }

  /** Two tables that agree outside `key` and on `key` are the same table. */
  lemma AgreeEverywhere(a: Vars, b: Vars, key: string)
    requires AgreeExcept(a, b, key)
    requires Lookup(a, key) == Lookup(b, key)
    ensures a == b
  {
    forall k
      ensures Lookup(a, k) == Lookup(b, k)
    {
    }
    forall k | k in a
      ensures k in b && a[k] == b[k]
    {
      assert Lookup(a, k) == Lookup(b, k);
    }
    forall k | k in b
      ensures k in a
    {
      assert Lookup(a, k) == Lookup(b, k);
    }
  }

  /** The process-wide environment, updated in place. */
  class Env {
    var vars: Vars

    constructor (initial: Vars)
      ensures vars == initial
    {
      vars := initial;
    }

    /** `std::env::var(key).ok()`: the current value, or `None` if unset. */
    method Var(key: string) returns (r: Option<string>)
      ensures r == Lookup(vars, key)
    {
      r := if key in vars then Some(vars[key]) else None;
    }

    /** `std::env::set_var(key, value)`. */
    method SetVar(key: string, value: string)
      modifies this
      ensures vars == Set(old(vars), key, value)
    {
      vars := vars[key := value];
    }

    /** `std::env::remove_var(key)`. */
    method RemoveVar(key: string)
      modifies this
      ensures vars == Remove(old(vars), key)
    {
      vars := vars - {key};
    }
  }
}
