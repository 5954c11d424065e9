/** A `TempEnvVar` handle gives scoped, reversible control of one environment
    variable: creating it snapshots the variable and unsets it, `With`
    overwrites it, and `Drop` writes the snapshot back (or unsets the variable
    when there was none).

    The first half of the module states the handle's effect on the
    environment as functions on tables and proves what the handle promises:
    overrides do not compose, a scope restores exactly what it found, and
    properly nested scopes (on the same key or not) each restore the state
    their enclosing scope had established. The second half is the handle
    itself, as a class whose methods update an `Env` in place. */
module TempEnv {
  import opened Environment

  /** What dropping a handle does to the environment: write the snapshot
      back, or remove the variable when the snapshot is `None`. The result
      depends only on the snapshot, never on what `key` held just before,
      so a change made to `key` by anyone else in the meantime is discarded. */
  function Restore(vars: Vars, key: string, initial: Option<string>): (r: Vars)
    ensures Lookup(r, key) == initial
    ensures AgreeExcept(vars, r, key)
  {
    match initial
    case Some(value) => Set(vars, key, value)
    case None => Remove(vars, key)
  }

  /** The effect of a chain of `With` calls, applied left to right: only the
      last value written stays visible, and no other variable is touched. */
  function SetAll(vars: Vars, key: string, values: seq<string>): (r: Vars)
    ensures Lookup(r, key) == if values == [] then Lookup(vars, key) else Some(values[|values| - 1])
    ensures AgreeExcept(vars, r, key)
    decreases |values|
  {
    if values == [] then vars
    else
      var r := SetAll(Set(vars, key, values[0]), key, values[1..]);
      AgreeExceptTrans(vars, Set(vars, key, values[0]), r, key);
      r
  }

  /** Restoring the value `key` had in `vars`, onto any table that differs
      from `vars` only at `key`, gives back `vars` itself. */
  lemma RestoreUndoes(vars: Vars, current: Vars, key: string)
    requires AgreeExcept(vars, current, key)
    ensures Restore(current, key, Lookup(vars, key)) == vars
  {
    var r := Restore(current, key, Lookup(vars, key));
    AgreeExceptTrans(vars, current, r, key);
    AgreeEverywhere(r, vars, key);
  }

  /** Restoring ignores what happened to `key` since the snapshot was
      taken: two tables that differ only at `key` restore to the same table. */
  lemma RestoreIgnoresInterference(a: Vars, b: Vars, key: string, initial: Option<string>)
    requires AgreeExcept(a, b, key)
    ensures Restore(a, key, initial) == Restore(b, key, initial)
  {
    var ra, rb := Restore(a, key, initial), Restore(b, key, initial);
    AgreeExceptTrans(ra, a, b, key);
    AgreeExceptTrans(ra, b, rb, key);
    AgreeEverywhere(ra, rb, key);
  }

  /** Overrides replace, they do not compose: a chain of `With` calls leaves
      the environment exactly as the last one alone would. */
  lemma {:induction false} OverridesCollapse(vars: Vars, key: string, values: seq<string>)
    requires values != []
    ensures SetAll(vars, key, values) == Set(vars, key, values[|values| - 1])
  {
    var r := SetAll(vars, key, values);
    var s := Set(vars, key, values[|values| - 1]);
    AgreeExceptTrans(s, vars, r, key);
    AgreeEverywhere(r, s, key);
  }

  /** One handle's whole life: create it on `key`, call `With` with each of
      `values` in turn, drop it. The environment comes back exactly as it was,
      whether `key` was set or not. */
  lemma RoundTrip(vars: Vars, key: string, values: seq<string>)
    ensures Restore(SetAll(Remove(vars, key), key, values), key, Lookup(vars, key)) == vars
  {
    var acquired := Remove(vars, key);
    AgreeExceptTrans(vars, acquired, SetAll(acquired, key, values), key);
    RestoreUndoes(vars, SetAll(acquired, key, values), key);
  }

  /** A scope that owns one handle on `key`; its body runs between creating
      the handle and dropping it. */
  datatype Scope = Scope(key: string, body: Block)

  /** What happens while a handle is live: `With` calls on it, and inner
      scopes whose handles are created and dropped before it (LIFO order).
      A handle is overridden only while it is the innermost live one: an
      override of an outer handle while an inner one is live is not
      expressible here (`OuterOverrideLost` shows what it does). */
  datatype Block =
    | End
    | Override(value: string, rest: Block)
    | Inner(scope: Scope, rest: Block)

  /** The keys of every handle created inside a block, at any depth. */
  function BlockKeys(b: Block): set<string>
    decreases b
  {
    match b
    case End => {}
    case Override(_, rest) => BlockKeys(rest)
    case Inner(scope, rest) => {scope.key} + BlockKeys(scope.body) + BlockKeys(rest)
  }

  /** The environment after a scope has run: snapshot and remove, run the
      body, restore the snapshot. The scope's own key ends as it began,
      whatever the body did, and no key that no handle in it controls ever
      changes. */
  function RunScope(vars: Vars, s: Scope): (r: Vars)
    ensures Lookup(r, s.key) == Lookup(vars, s.key)
    ensures AgreeOutside(vars, r, {s.key} + BlockKeys(s.body))
    decreases s
  {
    var initial := Lookup(vars, s.key);
    Restore(RunBlock(Remove(vars, s.key), s.key, s.body), s.key, initial)
  }

  /** The environment after the body of the scope owning `key` has run:
      only `key` and the keys of the inner handles can have changed. */
  function RunBlock(vars: Vars, key: string, b: Block): (r: Vars)
    ensures AgreeOutside(vars, r, {key} + BlockKeys(b))
    decreases b
  {
    match b
    case End => vars
    case Override(value, rest) => RunBlock(Set(vars, key, value), key, rest)
    case Inner(scope, rest) => RunBlock(RunScope(vars, scope), key, rest)
  }

  /** Every scope, however its inner scopes nest and whatever keys they
      control, leaves the environment exactly as it found it. Applied to an
      inner scope this is LIFO nesting (each handle overridden only while it
      is the innermost live one): its drop re-establishes the state its
      enclosing scope had just before creating it; applied to the outermost
      scope it is the full round trip. */
  lemma {:induction false} ScopeRestores(vars: Vars, s: Scope)
    ensures RunScope(vars, s) == vars
    decreases s
  {
    var acquired := Remove(vars, s.key);
    BlockFrame(acquired, s.key, s.body);
    AgreeExceptTrans(vars, acquired, RunBlock(acquired, s.key, s.body), s.key);
    RestoreUndoes(vars, RunBlock(acquired, s.key, s.body), s.key);
  }

  /** While a handle on `key` is live, its body changes no variable except
      `key`: inner scopes undo themselves. */
  lemma {:induction false} BlockFrame(vars: Vars, key: string, b: Block)
    ensures AgreeExcept(vars, RunBlock(vars, key, b), key)
    decreases b
  {
    match b
    case End =>
    case Override(value, rest) =>
      var next := Set(vars, key, value);
      BlockFrame(next, key, rest);
      AgreeExceptTrans(vars, next, RunBlock(next, key, rest), key);
    case Inner(scope, rest) =>
      ScopeRestores(vars, scope);
      BlockFrame(vars, key, rest);
  }

  /** The handle. `key` and `initialValue` are fixed when it is created;
      `released` records that `Drop` has run, which may happen only once. */
  class TempEnvVar {
    const env: Env
    const key: string
    const initialValue: Option<string>
    var released: bool

    /** `TempEnvVar::new(key)`: snapshot the variable, then unset it. */
    constructor New(env: Env, key: string)
      modifies env
      ensures this.env == env && this.key == key && !released
      ensures initialValue == Lookup(old(env.vars), key)
      ensures initialValue == None <==> key !in old(env.vars)
      ensures env.vars == Remove(old(env.vars), key)
    {
      var initial := env.Var(key);
      env.RemoveVar(key);
      this.env := env;
      this.key := key;
      this.initialValue := initial;
      this.released := false;
    }

    /** `with(value)`: overwrite the live value and hand back the same handle. */
    method With(value: string) returns (self: TempEnvVar)
      requires !released
      modifies env
      ensures self == this && !self.released
      ensures env.vars == Set(old(env.vars), key, value)
    {
      env.SetVar(key, value);
      self := this;
    }

    /** `Drop::drop`: write the snapshot back, or remove the variable when
        there was none. */
    method Drop()
      requires !released
      modifies this, env
      ensures released
      ensures env.vars == Restore(old(env.vars), key, initialValue)
    {
      match initialValue {
        case Some(value) => env.SetVar(key, value);
        case None => env.RemoveVar(key);
      }
      released := true;
    }
  }

  /** The scenario of the test `with_non_existing_variable`, on any
      environment. */
  method WithNonExistingVariable(env: Env)
    modifies env
    ensures env.vars == Remove(old(env.vars), "MISSINGVAR")
  {
    var name := "MISSINGVAR";
    env.RemoveVar(name);
    ghost var before := env.vars;
    var variable := new TempEnvVar.New(env, name);
    assert variable.initialValue == None;
    var now := env.Var(name);
    assert now == None;
    variable := variable.With("SOMETHING");
    assert variable.initialValue == None;
    now := env.Var(name);
    assert now == Some("SOMETHING");
    variable.Drop();
    now := env.Var(name);
    assert now == None;
    RoundTrip(before, name, ["SOMETHING"]);
  }

  /** The scenario of the test `with_existing_variable`, on any environment. */
  method WithExistingVariable(env: Env)
    modifies env
    ensures env.vars == Set(old(env.vars), "EXISTINGVAR", "INITIAL")
  {
    var name := "EXISTINGVAR";
    env.SetVar(name, "INITIAL");
    ghost var before := env.vars;
    var variable := new TempEnvVar.New(env, name);
    assert variable.initialValue == Some("INITIAL");
    var now := env.Var(name);
    assert now == None;
    variable := variable.With("SOMETHING");
    assert variable.initialValue == Some("INITIAL");
    now := env.Var(name);
    assert now == Some("SOMETHING");
    variable.Drop();
    now := env.Var(name);
    assert now == Some("INITIAL");
    RoundTrip(before, name, ["SOMETHING"]);
  }

  /** Two handles on one key, dropped in LIFO order: the inner drop brings
      back the outer override, the outer drop the original state. */
  method NestedHandles(env: Env, key: string, outer: string, inner: string)
    modifies env
    ensures env.vars == old(env.vars)
  {
    var h1 := new TempEnvVar.New(env, key);
    h1 := h1.With(outer);
    ghost var established := env.vars;
    var h2 := new TempEnvVar.New(env, key);
    assert h2.initialValue == Some(outer);
    h2 := h2.With(inner);
    h2.Drop();
    RoundTrip(established, key, [inner]);
    assert env.vars == established;
    h1.Drop();
    RoundTrip(old(env.vars), key, [outer]);
  }

  /** A write to the variable by someone other than the handle, between its
      creation and its drop, is overwritten by the snapshot. */
  method ExternalChangeDiscarded(env: Env, key: string, external: string)
    modifies env
    ensures env.vars == old(env.vars)
  {
    var h := new TempEnvVar.New(env, key);
    env.SetVar(key, external);
    h.Drop();
    RestoreIgnoresInterference(Remove(old(env.vars), key), Set(Remove(old(env.vars), key), key, external), key, h.initialValue);
    RoundTrip(old(env.vars), key, []);
  }

  /** Two handles on one key, dropped in LIFO order, but the outer one is
      overridden while the inner one is live: the inner drop writes back the
      inner snapshot (unset) and the outer override is lost. The outer drop
      still brings back the original state. */
  method OuterOverrideLost(env: Env, key: string, value: string) returns (seen: Option<string>)
    modifies env
    ensures seen == None
    ensures env.vars == old(env.vars)
  {
    var h1 := new TempEnvVar.New(env, key);
    var h2 := new TempEnvVar.New(env, key);
    h1 := h1.With(value);
    h2.Drop();
    seen := env.Var(key);
    h1.Drop();
    RoundTrip(old(env.vars), key, []);
  }
}
