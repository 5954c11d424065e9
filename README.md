# env-test-util: the `TempEnvVar` handle, modelled in Dafny

`TempEnvVar` is a test helper for scoped, reversible changes to one process
environment variable. Creating the handle with `new(key)` records the
variable's current value (or that it is unset) and then unsets it. `with(value)`
overwrites the live value and hands back the same handle. Dropping the handle
writes the recorded value back, or unsets the variable if it had been unset.

The model has two modules.

- `Environment` (`environment.dfy`) models the process environment as a
  `map<string, string>`. A missing key is distinct from a key mapped to `""`.
  `Lookup`, `Set` and `Remove` are the meaning of `std::env::var(..).ok()`,
  `set_var` and `remove_var`. `AgreeExcept(a, b, key)` says that two tables
  differ at most at `key`. The class `Env` holds the one mutable table. Its
  methods `Var`, `SetVar` and `RemoveVar` update it in place.
- `TempEnv` (`temp_env_var.dfy`) holds the handle.
  - `Restore` gives drop's effect on a table.
  - `SetAll` gives the effect of a chain of `with` calls.
  - The datatypes `Scope` and `Block` describe nested handle lifetimes
    dropped in LIFO order, on the same key or on different keys, in which a
    handle is overridden only while it is the innermost live one. `RunScope` and
    `RunBlock` give their effect on the environment.
  - The lemmas prove the round trip, last-write-wins, frame and nesting
    properties.
  - The class `TempEnvVar` is the handle itself. Its constructor `New` and its
    methods `With` and `Drop` modify an `Env`. Each one's postcondition is
    stated with the functions above.
  - Five client methods replay the repository's two tests, nested handles,
    an outer override made while an inner handle is live, and an outside
    write that drop discards.

Drop runs implicitly in Rust, exactly once. Here it is an explicit method `Drop`
with the precondition `!released`, and it sets `released`. `with` moves the
handle in and out in Rust. Here it returns the same object reference.

## Model

| member | source | states |
|---|---|---|
| Environment.Set | src/lib.rs:17 | after setting, the key reads as exactly the new value and every other variable keeps its state |
| Environment.Remove | src/lib.rs:9 | after removing, the key is unset (not empty) and every other variable keeps its state |
| Environment.Lookup | src/lib.rs:8 | the meaning of reading a variable: `None` exactly when it is unset, otherwise the stored value, which may be empty |
| Environment.Env.Var | src/lib.rs:8 | the read returns exactly `Lookup` of the live table |
| Environment.Env.SetVar | src/lib.rs:17 | the live table becomes the old table with the key set to the value |
| Environment.Env.RemoveVar | src/lib.rs:9 | the live table becomes the old table with the key removed |
| TempEnv.Restore | src/lib.rs:22-28 | drop's effect: the key afterwards reads as exactly the snapshot (`Some(v)` restores `v`, `None` unsets), whatever it held before; no other variable changes |
| TempEnv.SetAll | src/lib.rs:16-19 | a chain of overrides leaves the last value visible (or the prior state if the chain is empty) and touches no other variable |
| TempEnv.OverridesCollapse | src/lib.rs:16-19 | overrides replace and do not compose: a non-empty chain gives exactly the table a single override with its last value gives |
| TempEnv.RestoreUndoes | src/lib.rs:24-27 | restoring the key's earlier state onto any table that differs from the earlier one only at that key gives back the earlier table exactly |
| TempEnv.RestoreIgnoresInterference | src/lib.rs:24-27 | restore ignores whatever was written to the key since the snapshot: tables that differ only at the key restore to the same table |
| TempEnv.RoundTrip | src/lib.rs:7-28 | create, any number of overrides, drop: the whole environment is back to what it was before creation, whether the key was set (to a Unicode value) or unset |
| TempEnv.ScopeRestores | src/lib.rs:7-28 | every scope, with any nesting of inner scopes on any keys dropped in LIFO order and each handle overridden only while it is the innermost live one, leaves the environment exactly as it found it; such an inner drop restores the state its enclosing scope had established |
| TempEnv.RunScope | src/lib.rs:7-28 | create (snapshot, remove), run the body, drop (restore): the scope's own key ends as it began whatever the body did, and no key outside those of the handles in it changes |
| TempEnv.RunBlock | src/lib.rs:16-19 | a live handle's body of overrides and inner scopes changes only the handle's key and the keys of inner handles |
| TempEnv.BlockFrame | src/lib.rs:7-28 | while a handle on a key is live, its overrides and inner scopes change no variable other than that key |
| TempEnv.TempEnvVar.New | src/lib.rs:7-14 | the snapshot equals the variable's state just before creation (`None` exactly when it was unset); afterwards the variable is unset and nothing else changed; the handle is not yet released |
| TempEnv.TempEnvVar.With | src/lib.rs:16-19 | returns the same handle, still live, with key and snapshot unchanged; the key now reads as exactly the value; nothing else changed |
| TempEnv.TempEnvVar.Drop | src/lib.rs:22-28 | callable once (`!released` before, `released` after); the environment becomes `Restore` of the current one with the handle's snapshot |
| TempEnv.WithNonExistingVariable | src/lib.rs:36-47 | the test's steps hold on any environment: snapshot `None`, unset after creation, "SOMETHING" after the override, unset after drop; overall only the removal the test itself makes remains |
| TempEnv.WithExistingVariable | src/lib.rs:50-61 | the test's steps hold on any environment: snapshot "INITIAL", unset after creation, "SOMETHING" after the override, "INITIAL" after drop; overall only the test's own `set_var` remains |
| TempEnv.NestedHandles | src/lib.rs:7-28 | two handles on one key dropped in LIFO order: the inner drop brings back the outer override, the outer drop the original environment |
| TempEnv.OuterOverrideLost | src/lib.rs:16-28 | overriding an outer handle while an inner handle on the same key is live: the inner drop unsets the key, so the outer override is lost; the outer drop still restores the original environment |
| TempEnv.ExternalChangeDiscarded | src/lib.rs:24-27 | a write to the key by someone else between creation and drop is discarded: the environment ends exactly as it began |

## Left out

- The real operating-system environment and the `std::env` calls. They are modelled by the in-memory `Env` table and its three methods.
- Thread safety and races on the shared environment. The code takes no lock, and the model is sequential.
- Key and value validity. `set_var` and `remove_var` panic on an empty key or one containing `=` or NUL, and `set_var` also panics on a value containing NUL, so `with` on such a value panics. The model accepts any key and any value and puts no `requires` on them. `key` is meant to be a non-empty name, but the code does not check that.
- Non-Unicode values. `std::env::var` fails on them, and `.ok()` turns that failure into `None`. `new` then removes the variable and drop removes it again, so a variable holding a non-Unicode value is lost, not restored. Values are `string` in the model, so `RoundTrip`, `ScopeRestores` and the scenario methods hold only for Unicode values.
- Overriding an outer handle while an inner handle on the same key is live. `Block` cannot express it, so `ScopeRestores` says nothing about it. Its outcome, that the inner drop discards the outer override, is shown by `OuterOverrideLost`.
- Implicit drop timing and unwinding. Rust runs drop at scope exit on every path, including a panic. The model has an explicit `Drop` call that may run only once. Whether it runs on a panic path is not modelled.
- Move semantics. In Rust, `with` consumes the handle and returns it, so the old binding cannot be used again. The model returns the same reference.
- Public fields. In Rust, `key` and `initial_value` are `pub` and a caller could reassign them. The source never does, so the model makes them `const`.
- Non-LIFO drop order of two handles on one key. Its outcome is not specified, and the model states nothing about it.
