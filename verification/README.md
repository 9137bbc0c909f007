# type-vec: a vector whose length lives in its type

This project models, in Dafny, the core of `type-vec`, a Rust vector `Vect<T, S>`
whose length type `S` is either a compile-time constant (typenum's `U0`, `U1`, …)
or `Dyn`, known only at run time. The length type of the result is computed by
type functions (`push` makes no further decision). For `pop` and `get` the
library picks a path from the size types: `pop` gives a direct pair on a static
length and an `Option` on `Dyn`; `get` gives the element directly when length
and index are both static (and the index check is proven), an `Option` when
either is dynamic.
For `insert` and `remove` every path calls the same `Vec` operation, which
panics on an out-of-range index; a static length and index only move that
rejection to build time. A combination the type functions have no match arm for
does not type-check.

Modules, one per source file or collaborator:

- `Sizes` (`sizes.dfy`, src/size.rs): `Size = Static(n) | Dyn`, size values
  (`Const(n)`, `DynValue(v)` for `Dyn(usize)`), `IntoSize`, `to_usize`, and the
  type functions `IsDyn`, `IncreaseOne`, `DecreaseOne`, `SizeAdd`, `CheckIndex`,
  `CheckIndexInclusive`. A build-time rejection ("no match arm") is an explicit
  outcome (`DecRejected`, `Rejected`), so properties about rejection can be
  stated. Their contracts are stated through `Admits(s, n)`: the size type `s`
  admits the run-time quantity `n` (a constant only itself, `Dyn` every one).
- `Storage` (`storage.dfy`): the `Vec<T>` operations the dispatchers call
  (`push`, `pop`, `insert`, `remove`, `get`) as functions on sequences, with
  their round trips.
- `Vects` (`vects.dfy`, src/vect.rs): the `Vect` value (`data`, `tag`), its
  length invariant `Valid` (the tag admits the element count), the
  constructors, `len`, `into_static`, `into_dyn`, `into_vec`.
- `Impls` (`impls.dfy`, src/impls.rs): `VectFactory::from_vec`, the `Pop` type
  function, and the dispatchers `impl_push`, `impl_pop` (both `PopPrivate`
  arms), `impl_get` (both `GetPrivate` arms), `impl_insert`, `impl_remove`.
  The ones that move the storage out, change it and rewrap it are methods.
- `VectOps` (`vect_ops.dfy`, src/vect.rs:107-156): the `Vect` methods that
  forward to the dispatchers, `get`/`insert`/`remove` after `IntoSize` on the
  index.
- `Scenario` (`scenario.dfy`): the scenario of tests/test.rs with its expected
  values.

## Model

| member | source | states |
|---|---|---|
| `Sizes.IsDyn` | src/size.rs:84-91 | true exactly for a size that admits every quantity, i.e. `Dyn`; false for every static size |
| `Sizes.IncreaseOne` | src/size.rs:93-100 | total; keeps dynamic-ness; whatever `n` the input admits, the result admits `n + 1` (so `U0` goes to `U1`, static `n` to `n + 1`, `Dyn` to `Dyn`) |
| `Sizes.DecreaseOne` | src/size.rs:102-108 | rejected exactly on static zero; the fallible marker `Option<Dyn>` exactly on `Dyn`; otherwise a static size admitting one less than the input |
| `Sizes.SizeAdd` | src/size.rs:110-116 | dynamic iff an operand is; admits the sum of any quantities the operands admit |
| `Sizes.CheckIndex` | src/size.rs:118-126 | run-time check iff a side is `Dyn`; proven only when every admitted index is below every admitted length; rejected only when none is |
| `Sizes.CheckIndexInclusive` | src/size.rs:128-136 | as `CheckIndex` with the bound `index <= length` |
| `Sizes.ToUsize` | src/size.rs:51-75 | the carried value for `Dyn(v)`, the constant for a static size; the value's own type always admits it |
| `Sizes.IntoSize` | src/size.rs:13-47 | a plain `usize` becomes a `Dyn` value with the same number; size values pass through unchanged |
| `Sizes.IncreaseThenDecrease` | src/size.rs:93-108 | `DecreaseOne(IncreaseOne(s))` is `s` for static sizes and the fallible marker for `Dyn` |
| `Sizes.DecreaseThenIncrease` | src/size.rs:93-108 | incrementing a successfully decremented size gives it back |
| `Sizes.IncreaseIsAddOne` | src/size.rs:93-116 | `IncreaseOne(s)` equals `SizeAdd(s, U1)` |
| `Sizes.SizeAddLaws` | src/size.rs:110-116 | `SizeAdd` is commutative, associative, with `U0` as identity |
| `Sizes.StrictImpliesInclusive` | src/size.rs:118-136 | strict acceptance implies inclusive acceptance; inclusive rejection implies strict rejection |
| `Sizes.InclusiveIsStrictOnIncrease` | src/size.rs:118-136 | the inclusive check on a length equals the strict check on that length plus one |
| `Sizes.PlainIndexIsRuntimeChecked` | src/size.rs:13-19 | a plain `usize` index makes both checks run-time, whatever the length |
| `Storage.VecPush` | src/impls.rs:68 | `Vec::push`: one longer, old elements in place, the new one last |
| `Storage.VecPop` | src/impls.rs:115 | `Vec::pop`: nothing exactly on empty storage, otherwise a prefix and last element that pushing back restores |
| `Storage.VecInsert` | src/impls.rs:224 | `Vec::insert`: the element at `i`, earlier elements in place, later ones shifted up by one |
| `Storage.VecRemove` | src/impls.rs:254 | `Vec::remove`: returns the element at `i` and a rest one shorter into which re-inserting it at `i` restores the input |
| `Storage.VecGet` | src/impls.rs:195 | `Vec::get`: `Some` of the element iff the index is in range |
| `Storage.PopAfterPush` | src/impls.rs:66-70 | popping right after a push returns the pushed element and the old storage |
| `Storage.RemoveAfterInsert` | src/impls.rs:222-259 | removing at `i` right after inserting at `i` returns the inserted element and the old storage |
| `Storage.InsertAtEndIsPush` | src/impls.rs:222-226 | inserting at index `len` is pushing |
| `Vects.NewStatic` | src/vect.rs:21-26 | `Vect::<T, U0>::new`: empty storage tagged static zero, valid |
| `Vects.WithCapacityStatic` | src/vect.rs:29-34 | as `new` for `U0`; the capacity does not change the contents |
| `Vects.NewDyn` | src/vect.rs:44-49 | `Vect::<T, Dyn>::new`: empty storage tagged `Dyn`, valid |
| `Vects.FromVec` | src/vect.rs:52-57 | `Vect::<T, Dyn>::from_vec`: stores its argument unchanged under `Dyn`; valid, length = argument length |
| `Vects.WithCapacityDyn` | src/vect.rs:60-65 | as `new` for `Dyn` |
| `Vects.Len` | src/vect.rs:37-39 | `len` (also src/vect.rs:68-70 and 98-100): the constant for a static tag (0 for `U0`), the storage length for `Dyn`; on a valid vector, the element count |
| `Vects.IntoStatic` | src/vect.rs:76-89 | on a `Dyn` vector: `Some` with the same storage tagged `Static(target)` iff the storage holds `target` elements, `None` otherwise |
| `Vects.IntoDyn` | src/vect.rs:159-164 | same storage tagged `Dyn`; always valid; keeps the length of a valid vector |
| `Vects.IntoVec` | src/vect.rs:167-169 | the storage, as long as `len` says on a valid vector |
| `Vects.IntoStaticAfterIntoDyn` | src/vect.rs:76-89 | `into_static(into_dyn(v))` succeeds exactly at `len(v)`, with the same contents (with `v` itself when `v` was static) |
| `Vects.FromVecIntoVec` | src/vect.rs:52-57 | `into_vec(from_vec(d)) == d`, and `from_vec(into_vec(v)) == v` for a `Dyn` vector |
| `Impls.FromVecTagged` | src/impls.rs:34-43 | `VectFactory::from_vec` as written: the storage under any tag; the result is valid iff the tag admits the storage length |
| `Impls.UncheckedFactoryBreaksStaticGet` | src/impls.rs:30-43 | empty storage tagged `U3` is invalid, `len` says 3, and a static get at `U0` is proven although there is no element |
| `Impls.Rewrap` | src/impls.rs:38-43 | the factory as every dispatcher uses it: with storage its tag admits, the result is valid and `len` is the storage length |
| `Impls.Push` | src/impls.rs:58-71 | `impl_push` with the `Push` type function (src/impls.rs:10-13): storage with the element appended, tag `IncreaseOne`, length plus one, never fails |
| `Impls.PopOutput` | src/impls.rs:15-25 | the `Pop` type function: rejected iff static zero; an `Option` of a `Dyn`-tagged pair iff `Dyn`; otherwise a static pair tag admitting one less |
| `Impls.PopUnwrap` | src/impls.rs:120-133 | pair arm: on non-empty storage, the last element and the prefix, under the output tag |
| `Impls.PopChecked` | src/impls.rs:106-118 | `Option` arm: `None` iff the storage is empty, otherwise `Some` of the prefix under the output tag and the last element |
| `Impls.Pop` | src/impls.rs:88-97 | `impl_pop`: a direct pair iff the length is static (then length minus one and the last element); on `Dyn` an `Option` that is `None` iff empty |
| `Impls.GetUnchecked` | src/impls.rs:173-184 | proven arm: on a valid vector with a proven check the index is in range, so the unchecked read returns the element at it |
| `Impls.GetChecked` | src/impls.rs:186-197 | runtime arm: `Some` of the element iff the index's run-time value is in range |
| `Impls.Get` | src/impls.rs:149-164 | `impl_get`: direct iff length and index are both static, and then always in range; on both paths the element `Vec::get` finds |
| `Impls.UncheckedAgreesWithChecked` | src/impls.rs:173-197 | on a valid vector with a proven check, the unchecked read equals what the checked path returns |
| `Impls.Insert` | src/impls.rs:214-227 | `impl_insert`: requires the inclusive check not rejected and (the panic) index at most the length; storage with the element inserted, tag `IncreaseOne`, length plus one |
| `Impls.Remove` | src/impls.rs:244-260 | `impl_remove`: requires a static nonzero length, the strict check not rejected and (the panic) index below the length; returns the element at the index and the rest tagged `DecreaseOne`, which re-inserting restores |
| `VectOps.Push` | src/vect.rs:107-113 | `Vect::push` forwards: contents with the element appended, tag and length one higher |
| `VectOps.Pop` | src/vect.rs:115-121 | `Vect::pop` forwards: a direct pair iff static, otherwise an `Option`; rejected on `U0` |
| `VectOps.Get` | src/vect.rs:123-132 | a plain `usize` index always yields the `Option` path; direct iff static length and static index; the element is the one at the index's value |
| `VectOps.Insert` | src/vect.rs:134-144 | `Vect::insert` after `IntoSize`: the element at the index's value, tag and length one higher |
| `VectOps.Remove` | src/vect.rs:146-156 | `Vect::remove` after `IntoSize`: the element at the index's value and the rest, tag and length one lower |
| `Scenario.Build` | tests/test.rs:6-40 | pushes 3, 1, 4 onto `U0`, inserts 7 at `U0`, 5 at `U4`, 6 at `usize` 5, removes at `U5` (6) and at `usize` 4 (5), leaving `[7, 3, 1, 4]` tagged `U4` |
| `Scenario.StaticGets` | tests/test.rs:42-65 | static gets at `U0`..`U3` are direct and give 7, 3, 1, 4; `usize` gets give `Some` of those and `None` at 4 |
| `Scenario.TwoPops` | tests/test.rs:67-71 | two pops give 4 then 1, leaving `[7, 3]` tagged `U2` |
| `Scenario.DynGets` | tests/test.rs:73-100 | after `into_dyn` and pushing 2 and 5, gets by static and by `usize` index both give `Some(7)`, `Some(3)`, `Some(2)`, `Some(5)`, `None` |
| `Scenario.StaticVecTest` | tests/test.rs:4-101 | the whole test with every value it asserts |
| `Scenario.RejectedCalls` | tests/test.rs:8-53 | the calls the test marks as not compiling (pop and remove on `U0`, insert at `U6` on `U5`, remove at `U5` on `U5`, get at `U4` on `U4`) are rejected |

## Findings

| source | as written | input that shows it | evidently intended | confidence | as-written member | corrected member |
|---|---|---|---|---|---|---|
| src/impls.rs:30-43 | `VectFactory` is a public trait in the public `impls` module, so its `from_vec` wraps any storage under any length type, and the static `get` path then reads with `get_unchecked` relying on a length that was never checked | `<Vect<usize, U3> as VectFactory<usize>>::from_vec(vec![])` followed by `.get(U0::new())`: the check is proven, `len()` is 3, and `get_unchecked(0)` reads from empty storage | the factory reachable only from the dispatchers, which always pass storage whose length the output tag admits | medium, not executed | `Impls.UncheckedFactoryBreaksStaticGet` (about `Impls.FromVecTagged`) | `Impls.Rewrap` |

## Left out

- The `typ!` type-level language, typenum's binary `UInt<U, B>` encoding, and the trait plumbing (`PushImpl`, `PopPrivate`, `GetPrivate`, the `*ImplOp` aliases): static sizes are `nat`, and the dispatch decision is the `Size` datatype, explicit outcome values and `requires` clauses.
- Build-time rejection is modelled as a precondition: the operations require that the relevant type function does not reject, which stands for "the call does not type-check".
- Impls.Push, Impls.Pop, Impls.Insert, Impls.Remove and the `VectOps` methods require `Valid` of their input, the length invariant that every public constructor establishes; the public factory that can break it is the finding above.
- `remove` on a `Dyn`-tagged vector: its output type would be `Vect<T, DecreaseOneOp<Dyn>>` = `Vect<T, Option<Dyn>>`, and `Option<Dyn>` is not a `Size`, so the call does not type-check; `Impls.Remove` and `VectOps.Remove` require a static nonzero length. (`remove`'s output tag is `DecreaseOneOp<S>`, src/impls.rs:250, which is `Option<Dyn>` for `Dyn`, src/size.rs:104.)
- `Vect<T, Dyn>` carries no length in its tag (src/vect.rs:15-16), so `DecreaseOne(Dyn)` is the marker `Option<Dyn>` whatever the length; `pop` turns it into an `Option` result that is `None` only when the storage is empty.
- Panics of `Vec::insert`, `Vec::remove` and `pop().unwrap()` are preconditions on the index or storage; the memory safety of `get_unchecked` is the precondition `Valid` plus a proven check, from which the index bound is proved.
- `impl_push`, `impl_pop`, `impl_insert` and `impl_remove` (src/impls.rs:66-70, 113-117, 128-132, 222-226, 252-259) change their `Vec` in place; the methods `Impls.Push`, `Impls.PopChecked`, `Impls.PopUnwrap`, `Impls.Insert` and `Impls.Remove` instead update a local sequence value moved out of the consumed vector. In-place update and reallocation are not modelled; since each `Vec` is owned by exactly one vector and never aliased, no caller can observe the difference.
- Capacity hints (`with_capacity` ignores its argument), `PhantomData`, and the derived `Debug`/`Clone`/`Ord`/`Hash`/`Eq`.
- `get` returns the element by value, not a borrowed reference with a lifetime.
- `usize` width: lengths and indices are unbounded naturals; no 64-bit overflow is modelled.
- src/lib.rs (module wiring and documentation examples); src/common.rs is not part of this model (imports only).
