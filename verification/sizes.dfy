/**
 * Type-level lengths and indices (src/size.rs).
 *
 * A length or index type is either a compile-time constant (typenum's `UTerm`
 * for zero and `UInt` for the rest, here `Static(n)`) or `Dyn`, whose value is
 * only known at run time. The type functions below decide, for each
 * combination, whether an operation is proven ahead of time, checked at run
 * time, or has no match arm at all (the build is rejected).
 */
module Sizes {

  /** A size type: a typenum constant or `Dyn`. */
  datatype Size = Static(n: nat) | Dyn

  /** A value of a size type: a typenum constant, or `Dyn(usize)` carrying its run-time value. */
  datatype SizeValue = Const(n: nat) | DynValue(value: nat)

  /** An index argument as a caller writes it: a plain `usize`, or a value of a size type. */
  datatype IndexArg = Plain(n: nat) | Typed(v: SizeValue)

  /** Outcome of `DecreaseOne`: a size, the fallible marker `Option<Dyn>`, or no match arm. */
  datatype Decrement = DecOk(size: Size) | DecOption | DecRejected

  /** Outcome of the index checks: `()` (proven), `Option<()>` (checked at run time) or no match arm. */
  datatype Check = Proven | Runtime | Rejected

  /** The size type `s` admits the run-time quantity `n`: a constant admits only itself, `Dyn` admits all. */
  predicate Admits(s: Size, n: nat) {
    s.Static? ==> s.n == n
  }

  /** `IsDyn`: a size type is dynamic exactly when it pins down no particular quantity. */
  function IsDyn(s: Size): (r: bool)
    ensures r <==> forall n: nat :: Admits(s, n)
  {
    match s
    case Dyn => true
    case Static(k) =>
      assert !Admits(s, k + 1);
      false
  }

  /** `IncreaseOne`: total; keeps dynamic-ness and admits one more than any quantity its input admits. */
  function IncreaseOne(s: Size): (r: Size)
    ensures IsDyn(r) == IsDyn(s)
    ensures forall n: nat :: Admits(s, n) ==> Admits(r, n + 1)
  {
    match s
    case Dyn => Dyn
    case Static(k) => Static(k + 1)
  }

  /**
   * `DecreaseOne`: a static zero has no arm (rejected), `Dyn` gives the fallible
   * marker, and a static `n > 0` gives a static size admitting one less.
   */
  function DecreaseOne(s: Size): (r: Decrement)
    ensures r.DecRejected? <==> s == Static(0)
    ensures r.DecOption? <==> IsDyn(s)
    ensures r.DecOk? ==> !IsDyn(r.size) && forall n: nat :: Admits(s, n) ==> n > 0 && Admits(r.size, n - 1)
  {
    match s
    case Dyn => DecOption
    case Static(k) => if k == 0 then DecRejected else DecOk(Static(k - 1))
  }

  /** `SizeAdd`: dynamic when either side is, and always admits the sum of what its operands admit. */
  function SizeAdd(lhs: Size, rhs: Size): (r: Size)
    ensures IsDyn(r) <==> IsDyn(lhs) || IsDyn(rhs)
    ensures forall m: nat, n: nat :: Admits(lhs, m) && Admits(rhs, n) ==> Admits(r, m + n)
  {
    if IsDyn(lhs) || IsDyn(rhs) then Dyn else Static(lhs.n + rhs.n)
  }

  /**
   * `CheckIndex` (strict bound): run time whenever a side is dynamic; otherwise
   * proven exactly when every admitted index is below every admitted length,
   * and rejected exactly when none is.
   */
  function CheckIndex(length: Size, index: Size): (r: Check)
    ensures r == Runtime <==> IsDyn(length) || IsDyn(index)
    ensures r == Proven ==> forall l: nat, i: nat :: Admits(length, l) && Admits(index, i) ==> i < l
    ensures r == Rejected ==> forall l: nat, i: nat :: Admits(length, l) && Admits(index, i) ==> l <= i
  {
    if IsDyn(length) || IsDyn(index) then Runtime
    else if index.n < length.n then Proven
    else Rejected
  }

  /** `CheckIndexInclusive`: as `CheckIndex`, with the bound `index <= length`. */
  function CheckIndexInclusive(length: Size, index: Size): (r: Check)
    ensures r == Runtime <==> IsDyn(length) || IsDyn(index)
    ensures r == Proven ==> forall l: nat, i: nat :: Admits(length, l) && Admits(index, i) ==> i <= l
    ensures r == Rejected ==> forall l: nat, i: nat :: Admits(length, l) && Admits(index, i) ==> l < i
  {
    if IsDyn(length) || IsDyn(index) then Runtime
    else if index.n <= length.n then Proven
    else Rejected
  }

  /** The size type a size value belongs to. */
  function TypeOf(x: SizeValue): (s: Size)
    ensures IsDyn(s) <==> x.DynValue?
  {
    match x
    case Const(n) => Static(n)
    case DynValue(_) => Dyn
  }

  /** `Size::to_usize`: the carried value of `Dyn`, the constant of a static size; its type admits it. */
  function ToUsize(x: SizeValue): (r: nat)
    ensures Admits(TypeOf(x), r)
    ensures x.DynValue? ==> r == x.value
  {
    match x
    case Const(n) => n
    case DynValue(v) => v
  }

  /** `IntoSize`: a plain `usize` becomes `Dyn` with the same value; size values are left as they are. */
  function IntoSize(arg: IndexArg): (r: SizeValue)
    ensures arg.Plain? ==> IsDyn(TypeOf(r)) && ToUsize(r) == arg.n
    ensures arg.Typed? ==> r == arg.v
  {
    match arg
    case Plain(n) => DynValue(n)
    case Typed(v) => v
  }

  /** Decrementing an incremented size gives it back (through the fallible marker for `Dyn`). */
  lemma IncreaseThenDecrease(s: Size)
    ensures DecreaseOne(IncreaseOne(s)) == if IsDyn(s) then DecOption else DecOk(s)
  {
  }

  /** Incrementing a successfully decremented size gives it back. */
  lemma DecreaseThenIncrease(s: Size)
    requires DecreaseOne(s).DecOk?
    ensures IncreaseOne(DecreaseOne(s).size) == s
  {
  }

  /** `IncreaseOne` is `SizeAdd` with the constant one. */
  lemma IncreaseIsAddOne(s: Size)
    ensures IncreaseOne(s) == SizeAdd(s, Static(1))
  {
  }

  /** `SizeAdd` is commutative, associative and has the static zero as identity. */
  lemma SizeAddLaws(a: Size, b: Size, c: Size)
    ensures SizeAdd(a, b) == SizeAdd(b, a)
    ensures SizeAdd(SizeAdd(a, b), c) == SizeAdd(a, SizeAdd(b, c))
    ensures SizeAdd(a, Static(0)) == a
  {
  }

  /** A strictly proven index is inclusively proven; an inclusively rejected one is strictly rejected. */
  lemma StrictImpliesInclusive(length: Size, index: Size)
    ensures CheckIndex(length, index) == Proven ==> CheckIndexInclusive(length, index) == Proven
    ensures CheckIndexInclusive(length, index) == Rejected ==> CheckIndex(length, index) == Rejected
  {
  }

  /** The inclusive check on a length is the strict check on that length plus one. */
  lemma InclusiveIsStrictOnIncrease(length: Size, index: Size)
    ensures CheckIndexInclusive(length, index) == CheckIndex(IncreaseOne(length), index)
  {
  }

  /** A plain `usize` index can never reach the proven path of either check. */
  lemma PlainIndexIsRuntimeChecked(length: Size, n: nat)
    ensures CheckIndex(length, TypeOf(IntoSize(Plain(n)))) == Runtime
    ensures CheckIndexInclusive(length, TypeOf(IntoSize(Plain(n)))) == Runtime
  {
  }
}
