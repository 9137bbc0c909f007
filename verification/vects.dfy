/**
 * The vector with a type-level length (src/vect.rs): its storage and its size
 * tag, the constructors, `len` and the conversions between static and dynamic
 * length. Every method consumes its input, so a vector is a value.
 */
module Vects {
  import opened Options
  import opened Sizes

  /** `Vect<T, S>`: the elements, and the size type `S` the vector is declared with. */
  datatype Vect<T> = Vect(data: seq<T>, tag: Size)

  /** The length invariant: the tag admits the number of stored elements. */
  predicate Valid<T>(v: Vect<T>) {
    Admits(v.tag, |v.data|)
  }

  /** `Vect::<T, U0>::new`: empty, with static length zero. */
  function NewStatic<T>(): (r: Vect<T>)
    ensures Valid(r) && r.tag == Static(0) && IntoVec(r) == []
  {
    Vect([], Static(0))
  }

  /** `Vect::<T, U0>::with_capacity`: as `new`; the capacity only reserves room. */
  function WithCapacityStatic<T>(capacity: nat): (r: Vect<T>)
    ensures Valid(r) && r.tag == Static(0) && IntoVec(r) == []
  {
    Vect([], Static(0))
  }

  /** `Vect::<T, Dyn>::new`: empty, with dynamic length. */
  function NewDyn<T>(): (r: Vect<T>)
    ensures Valid(r) && r.tag == Dyn && IntoVec(r) == []
  {
    Vect([], Dyn)
  }

  /** `Vect::<T, Dyn>::with_capacity`: as `new`; the capacity only reserves room. */
  function WithCapacityDyn<T>(capacity: nat): (r: Vect<T>)
    ensures Valid(r) && r.tag == Dyn && IntoVec(r) == []
  {
    Vect([], Dyn)
  }

  /** `Vect::<T, Dyn>::from_vec`: any storage, unchanged, under the dynamic tag. */
  function FromVec<T>(data: seq<T>): (r: Vect<T>)
    ensures Valid(r) && r.tag == Dyn && IntoVec(r) == data && Len(r) == |data|
  {
    Vect(data, Dyn)
  }

  /**
   * `len`: the constant of a static tag (zero for `U0`) without looking at the
   * storage, the storage length for `Dyn`; on a valid vector, the element count.
   */
  function Len<T>(v: Vect<T>): (r: nat)
    ensures Valid(v) ==> r == |v.data|
    ensures !IsDyn(v.tag) ==> Admits(v.tag, r)
  {
    match v.tag
    case Static(n) => n
    case Dyn => |v.data|
  }

  /** `into_static::<S>` on a dynamic vector: the same storage under `Static(target)` exactly when it holds `target` elements. */
  function IntoStatic<T>(v: Vect<T>, target: nat): (r: Option<Vect<T>>)
    requires v.tag == Dyn
    ensures r.Some? <==> |v.data| == target
    ensures r.Some? ==> Valid(r.value) && r.value.tag == Static(target) && IntoVec(r.value) == IntoVec(v)
  {
    if |v.data| == target then Some(Vect(v.data, Static(target))) else None
  }

  /** `into_dyn`: the same storage under the dynamic tag; always valid, and the length is kept. */
  function IntoDyn<T>(v: Vect<T>): (r: Vect<T>)
    ensures Valid(r) && r.tag == Dyn && IntoVec(r) == IntoVec(v)
    ensures Valid(v) ==> Len(r) == Len(v)
  {
    Vect(v.data, Dyn)
  }

  /** `into_vec`: the storage, as many elements as `len` says on a valid vector. */
  function IntoVec<T>(v: Vect<T>): (r: seq<T>)
    ensures Valid(v) ==> |r| == Len(v)
  {
    v.data
  }

  /**
   * Going dynamic and back at the vector's own length gives the same contents
   * (the vector itself when it was static); at any other length it fails.
   */
  lemma IntoStaticAfterIntoDyn<T>(v: Vect<T>, target: nat)
    requires Valid(v)
    ensures IntoStatic(IntoDyn(v), target).Some? <==> target == Len(v)
    ensures target == Len(v) ==> IntoVec(IntoStatic(IntoDyn(v), target).value) == IntoVec(v)
    ensures target == Len(v) && !IsDyn(v.tag) ==> IntoStatic(IntoDyn(v), target) == Some(v)
  {
  }

  /** Wrapping storage with `from_vec` and unwrapping with `into_vec` are inverse. */
  lemma FromVecIntoVec<T>(data: seq<T>, v: Vect<T>)
    requires v.tag == Dyn
    ensures IntoVec(FromVec(data)) == data
    ensures FromVec(IntoVec(v)) == v
  {
  }
}
