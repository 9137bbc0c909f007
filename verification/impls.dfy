/**
 * The operation dispatchers (src/impls.rs). Each operation moves the storage
 * out of the consumed vector, changes it through `Vec`, and wraps it again under
 * the output tag its type function computes. Where the tags are static the
 * result is direct; where a tag is dynamic it is an `Option`. A combination the
 * type functions reject has no implementation, so the operations require that
 * it is not rejected.
 */
module Impls {
  import opened Options
  import opened Sizes
  import opened Storage
  import opened Vects

  /** `VectFactory::from_vec` as written: any storage under any tag, with no check that they agree. */
  function FromVecTagged<T>(data: seq<T>, tag: Size): (r: Vect<T>)
    ensures IntoVec(r) == data && r.tag == tag
    ensures Valid(r) <==> Admits(tag, |data|)
  {
    Vect(data, tag)
  }

  /**
   * The factory is public, so a caller can tag empty storage as `U3`; `len`
   * then says 3 and a static `get` at index 0 is proven although no element
   * exists, so its unchecked read would leave the storage.
   */
  lemma UncheckedFactoryBreaksStaticGet()
    ensures var v := FromVecTagged<nat>([], Static(3));
      !Valid(v) && Len(v) == 3 && CheckIndex(v.tag, TypeOf(Const(0))) == Proven && |IntoVec(v)| <= ToUsize(Const(0))
  {
  }

  /** The factory restricted to storage its tag admits, as every dispatcher calls it. */
  function Rewrap<T>(data: seq<T>, tag: Size): (r: Vect<T>)
    requires Admits(tag, |data|)
    ensures Valid(r) && r.tag == tag && IntoVec(r) == data && Len(r) == |data|
  {
    FromVecTagged(data, tag)
  }

  /** `impl_push`: appends the element; the tag goes up by one and the length with it. */
  method Push<T>(input: Vect<T>, item: T) returns (output: Vect<T>)
    requires Valid(input)
    ensures Valid(output) && output.tag == IncreaseOne(input.tag)
    ensures output.data == VecPush(input.data, item)
    ensures Len(output) == Len(input) + 1
  {
    var data := input.data;
    data := VecPush(data, item);
    output := Rewrap(data, IncreaseOne(input.tag));
  }

  /** The shape of a pop's result: the pair, an `Option` of it, or no implementation. */
  datatype PopShape = PopPair(out: Size) | PopOption(out: Size) | PopRejected

  /**
   * The `Pop` type function: through `DecreaseOne`, a static nonzero length
   * pops to a pair tagged one less, `Dyn` to an `Option` of a `Dyn`-tagged pair,
   * and a static zero has no arm.
   */
  function PopOutput(tag: Size): (r: PopShape)
    ensures r.PopRejected? <==> tag == Static(0)
    ensures r.PopOption? <==> IsDyn(tag)
    ensures r.PopOption? ==> r.out == Dyn
    ensures r.PopPair? ==> !IsDyn(r.out) && forall n: nat :: Admits(tag, n) ==> n > 0 && Admits(r.out, n - 1)
  {
    match DecreaseOne(tag)
    case DecOption => PopOption(Dyn)
    case DecOk(s) => PopPair(s)
    case DecRejected => PopRejected
  }

  /** `PopPrivate` into a pair: the storage must not be empty (`unwrap`); returns the last element and the rest. */
  method PopUnwrap<T>(input: Vect<T>, outTag: Size) returns (output: Vect<T>, elem: T)
    requires |input.data| > 0
    requires Admits(outTag, |input.data| - 1)
    ensures Valid(output) && output.tag == outTag
    ensures VecPush(output.data, elem) == input.data
  {
    var data := input.data;
    var popped := VecPop(data);
    data, elem := popped.value.0, popped.value.1;
    output := Rewrap(data, outTag);
  }

  /** `PopPrivate` into an `Option`: nothing on empty storage, otherwise the last element and the rest. */
  method PopChecked<T>(input: Vect<T>, outTag: Size) returns (r: Option<(Vect<T>, T)>)
    requires |input.data| > 0 ==> Admits(outTag, |input.data| - 1)
    ensures r.None? <==> input.data == []
    ensures r.Some? ==> Valid(r.value.0) && r.value.0.tag == outTag
    ensures r.Some? ==> VecPush(r.value.0.data, r.value.1) == input.data
  {
    var data := input.data;
    var popped := VecPop(data);
    if popped.None? {
      return None;
    }
    var elem;
    data, elem := popped.value.0, popped.value.1;
    r := Some((Rewrap(data, outTag), elem));
  }

  /** The result of `pop`: a pair on the proven path, an `Option` of one on the runtime path. */
  datatype Popped<T> = Pair(rest: Vect<T>, elem: T) | Maybe(opt: Option<(Vect<T>, T)>)

  /**
   * `impl_pop`: a static length pops directly, one less and the last element;
   * a dynamic one yields nothing when empty, otherwise the prefix tagged `Dyn`
   * and the last element.
   */
  method Pop<T>(input: Vect<T>) returns (r: Popped<T>)
    requires Valid(input)
    requires !PopOutput(input.tag).PopRejected?
    ensures r.Pair? <==> !IsDyn(input.tag)
    ensures r.Pair? ==> Valid(r.rest) && r.rest.tag == PopOutput(input.tag).out && Len(r.rest) + 1 == Len(input)
    ensures r.Pair? ==> VecPush(r.rest.data, r.elem) == input.data
    ensures r.Maybe? ==> (r.opt.None? <==> input.data == [])
    ensures r.Maybe? && r.opt.Some? ==> Valid(r.opt.value.0) && r.opt.value.0.tag == Dyn
    ensures r.Maybe? && r.opt.Some? ==> VecPush(r.opt.value.0.data, r.opt.value.1) == input.data
  {
    match PopOutput(input.tag)
    case PopPair(out) =>
      var rest, elem := PopUnwrap(input, out);
      r := Pair(rest, elem);
    case PopOption(out) =>
      var opt := PopChecked(input, out);
      r := Maybe(opt);
  }

  /** `GetPrivate` on the proven path: reads without a bounds check, which the index check makes safe. */
  function GetUnchecked<T>(input: Vect<T>, index: SizeValue): (r: T)
    requires Valid(input)
    requires CheckIndex(input.tag, TypeOf(index)) == Proven
    ensures ToUsize(index) < |input.data| && r == input.data[ToUsize(index)]
  {
    input.data[ToUsize(index)]
  }

  /** `GetPrivate` on the runtime path: `Vec::get` at the index's run-time value. */
  function GetChecked<T>(input: Vect<T>, index: SizeValue): (r: Option<T>)
    ensures r.Some? <==> ToUsize(index) < |input.data|
    ensures r.Some? ==> r.value == input.data[ToUsize(index)]
  {
    VecGet(input.data, ToUsize(index))
  }

  /** The result of `get`: a direct reference, or an `Option` of one. */
  datatype Got<T> = Direct(elem: T) | Checked(opt: Option<T>)

  /** The element a `get` result carries, if any. */
  function Element<T>(g: Got<T>): Option<T> {
    match g
    case Direct(e) => Some(e)
    case Checked(o) => o
  }

  /**
   * `impl_get`: the direct path exactly when length and index are both static,
   * and then it always finds an element; on either path the element is the one
   * `Vec::get` finds, and the vector is only read.
   */
  function Get<T>(input: Vect<T>, index: SizeValue): (r: Got<T>)
    requires CheckIndex(input.tag, TypeOf(index)) != Rejected
    requires CheckIndex(input.tag, TypeOf(index)) == Proven ==> Valid(input)
    ensures r.Direct? <==> !IsDyn(input.tag) && !IsDyn(TypeOf(index))
    ensures r.Direct? ==> ToUsize(index) < |input.data|
    ensures Element(r) == VecGet(input.data, ToUsize(index))
  {
    match CheckIndex(input.tag, TypeOf(index))
    case Proven => Direct(GetUnchecked(input, index))
    case Runtime => Checked(GetChecked(input, index))
  }

  /** On a valid vector the proven path returns what the runtime path would have found. */
  lemma UncheckedAgreesWithChecked<T>(input: Vect<T>, index: SizeValue)
    requires Valid(input)
    requires CheckIndex(input.tag, TypeOf(index)) == Proven
    ensures GetChecked(input, index) == Some(GetUnchecked(input, index))
  {
  }

  /**
   * `impl_insert`: the element lands at the index, earlier elements stay and
   * later ones move up; the tag goes up by one. `Vec::insert` panics past the
   * end, hence the bound on the index's run-time value.
   */
  method Insert<T>(input: Vect<T>, index: SizeValue, item: T) returns (output: Vect<T>)
    requires Valid(input)
    requires CheckIndexInclusive(input.tag, TypeOf(index)) != Rejected
    requires ToUsize(index) <= |input.data|
    ensures Valid(output) && output.tag == IncreaseOne(input.tag)
    ensures output.data == VecInsert(input.data, ToUsize(index), item)
    ensures Len(output) == Len(input) + 1
  {
    var data := input.data;
    data := VecInsert(data, ToUsize(index), item);
    output := Rewrap(data, IncreaseOne(input.tag));
  }

  /**
   * `impl_remove`: returns the element at the index and the rest, tagged one
   * less; re-inserting the element restores the input. Only a static nonzero
   * length has a `DecreaseOne` that is a size; `Vec::remove` panics out of
   * range, hence the bound on the index's run-time value.
   */
  method Remove<T>(input: Vect<T>, index: SizeValue) returns (output: Vect<T>, item: T)
    requires Valid(input)
    requires DecreaseOne(input.tag).DecOk?
    requires CheckIndex(input.tag, TypeOf(index)) != Rejected
    requires ToUsize(index) < |input.data|
    ensures Valid(output) && output.tag == DecreaseOne(input.tag).size
    ensures item == input.data[ToUsize(index)]
    ensures VecInsert(output.data, ToUsize(index), item) == input.data
    ensures Len(output) + 1 == Len(input)
  {
    var data := input.data;
    var removed := VecRemove(data, ToUsize(index));
    data, item := removed.0, removed.1;
    output := Rewrap(data, DecreaseOne(input.tag).size);
  }
}
