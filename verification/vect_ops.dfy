/**
 * The operation methods of `Vect` (src/vect.rs). `push` and `pop` hand the
 * vector to the dispatchers as it is; `get`, `insert` and `remove` first turn
 * the index into a size with `IntoSize`, so a plain `usize` index always takes
 * the runtime path, even on a vector whose length is static.
 */
module VectOps {
  import opened Options
  import opened Sizes
  import opened Storage
  import opened Vects
  import Impls

  /** `Vect::push`: appends, one more element and a tag one higher. */
  method Push<T>(v: Vect<T>, elem: T) returns (w: Vect<T>)
    requires Valid(v)
    ensures Valid(w) && w.tag == IncreaseOne(v.tag) && Len(w) == Len(v) + 1
    ensures IntoVec(w) == VecPush(IntoVec(v), elem)
  {
    w := Impls.Push(v, elem);
  }

  /** `Vect::pop`: the pair on a static length, an `Option` of it on `Dyn`; rejected on static zero. */
  method Pop<T>(v: Vect<T>) returns (r: Impls.Popped<T>)
    requires Valid(v)
    requires v.tag != Static(0)
    ensures r.Pair? <==> !IsDyn(v.tag)
    ensures r.Pair? ==> Valid(r.rest) && !IsDyn(r.rest.tag) && Len(r.rest) + 1 == Len(v)
    ensures r.Pair? ==> VecPush(IntoVec(r.rest), r.elem) == IntoVec(v)
    ensures r.Maybe? ==> (r.opt.None? <==> IntoVec(v) == [])
    ensures r.Maybe? && r.opt.Some? ==> Valid(r.opt.value.0) && r.opt.value.0.tag == Dyn
    ensures r.Maybe? && r.opt.Some? ==> VecPush(IntoVec(r.opt.value.0), r.opt.value.1) == IntoVec(v)
  {
    r := Impls.Pop(v);
  }

  /**
   * `Vect::get`: a plain `usize` index always gives an `Option`; a static index
   * on a static length gives the element directly. Either way the element is
   * the one at the index's value, if there is one.
   */
  function Get<T>(v: Vect<T>, index: IndexArg): (r: Impls.Got<T>)
    requires CheckIndex(v.tag, TypeOf(IntoSize(index))) != Rejected
    requires CheckIndex(v.tag, TypeOf(IntoSize(index))) == Proven ==> Valid(v)
    ensures index.Plain? ==> r.Checked?
    ensures r.Direct? <==> !IsDyn(v.tag) && index.Typed? && index.v.Const?
    ensures Impls.Element(r) == VecGet(IntoVec(v), ToUsize(IntoSize(index)))
  {
    Impls.Get(v, IntoSize(index))
  }

  /** `Vect::insert`: the element at the index's value, a tag one higher. */
  method Insert<T>(v: Vect<T>, index: IndexArg, elem: T) returns (w: Vect<T>)
    requires Valid(v)
    requires CheckIndexInclusive(v.tag, TypeOf(IntoSize(index))) != Rejected
    requires ToUsize(IntoSize(index)) <= Len(v)
    ensures Valid(w) && w.tag == IncreaseOne(v.tag) && Len(w) == Len(v) + 1
    ensures IntoVec(w) == VecInsert(IntoVec(v), ToUsize(IntoSize(index)), elem)
  {
    w := Impls.Insert(v, IntoSize(index), elem);
  }

  /** `Vect::remove`: the element at the index's value and the rest, a tag one lower. */
  method Remove<T>(v: Vect<T>, index: IndexArg) returns (w: Vect<T>, elem: T)
    requires Valid(v)
    requires DecreaseOne(v.tag).DecOk?
    requires CheckIndex(v.tag, TypeOf(IntoSize(index))) != Rejected
    requires ToUsize(IntoSize(index)) < Len(v)
    ensures Valid(w) && w.tag == DecreaseOne(v.tag).size && Len(w) + 1 == Len(v)
    ensures elem == IntoVec(v)[ToUsize(IntoSize(index))]
    ensures VecInsert(IntoVec(w), ToUsize(IntoSize(index)), elem) == IntoVec(v)
  {
    w, elem := Impls.Remove(v, IntoSize(index));
  }
}
