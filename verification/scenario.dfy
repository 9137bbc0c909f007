/**
 * The scenario of tests/test.rs run through the model: a vector built from
 * `U0` by pushes, static and `usize` inserts and removes, static and `usize`
 * gets, pops, then the conversion to `Dyn` and gets on it.
 */
module Scenario {
  import opened Options
  import opened Sizes
  import opened Vects
  import Impls
  import VectOps

  /** Pushes 3, 1, 4 onto `U0`, inserts 7 at `U0`, 5 at `U4` and 6 at `usize` 5, removes at `U5` and at `usize` 4. */
  method Build() returns (v: Vect<nat>, removed: seq<nat>)
    ensures Valid(v) && v.tag == Static(4) && IntoVec(v) == [7, 3, 1, 4]
    ensures removed == [6, 5]
  {
    v := NewStatic<nat>();
    v := VectOps.Push(v, 3);
    v := VectOps.Push(v, 1);
    v := VectOps.Push(v, 4);
    assert v.tag == Static(3) && IntoVec(v) == [3, 1, 4];

    v := VectOps.Insert(v, Typed(Const(0)), 7);
    assert IntoVec(v) == [7, 3, 1, 4];
    v := VectOps.Insert(v, Typed(Const(4)), 5);
    assert IntoVec(v) == [7, 3, 1, 4, 5];
    v := VectOps.Insert(v, Plain(5), 6);
    assert v.tag == Static(6) && IntoVec(v) == [7, 3, 1, 4, 5, 6];

    var first, second;
    v, first := VectOps.Remove(v, Typed(Const(5)));
    assert IntoVec(v) == [7, 3, 1, 4, 5];
    v, second := VectOps.Remove(v, Plain(4));
    assert IntoVec(v) == [7, 3, 1, 4];
    removed := [first, second];
  }

  /** On `[7, 3, 1, 4]` tagged `U4`: static gets are direct, `usize` gets are optional and miss at 4. */
  method StaticGets(v: Vect<nat>) returns (direct: seq<nat>, checked: seq<Option<nat>>)
    requires Valid(v) && v.tag == Static(4) && IntoVec(v) == [7, 3, 1, 4]
    ensures direct == [7, 3, 1, 4]
    ensures checked == [Some(7), Some(3), Some(1), Some(4), None]
  {
    var g0 := VectOps.Get(v, Typed(Const(0)));
    var g1 := VectOps.Get(v, Typed(Const(1)));
    var g2 := VectOps.Get(v, Typed(Const(2)));
    var g3 := VectOps.Get(v, Typed(Const(3)));
    assert g0.Direct? && g1.Direct? && g2.Direct? && g3.Direct?;
    direct := [g0.elem, g1.elem, g2.elem, g3.elem];

    var c0 := VectOps.Get(v, Plain(0));
    var c1 := VectOps.Get(v, Plain(1));
    var c2 := VectOps.Get(v, Plain(2));
    var c3 := VectOps.Get(v, Plain(3));
    var c4 := VectOps.Get(v, Plain(4));
    checked := [c0.opt, c1.opt, c2.opt, c3.opt, c4.opt];
  }

  /** Two pops from `[7, 3, 1, 4]` tagged `U4` yield 4 then 1 and leave `[7, 3]` tagged `U2`. */
  method TwoPops(v: Vect<nat>) returns (w: Vect<nat>, popped: seq<nat>)
    requires Valid(v) && v.tag == Static(4) && IntoVec(v) == [7, 3, 1, 4]
    ensures Valid(w) && w.tag == Static(2) && IntoVec(w) == [7, 3]
    ensures popped == [4, 1]
  {
    var p := VectOps.Pop(v);
    assert p.Pair?;
    var first := p.elem;
    w := p.rest;
    assert IntoVec(w) == [7, 3, 1];
    p := VectOps.Pop(w);
    assert p.Pair?;
    popped := [first, p.elem];
    w := p.rest;
    assert IntoVec(w) == [7, 3];
  }

  /** After `into_dyn` and pushing 2 and 5, gets by static and by `usize` index agree and are all optional. */
  method DynGets(v: Vect<nat>) returns (w: Vect<nat>, byConst: seq<Option<nat>>, byUsize: seq<Option<nat>>)
    requires Valid(v) && v.tag == Static(2) && IntoVec(v) == [7, 3]
    ensures w.tag == Dyn && IntoVec(w) == [7, 3, 2, 5]
    ensures byConst == byUsize == [Some(7), Some(3), Some(2), Some(5), None]
  {
    w := IntoDyn(v);
    w := VectOps.Push(w, 2);
    w := VectOps.Push(w, 5);
    assert IntoVec(w) == [7, 3, 2, 5];

    var s0 := VectOps.Get(w, Typed(Const(0)));
    var s1 := VectOps.Get(w, Typed(Const(1)));
    var s2 := VectOps.Get(w, Typed(Const(2)));
    var s3 := VectOps.Get(w, Typed(Const(3)));
    var s4 := VectOps.Get(w, Typed(Const(4)));
    assert s0.Checked? && s1.Checked? && s2.Checked? && s3.Checked? && s4.Checked?;
    byConst := [s0.opt, s1.opt, s2.opt, s3.opt, s4.opt];

    var d0 := VectOps.Get(w, Plain(0));
    var d1 := VectOps.Get(w, Plain(1));
    var d2 := VectOps.Get(w, Plain(2));
    var d3 := VectOps.Get(w, Plain(3));
    var d4 := VectOps.Get(w, Plain(4));
    byUsize := [d0.opt, d1.opt, d2.opt, d3.opt, d4.opt];
  }

  /** The whole of `static_vec_test`, with every value it asserts. */
  method StaticVecTest() returns (removed: seq<nat>, direct: seq<nat>, checked: seq<Option<nat>>,
                                  popped: seq<nat>, dynGets: seq<Option<nat>>)
    ensures removed == [6, 5] && direct == [7, 3, 1, 4] && popped == [4, 1]
    ensures checked == [Some(7), Some(3), Some(1), Some(4), None]
    ensures dynGets == [Some(7), Some(3), Some(2), Some(5), None]
  {
    var v;
    v, removed := Build();
    direct, checked := StaticGets(v);
    v, popped := TwoPops(v);
    var byConst;
    v, byConst, dynGets := DynGets(v);
  }

  /** The calls tests/test.rs marks as not compiling are rejected. */
  lemma RejectedCalls()
    ensures Impls.PopOutput(Static(0)).PopRejected?
    ensures DecreaseOne(Static(0)).DecRejected?
    ensures CheckIndexInclusive(Static(5), Static(6)) == Rejected
    ensures CheckIndex(Static(5), Static(5)) == Rejected
    ensures CheckIndex(Static(4), Static(4)) == Rejected
  {
  }
}
