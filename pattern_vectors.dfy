/**
  The `option!` invocations of test_pattern and test_ignore (src/lib.rs),
  replayed on the model: one bind destructures a tuple, a tuple struct or a
  struct, and the trailing expression reads the names the pattern bound.
*/
module PatternVectors {
  import opened Syntax
  import opened Semantics
  import opened Expansion
  import opened Laws
  import opened Vectors

  // ---------------------------------------------------------------------
  // Evaluation of the constructors the tests build, and one bind.
  // ---------------------------------------------------------------------

  lemma YieldsTupleStruct(c: string, es: seq<Expr>, env: Env, vs: seq<Value>)
    requires |es| == |vs| && forall k | 0 <= k < |es| :: Yields(es[k], env, vs[k])
    ensures Yields(TupleStructE(c, es), env, VTupleStruct(c, vs))
    ensures Yields(SomeE(TupleStructE(c, es)), env, VSome(VTupleStruct(c, vs)))
  {
    YieldsAll(es, env, vs);
  }

  lemma YieldsStruct(c: string, ns: seq<string>, es: seq<Expr>, env: Env, vs: seq<Value>)
    requires |ns| == |es| == |vs| && Distinct(ns)
    requires forall k | 0 <= k < |es| :: Yields(es[k], env, vs[k])
    ensures Yields(StructE(c, ns, es), env, VStruct(c, ns, vs))
    ensures Yields(SomeE(StructE(c, ns, es)), env, VSome(VStruct(c, ns, vs)))
  {
    YieldsAll(es, env, vs);
  }

  /** `MatchAll` over one pattern is `Match`. */
  lemma MatchAllOne(p: Pat, v: Value, f: Frame)
    requires Match(p, v) == Done(f)
    ensures MatchAll([p], [v]) == Done(f)
  {
    var e0: Frame := map[];
    assert f + e0 == f;
    assert MatchAll([p], [v]) == Done(f + e0) by {
      assert [p][1..] == [] && [v][1..] == [];
      assert MatchAll([], []) == Done(e0);
    }
  }

  /** A tuple pattern matches a tuple of as many values component by component. */
  lemma MatchTuple(ps: seq<Pat>, vs: seq<Value>, f: Frame)
    requires |ps| == |vs| && MatchAll(ps, vs) == Done(f)
    ensures Match(PTuple(ps), VTuple(vs)) == Done(f)
  {
  }

  lemma MatchTupleStruct(c: string, ps: seq<Pat>, vs: seq<Value>, f: Frame)
    requires |ps| == |vs| && MatchAll(ps, vs) == Done(f)
    ensures Match(PTupleStruct(c, ps), VTupleStruct(c, vs)) == Done(f)
  {
  }

  /** A struct pattern naming the fields in the value's own order matches them in that order. */
  lemma MatchStruct(c: string, ns: seq<string>, ps: seq<Pat>, vs: seq<Value>, f: Frame)
    requires |ns| == |ps| == |vs| && Distinct(ns) && MatchAll(ps, vs) == Done(f)
    ensures Match(PStruct(c, ns, ps), VStruct(c, ns, vs)) == Done(f)
  {
    FieldsInOrder(VStruct(c, ns, vs));
    assert FieldsNamed(PStruct(c, ns, ps), VStruct(c, ns, vs));
  }

  /** The patterns `a` and `b` against the values `x` and `y`. */
  lemma MatchAllTwo(a: Pat, b: Pat, x: Value, y: Value, fa: Frame, fb: Frame)
    requires Match(a, x) == Done(fa) && Match(b, y) == Done(fb) && fa.Keys !! fb.Keys
    ensures MatchAll([a, b], [x, y]) == Done(fa + fb)
  {
    MatchAllOne(b, y, fb);
    MatchAllCons(a, [b], x, [y], fa, fb);
    assert [a] + [b] == [a, b] && [x] + [y] == [x, y];
  }

  /** The patterns `a`, `b` and `c` against the values `x`, `y` and `z`. */
  lemma MatchAllThree(a: Pat, b: Pat, c: Pat, x: Value, y: Value, z: Value, fa: Frame, fb: Frame, fc: Frame)
    requires Match(a, x) == Done(fa) && Match(b, y) == Done(fb) && Match(c, z) == Done(fc)
    requires fb.Keys !! fc.Keys && fa.Keys !! (fb + fc).Keys
    ensures MatchAll([a, b, c], [x, y, z]) == Done(fa + (fb + fc))
  {
    MatchAllTwo(b, c, y, z, fb, fc);
    assert [a, b, c][1..] == [b, c] && [x, y, z][1..] == [y, z];
  }

  /** A struct value matched by its own field names, in its own order, gives its fields in that order. */
  lemma FieldsInOrder(v: Value)
    requires v.VStruct? && |v.names| == |v.elems| && Distinct(v.names)
    ensures Fields(v, v.names) == v.elems
  {
    var r := Fields(v, v.names);
    forall k | 0 <= k < |v.names| ensures r[k] == v.elems[k] {
      var j := IndexOf(v.names, v.names[k]);
      assert j == k;
    }
  }

  /**
    `option! { let p <- src; t }`: when `src` gives `Some(v)` and `v` fits
    `p`, the value is `Some` of `t` read in the bindings `p` made.
  */
  lemma OptionOneBind(p: Pat, src: Expr, t: Expr, v: Value, f: Frame, r: Value)
    requires PlainExpr(src) && PlainExpr(t)
    requires Yields(src, [], VSome(v)) && Match(p, v) == Done(f)
    requires ValueOf(t, [f]) == Done(r)
    ensures ExpandOption([Bind(p, false, src), Tail(t)]).Success?
    ensures ValueOf(ExpandOption([Bind(p, false, src), Tail(t)]).value, []) == Done(VSome(r))
  {
    var b := Bind(p, false, src);
    assert [b] + [Tail(t)] == [b, Tail(t)];
    assert Linear([b]) by { assert PrefixSentence(OptionMacro, b); }
    OptionNoneIff([b], t, []);
    assert [b] == [b] + [];
    ChainBindOk(OptionMacro, p, false, src, [], [], v, f);
    assert [] + [f] == [f];
  }

  /** `option! { let p <- src; }`: `Some(())` once `src` gives `Some(v)` and `v` fits `p`. */
  lemma OptionOneBindUnit(p: Pat, src: Expr, v: Value, f: Frame)
    requires PlainExpr(src)
    requires Yields(src, [], VSome(v)) && Match(p, v) == Done(f)
    ensures ExpandOption([Bind(p, false, src)]).Success?
    ensures ValueOf(ExpandOption([Bind(p, false, src)]).value, []) == Done(VSome(Unit))
  {
    var b := Bind(p, false, src);
    assert Linear([b]) by { assert PrefixSentence(OptionMacro, b); }
    assert [b] == [b] + [];
    ChainBindOk(OptionMacro, p, false, src, [], [], v, f);
    assert [] + [f] == [f];
    ChainUnit(OptionMacro, [b], [], [f]);
  }

  function X(x: string): Pat { PIdent(x, false) }

  /** `Some((1, 2, 3))` */
  const Some123E: Expr := SomeE(TupleE([N(1), N(2), N(3)]))

  const V123: Value := VTuple([VInt(1), VInt(2), VInt(3)])

  lemma YieldsSome123()
    ensures Yields(Some123E, [], VSome(V123)) && PlainExpr(Some123E)
  {
    YieldsTuple([N(1), N(2), N(3)], [], [VInt(1), VInt(2), VInt(3)]);
    PlainAll([N(1), N(2), N(3)]);
  }

  /** `(x, y, z)` */
  const XYZ: Expr := TupleE([Var("x"), Var("y"), Var("z")])

  /** `(x, y)` */
  const XY: Expr := TupleE([Var("x"), Var("y")])

  /** Names that `f` binds to immutable values read as those values. */
  lemma ReadVars(es: seq<Expr>, f: Frame, vs: seq<Value>)
    requires |es| == |vs|
    requires forall k | 0 <= k < |es| :: es[k].Var? && es[k].name in f && f[es[k].name] == Init(vs[k], false)
    ensures PlainExpr(TupleE(es))
    ensures ValueOf(TupleE(es), [f]) == Done(VTuple(vs))
  {
    PlainAll(es);
    forall k | 0 <= k < |es| ensures Yields(es[k], [f], vs[k]) {
      assert Read([f], es[k].name) == Done(vs[k]);
    }
    YieldsTuple(es, [f], vs);
  }

  const F9_10: Frame := map["x" := Init(VInt(9), false), "y" := Init(VInt(10), false)]

  const F123: Frame := map["x" := Init(VInt(1), false), "y" := Init(VInt(2), false), "z" := Init(VInt(3), false)]

  lemma ReadXY()
    ensures PlainExpr(XY) && ValueOf(XY, [F9_10]) == Done(P(9, 10))
  {
    ReadVars(XY.elems, F9_10, [VInt(9), VInt(10)]);
  }

  lemma ReadXYZ()
    ensures PlainExpr(XYZ) && ValueOf(XYZ, [F123]) == Done(Triple(1, 2, 3))
  {
    ReadVars(XYZ.elems, F123, V123.elems);
  }

  // ---------------------------------------------------------------------
  // test_pattern
  // ---------------------------------------------------------------------

  lemma MatchXYZ()
    ensures Match(PTuple([X("x"), X("y"), X("z")]), V123) == Done(F123)
  {
    var fx, fy, fz := Slot1("x", VInt(1)), Slot1("y", VInt(2)), Slot1("z", VInt(3));
    assert (fy + fz).Keys == {"y", "z"};
    MatchAllThree(X("x"), X("y"), X("z"), VInt(1), VInt(2), VInt(3), fx, fy, fz);
    assert fx + (fy + fz) == F123;
    MatchTuple([X("x"), X("y"), X("z")], V123.elems, F123);
  }

  /** `option! { let (x, y, z) <- Some((1, 2, 3)); (x, y, z) }` is `Some((1, 2, 3))`. */
  lemma OptionTriple()
    ensures ExpandOption([Bind(PTuple([X("x"), X("y"), X("z")]), false, Some123E),
                          Tail(XYZ)]).Success?
    ensures ValueOf(ExpandOption([Bind(PTuple([X("x"), X("y"), X("z")]), false, Some123E),
                                  Tail(XYZ)]).value, [])
      == Done(VSome(Triple(1, 2, 3)))
  {
    YieldsSome123();
    MatchXYZ();
    ReadXYZ();
    OptionOneBind(PTuple([X("x"), X("y"), X("z")]), Some123E, XYZ,
                  V123, F123, Triple(1, 2, 3));
  }

  /** `(1, (2, 3))` */
  const Nested123: Value := VTuple([VInt(1), VTuple([VInt(2), VInt(3)])])

  const Nested123E: Expr := SomeE(TupleE([N(1), TupleE([N(2), N(3)])]))

  lemma YieldsNested123()
    ensures Yields(Nested123E, [], VSome(Nested123)) && PlainExpr(Nested123E)
  {
    YieldsTuple([N(2), N(3)], [], [VInt(2), VInt(3)]);
    YieldsTuple([N(1), TupleE([N(2), N(3)])], [], [VInt(1), VTuple([VInt(2), VInt(3)])]);
    PlainAll([N(1), TupleE([N(2), N(3)])]);
  }

  /** The inner tuple pattern `(a, b)` against `(2, 3)`, with `a` and `b` any two patterns. */
  lemma MatchPair(a: Pat, b: Pat, fa: Frame, fb: Frame)
    requires Match(a, VInt(2)) == Done(fa) && Match(b, VInt(3)) == Done(fb) && fa.Keys !! fb.Keys
    ensures Match(PTuple([a, b]), VTuple([VInt(2), VInt(3)])) == Done(fa + fb)
  {
    MatchAllTwo(a, b, VInt(2), VInt(3), fa, fb);
    MatchTuple([a, b], [VInt(2), VInt(3)], fa + fb);
  }

  /** The outer pattern `(p, q)` against `(1, (2, 3))`. */
  lemma MatchNested(p: Pat, q: Pat, fp: Frame, fq: Frame)
    requires Match(p, VInt(1)) == Done(fp) && Match(q, VTuple([VInt(2), VInt(3)])) == Done(fq) && fp.Keys !! fq.Keys
    ensures Match(PTuple([p, q]), Nested123) == Done(fp + fq)
  {
    MatchAllTwo(p, q, VInt(1), VTuple([VInt(2), VInt(3)]), fp, fq);
    MatchTuple([p, q], Nested123.elems, fp + fq);
  }

  const FYZ: Frame := map["y" := Init(VInt(2), false), "z" := Init(VInt(3), false)]

  lemma MatchYZ()
    ensures Match(PTuple([X("y"), X("z")]), VTuple([VInt(2), VInt(3)])) == Done(FYZ)
  {
    MatchPair(X("y"), X("z"), Slot1("y", VInt(2)), Slot1("z", VInt(3)));
    assert Slot1("y", VInt(2)) + Slot1("z", VInt(3)) == FYZ;
  }

  lemma MatchNestedXYZ()
    ensures Match(PTuple([X("x"), PTuple([X("y"), X("z")])]), Nested123) == Done(F123)
  {
    var fx := Slot1("x", VInt(1));
    assert fx + FYZ == F123;
    assert Match(PTuple([X("x"), PTuple([X("y"), X("z")])]), Nested123) == Done(fx + FYZ) by {
      MatchYZ();
      assert Match(X("x"), VInt(1)) == Done(fx);
      assert fx.Keys !! FYZ.Keys;
      MatchNested(X("x"), PTuple([X("y"), X("z")]), fx, FYZ);
    }
  }

  /** `option! { let (x, (y, z)) <- Some((1, (2, 3))); (x, y, z) }` is `Some((1, 2, 3))`. */
  lemma OptionNestedTuple()
    ensures ExpandOption([Bind(PTuple([X("x"), PTuple([X("y"), X("z")])]), false, Nested123E),
                          Tail(XYZ)]).Success?
    ensures ValueOf(ExpandOption([Bind(PTuple([X("x"), PTuple([X("y"), X("z")])]), false, Nested123E),
                                  Tail(XYZ)]).value, [])
      == Done(VSome(Triple(1, 2, 3)))
  {
    YieldsNested123();
    MatchNestedXYZ();
    ReadXYZ();
    OptionOneBind(PTuple([X("x"), PTuple([X("y"), X("z")])]), Nested123E, XYZ,
                  Nested123, F123, Triple(1, 2, 3));
  }

  /**
    `option! { let TupleStruct0() <- Some(TupleStruct0()); }` is `Some(())`;
    the test makes this assertion twice, with the same invocation.
  */
  lemma OptionEmptyTupleStruct()
    ensures ExpandOption([Bind(PTupleStruct("TupleStruct0", []), false, SomeE(TupleStructE("TupleStruct0", [])))]).Success?
    ensures ValueOf(ExpandOption([Bind(PTupleStruct("TupleStruct0", []), false, SomeE(TupleStructE("TupleStruct0", [])))]).value, [])
      == Done(VSome(Unit))
  {
    YieldsTupleStruct("TupleStruct0", [], [], []);
    assert PlainExpr(SomeE(TupleStructE("TupleStruct0", [])));
    OptionOneBindUnit(PTupleStruct("TupleStruct0", []), SomeE(TupleStructE("TupleStruct0", [])),
                      VTupleStruct("TupleStruct0", []), map[]);
  }

  /** `option! { let TupleStruct(x) <- Some(TupleStruct(9)); x }` is `Some(9)`. */
  lemma OptionTupleStruct()
    ensures ExpandOption([Bind(PTupleStruct("TupleStruct", [X("x")]), false, SomeE(TupleStructE("TupleStruct", [N(9)]))),
                          Tail(Var("x"))]).Success?
    ensures ValueOf(ExpandOption([Bind(PTupleStruct("TupleStruct", [X("x")]), false, SomeE(TupleStructE("TupleStruct", [N(9)]))),
                                  Tail(Var("x"))]).value, [])
      == Done(VSome(VInt(9)))
  {
    YieldsTupleStruct("TupleStruct", [N(9)], [], [VInt(9)]);
    assert PlainExpr(SomeE(TupleStructE("TupleStruct", [N(9)]))) by { PlainAll([N(9)]); }
    MatchAllOne(X("x"), VInt(9), Slot1("x", VInt(9)));
    assert Read([Slot1("x", VInt(9))], "x") == Done(VInt(9));
    OptionOneBind(PTupleStruct("TupleStruct", [X("x")]), SomeE(TupleStructE("TupleStruct", [N(9)])), Var("x"),
                  VTupleStruct("TupleStruct", [VInt(9)]), Slot1("x", VInt(9)), VInt(9));
  }

  /** `TupleStruct2(9, 10)` */
  const TS2: Value := VTupleStruct("TupleStruct2", [VInt(9), VInt(10)])

  const TS2E: Expr := SomeE(TupleStructE("TupleStruct2", [N(9), N(10)]))

  lemma YieldsTS2()
    ensures Yields(TS2E, [], VSome(TS2)) && PlainExpr(TS2E)
  {
    YieldsTupleStruct("TupleStruct2", [N(9), N(10)], [], [VInt(9), VInt(10)]);
    PlainAll([N(9), N(10)]);
  }

  /** `TupleStruct2(a, b)` against `TupleStruct2(9, 10)`. */
  lemma MatchTS2(a: Pat, b: Pat, fa: Frame, fb: Frame)
    requires Match(a, VInt(9)) == Done(fa) && Match(b, VInt(10)) == Done(fb) && fa.Keys !! fb.Keys
    ensures Match(PTupleStruct("TupleStruct2", [a, b]), TS2) == Done(fa + fb)
  {
    MatchAllTwo(a, b, VInt(9), VInt(10), fa, fb);
    MatchTupleStruct("TupleStruct2", [a, b], TS2.elems, fa + fb);
  }

  /** `option! { let TupleStruct2(x, y) <- Some(TupleStruct2(9, 10)); (x, y) }` is `Some((9, 10))`. */
  lemma OptionTupleStruct2()
    ensures ExpandOption([Bind(PTupleStruct("TupleStruct2", [X("x"), X("y")]), false, TS2E),
                          Tail(XY)]).Success?
    ensures ValueOf(ExpandOption([Bind(PTupleStruct("TupleStruct2", [X("x"), X("y")]), false, TS2E),
                                  Tail(XY)]).value, [])
      == Done(VSome(P(9, 10)))
  {
    YieldsTS2();
    MatchTS2(X("x"), X("y"), Slot1("x", VInt(9)), Slot1("y", VInt(10)));
    assert Slot1("x", VInt(9)) + Slot1("y", VInt(10)) == F9_10;
    ReadXY();
    OptionOneBind(PTupleStruct("TupleStruct2", [X("x"), X("y")]), TS2E, XY, TS2, F9_10, P(9, 10));
  }

  /** `Struct { x: 8 }` */
  const S8: Value := VStruct("Struct", ["x"], [VInt(8)])

  const S8E: Expr := SomeE(StructE("Struct", ["x"], [N(8)]))

  lemma YieldsS8()
    ensures Yields(S8E, [], VSome(S8)) && PlainExpr(S8E)
  {
    YieldsStruct("Struct", ["x"], [N(8)], [], [VInt(8)]);
    PlainAll([N(8)]);
  }

  /** `Struct { x: p }` against `Struct { x: 8 }`. */
  lemma MatchS8(p: Pat, f: Frame)
    requires Match(p, VInt(8)) == Done(f)
    ensures Match(PStruct("Struct", ["x"], [p]), S8) == Done(f)
  {
    MatchAllOne(p, VInt(8), f);
    MatchStruct("Struct", ["x"], [p], S8.elems, f);
  }

  /** `option! { let Struct { x } <- Some(Struct { x: 8 }); x }` is `Some(8)`. */
  lemma OptionStruct()
    ensures ExpandOption([Bind(PStruct("Struct", ["x"], [X("x")]), false, S8E), Tail(Var("x"))]).Success?
    ensures ValueOf(ExpandOption([Bind(PStruct("Struct", ["x"], [X("x")]), false, S8E), Tail(Var("x"))]).value, [])
      == Done(VSome(VInt(8)))
  {
    YieldsS8();
    MatchS8(X("x"), Slot1("x", VInt(8)));
    assert Read([Slot1("x", VInt(8))], "x") == Done(VInt(8));
    OptionOneBind(PStruct("Struct", ["x"], [X("x")]), S8E, Var("x"), S8, Slot1("x", VInt(8)), VInt(8));
  }

  /** `Struct2 { x: 9, y: 10 }` */
  const S2: Value := VStruct("Struct2", ["x", "y"], [VInt(9), VInt(10)])

  const S2E: Expr := SomeE(StructE("Struct2", ["x", "y"], [N(9), N(10)]))

  lemma YieldsS2()
    ensures Yields(S2E, [], VSome(S2)) && PlainExpr(S2E)
  {
    YieldsStruct("Struct2", ["x", "y"], [N(9), N(10)], [], [VInt(9), VInt(10)]);
    PlainAll([N(9), N(10)]);
  }

  /** `Struct2 { x: a, y: b }` against `Struct2 { x: 9, y: 10 }`. */
  lemma MatchS2(a: Pat, b: Pat, fa: Frame, fb: Frame)
    requires Match(a, VInt(9)) == Done(fa) && Match(b, VInt(10)) == Done(fb) && fa.Keys !! fb.Keys
    ensures Match(PStruct("Struct2", ["x", "y"], [a, b]), S2) == Done(fa + fb)
  {
    MatchAllTwo(a, b, VInt(9), VInt(10), fa, fb);
    MatchStruct("Struct2", ["x", "y"], [a, b], S2.elems, fa + fb);
  }

  /** `option! { let Struct2 { x, y } <- Some(Struct2 { x: 9, y: 10 }); (x, y) }` is `Some((9, 10))`. */
  lemma OptionStructPattern()
    ensures ExpandOption([Bind(PStruct("Struct2", ["x", "y"], [X("x"), X("y")]), false, S2E),
                          Tail(XY)]).Success?
    ensures ValueOf(ExpandOption([Bind(PStruct("Struct2", ["x", "y"], [X("x"), X("y")]), false, S2E),
                                  Tail(XY)]).value, [])
      == Done(VSome(P(9, 10)))
  {
    YieldsS2();
    assert Match(PStruct("Struct2", ["x", "y"], [X("x"), X("y")]), S2) == Done(F9_10) by {
      MatchS2(X("x"), X("y"), Slot1("x", VInt(9)), Slot1("y", VInt(10)));
      assert Slot1("x", VInt(9)) + Slot1("y", VInt(10)) == F9_10;
    }
    ReadXY();
    OptionOneBind(PStruct("Struct2", ["x", "y"], [X("x"), X("y")]), S2E, XY, S2, F9_10, P(9, 10));
  }

  // ---------------------------------------------------------------------
  // test_ignore (the option! cases)
  // ---------------------------------------------------------------------

  /** `option! { let _ <- Some(0); }` is `Some(())`. */
  lemma OptionIgnoreUnit()
    ensures ExpandOption([Bind(PWild, false, SomeE(N(0)))]).Success?
    ensures ValueOf(ExpandOption([Bind(PWild, false, SomeE(N(0)))]).value, []) == Done(VSome(Unit))
  {
    OptionOneBindUnit(PWild, SomeE(N(0)), VInt(0), map[]);
  }

  /** `option! { let (_, y, _) <- Some((1, 2, 3)); y }` is `Some(2)`. */
  lemma OptionIgnoreInTuple()
    ensures ExpandOption([Bind(PTuple([PWild, X("y"), PWild]), false, Some123E), Tail(Var("y"))]).Success?
    ensures ValueOf(ExpandOption([Bind(PTuple([PWild, X("y"), PWild]), false, Some123E),
                                  Tail(Var("y"))]).value, [])
      == Done(VSome(VInt(2)))
  {
    var e0: Frame := map[];
    var fy := Slot1("y", VInt(2));
    var vs := V123.elems;
    YieldsSome123();
    MatchAllOne(PWild, VInt(3), e0);
    MatchAllCons(X("y"), [PWild], VInt(2), [VInt(3)], fy, e0);
    assert [X("y")] + [PWild] == [X("y"), PWild] && [VInt(2)] + [VInt(3)] == [VInt(2), VInt(3)];
    MatchAllCons(PWild, [X("y"), PWild], VInt(1), [VInt(2), VInt(3)], e0, fy + e0);
    assert [PWild] + [X("y"), PWild] == [PWild, X("y"), PWild] && [VInt(1)] + [VInt(2), VInt(3)] == vs;
    assert e0 + (fy + e0) == fy;
    assert Read([fy], "y") == Done(VInt(2));
    OptionOneBind(PTuple([PWild, X("y"), PWild]), Some123E, Var("y"), VTuple(vs), fy, VInt(2));
  }

  /** `option! { let (_, (y, _)) <- Some((1, (2, 3))); y }` is `Some(2)`: `_` is ignored at any depth. */
  lemma OptionIgnoreInNestedTuple()
    ensures ExpandOption([Bind(PTuple([PWild, PTuple([X("y"), PWild])]), false, Nested123E), Tail(Var("y"))]).Success?
    ensures ValueOf(ExpandOption([Bind(PTuple([PWild, PTuple([X("y"), PWild])]), false, Nested123E), Tail(Var("y"))]).value, [])
      == Done(VSome(VInt(2)))
  {
    var e0: Frame := map[];
    var fy := Slot1("y", VInt(2));
    YieldsNested123();
    MatchPair(X("y"), PWild, fy, e0);
    MatchNested(PWild, PTuple([X("y"), PWild]), e0, fy + e0);
    assert e0 + (fy + e0) == fy;
    assert Read([fy], "y") == Done(VInt(2));
    OptionOneBind(PTuple([PWild, PTuple([X("y"), PWild])]), Nested123E, Var("y"), Nested123, fy, VInt(2));
  }

  /** `option! { let TupleStruct(_) <- Some(TupleStruct(9)); }` is `Some(())`. */
  lemma OptionTupleStructIgnoreUnit()
    ensures ExpandOption([Bind(PTupleStruct("TupleStruct", [PWild]), false, SomeE(TupleStructE("TupleStruct", [N(9)])))]).Success?
    ensures ValueOf(ExpandOption([Bind(PTupleStruct("TupleStruct", [PWild]), false, SomeE(TupleStructE("TupleStruct", [N(9)])))]).value, [])
      == Done(VSome(Unit))
  {
    YieldsTupleStruct("TupleStruct", [N(9)], [], [VInt(9)]);
    assert PlainExpr(SomeE(TupleStructE("TupleStruct", [N(9)]))) by { PlainAll([N(9)]); }
    MatchAllOne(PWild, VInt(9), map[]);
    OptionOneBindUnit(PTupleStruct("TupleStruct", [PWild]), SomeE(TupleStructE("TupleStruct", [N(9)])),
                      VTupleStruct("TupleStruct", [VInt(9)]), map[]);
  }

  /** `option! { let TupleStruct2(x, _) <- Some(TupleStruct2(9, 10)); x }` is `Some(9)`. */
  lemma OptionTupleStructIgnore()
    ensures ExpandOption([Bind(PTupleStruct("TupleStruct2", [X("x"), PWild]), false, TS2E), Tail(Var("x"))]).Success?
    ensures ValueOf(ExpandOption([Bind(PTupleStruct("TupleStruct2", [X("x"), PWild]), false, TS2E), Tail(Var("x"))]).value, [])
      == Done(VSome(VInt(9)))
  {
    var e0: Frame := map[];
    var fx := Slot1("x", VInt(9));
    YieldsTS2();
    MatchTS2(X("x"), PWild, fx, e0);
    assert fx + e0 == fx;
    assert Read([fx], "x") == Done(VInt(9));
    OptionOneBind(PTupleStruct("TupleStruct2", [X("x"), PWild]), TS2E, Var("x"), TS2, fx, VInt(9));
  }

  /** `option! { let Struct { x: _ } <- Some(Struct { x: 8 }); }` is `Some(())`. */
  lemma OptionStructFieldIgnoreUnit()
    ensures ExpandOption([Bind(PStruct("Struct", ["x"], [PWild]), false, S8E)]).Success?
    ensures ValueOf(ExpandOption([Bind(PStruct("Struct", ["x"], [PWild]), false, S8E)]).value, []) == Done(VSome(Unit))
  {
    YieldsS8();
    MatchS8(PWild, map[]);
    OptionOneBindUnit(PStruct("Struct", ["x"], [PWild]), S8E, S8, map[]);
  }

  /** `option! { let Struct2 { x, y: _ } <- Some(Struct2 { x: 9, y: 10 }); x }` is `Some(9)`. */
  lemma OptionStructIgnore()
    ensures ExpandOption([Bind(PStruct("Struct2", ["x", "y"], [X("x"), PWild]), false, S2E), Tail(Var("x"))]).Success?
    ensures ValueOf(ExpandOption([Bind(PStruct("Struct2", ["x", "y"], [X("x"), PWild]), false, S2E), Tail(Var("x"))]).value, [])
      == Done(VSome(VInt(9)))
  {
    var e0: Frame := map[];
    var fx := Slot1("x", VInt(9));
    YieldsS2();
    MatchS2(X("x"), PWild, fx, e0);
    assert fx + e0 == fx;
    assert Read([fx], "x") == Done(VInt(9));
    OptionOneBind(PStruct("Struct2", ["x", "y"], [X("x"), PWild]), S2E, Var("x"), S2, fx, VInt(9));
  }
}
