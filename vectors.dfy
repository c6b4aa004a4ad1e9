/**
  The test cases of src/lib.rs, replayed on the model: each lemma states
  what one macro invocation of the test module expands to and evaluates to.
  Calls to the test helper `ok(t)` are written as `Ok(t)`.
*/
module Vectors {
  import opened Syntax
  import opened Semantics
  import opened Expansion
  import opened Laws

  // ---------------------------------------------------------------------
  // Notation and evaluation steps shared by the cases.
  // ---------------------------------------------------------------------

  function N(n: int): Expr { Lit(VInt(n)) }

  function P(i: int, j: int): Value { VTuple([VInt(i), VInt(j)]) }

  function Triple(i: int, j: int, k: int): Value { VTuple([VInt(i), VInt(j), VInt(k)]) }

  /** `let x <- src;` */
  function LetFrom(x: string, src: Expr): Sentence { Bind(PIdent(x, false), false, src) }

  /** `e` evaluates to `v` in `env` and leaves `env` as it was. */
  predicate Yields(e: Expr, env: Env, v: Value) {
    Eval(e, env) == Done(Evaluated(v, env))
  }

  /** Operands that each evaluate without effect evaluate, left to right, to their values. */
  lemma {:induction false} YieldsAll(es: seq<Expr>, env: Env, vs: seq<Value>)
    requires |es| == |vs| && forall k | 0 <= k < |es| :: Yields(es[k], env, vs[k])
    ensures EvalAll(es, env) == Done(Evaluated(vs, env))
    decreases |es|
  {
    if es != [] {
      YieldsAll(es[1..], env, vs[1..]);
      assert [vs[0]] + vs[1..] == vs;
    }
  }

  lemma YieldsTuple(es: seq<Expr>, env: Env, vs: seq<Value>)
    requires |es| == |vs| && forall k | 0 <= k < |es| :: Yields(es[k], env, vs[k])
    ensures Yields(TupleE(es), env, VTuple(vs))
    ensures Yields(SomeE(TupleE(es)), env, VSome(VTuple(vs)))
  {
    YieldsAll(es, env, vs);
  }

  lemma {:induction false} PlainAll(es: seq<Expr>)
    requires forall k | 0 <= k < |es| :: PlainExpr(es[k])
    ensures PlainExprs(es)
    decreases |es|
  {
    if es != [] {
      PlainAll(es[1..]);
    }
  }

  /** `let x <- src;` in front of `rest` becomes one `flat_map` around the expansion of `rest`. */
  lemma IterBindStep(x: string, src: Expr, rest: seq<Sentence>, k: Expr)
    requires PlainExpr(src) && ExpandIter(rest) == Success(k)
    ensures ExpandIter([LetFrom(x, src)] + rest) == Success(FlatMap(src, PIdent(x, false), k))
  {
    assert ([LetFrom(x, src)] + rest)[1..] == rest;
  }

  /** `if c;` in front of `rest` becomes a `filter` of the expansion of `rest`. */
  lemma IterGuardStep(c: Expr, rest: seq<Sentence>, k: Expr)
    requires PlainExpr(c) && ExpandIter(rest) == Success(k)
    ensures ExpandIter([Guard(c)] + rest) == Success(Filter(k, c))
  {
    assert ([Guard(c)] + rest)[1..] == rest;
  }

  /** The scope a closure parameter `x` (`mut x` when `m`) opens, holding `v`. */
  function Slot(x: string, v: Value, m: bool): Frame { map[x := Init(v, m)] }

  function Slot1(x: string, v: Value): Frame { Slot(x, v, false) }

  /** The elements `g(lo), g(lo + 1), ..., g(hi - 1)` yield, one after the other. */
  function Concat(lo: int, hi: int, g: int -> seq<Value>): seq<Value>
    decreases hi - lo
  {
    if lo >= hi then [] else g(lo) + Concat(lo + 1, hi, g)
  }

  lemma ChainBindOk(m: Macro, p: Pat, isMut: bool, src: Expr, rest: seq<Sentence>, env: Env, x: Value, f: Frame)
    requires m != IterMacro
    requires Yields(src, env, Wrapped(m, x))
    requires Match(BoundPat(p, isMut), x) == Done(f)
    ensures Chain(m, [Bind(p, isMut, src)] + rest, env) == Chain(m, rest, env + [f])
  {
    assert ([Bind(p, isMut, src)] + rest)[1..] == rest;
    assert Succeeds(m, Wrapped(m, x)) && !Fails(m, Wrapped(m, x));
  }

  /** A statement runs in a scope of its own, opened just for it. */
  lemma ChainStmt(m: Macro, s: Statement, rest: seq<Sentence>, env: Env, env': Env)
    requires Exec(s, env + [map[]]) == Done(env')
    ensures Chain(m, [Stmt(s)] + rest, env) == Chain(m, rest, env')
  {
    assert ([Stmt(s)] + rest)[1..] == rest;
  }

  /**
    `flat_map` over the range `lo..hi` yields, for each `i` in order, what the
    body yields with the pattern bound to `i`.
  */
  lemma {:induction false} LoopOverRange(q: Pat, lo: int, hi: int, body: Expr, env: Env, g: int -> seq<Value>)
    requires forall i | lo <= i < hi ::
      Match(q, VInt(i)).Done? && Iterate(Eval(body, env + [Match(q, VInt(i)).value])) == Done(g(i))
    ensures FlatMapOver(Range(lo, hi), q, body, env) == Done(Concat(lo, hi, g))
    decreases hi - lo
  {
    if lo < hi {
      var xs := Range(lo, hi);
      assert xs[0] == VInt(lo);
      assert xs[1..] == Range(lo + 1, hi);
      LoopOverRange(q, lo + 1, hi, body, env, g);
      assert Iterate(Eval(body, env + [Match(q, VInt(lo)).value])) == Done(g(lo));
    }
  }

  lemma ConcatOne(lo: int, g: int -> seq<Value>)
    ensures Concat(lo, lo + 1, g) == g(lo)
  {
    assert Concat(lo + 1, lo + 1, g) == [];
    assert g(lo) + [] == g(lo);
  }

  lemma ConcatTwo(lo: int, g: int -> seq<Value>)
    ensures Concat(lo, lo + 2, g) == g(lo) + g(lo + 1)
  {
    ConcatOne(lo + 1, g);
  }

  /** One element per iteration, the iteration's own index: the range itself. */
  lemma {:induction false} ConcatIndices(lo: int, hi: int)
    ensures Concat(lo, hi, i => [VInt(i)]) == Range(lo, hi)
    decreases hi - lo
  {
    if lo < hi {
      ConcatIndices(lo + 1, hi);
    }
  }

  lemma EvalPairAB(x: Value, y: Value)
    ensures Yields(TupleE([Var("a"), Var("b")]), [Slot1("a", x), Slot1("b", y)], VTuple([x, y]))
  {
    var env := [Slot1("a", x), Slot1("b", y)];
    assert Read(env, "b") == Done(y);
    assert Read(env, "a") == Done(x);
    YieldsTuple([Var("a"), Var("b")], env, [x, y]);
  }

  lemma PlainPairAB()
    ensures PlainExpr(TupleE([Var("a"), Var("b")]))
  {
    assert PlainExprs([Var("b")]);
  }

  /** Binds `a` to `x` and `b` to `y`, from sources that evaluate to `Some` or `Ok` of them. */
  lemma ChainTwo(m: Macro, sa: Expr, sb: Expr, x: Value, y: Value)
    requires m != IterMacro
    requires Yields(sa, [], Wrapped(m, x)) && Yields(sb, [Slot1("a", x)], Wrapped(m, y))
    ensures Chain(m, [LetFrom("a", sa), LetFrom("b", sb)], []) == Done(Continue([Slot1("a", x), Slot1("b", y)]))
  {
    var b2 := LetFrom("b", sb);
    assert [LetFrom("a", sa), b2] == [LetFrom("a", sa)] + [b2];
    ChainBindOk(m, PIdent("a", false), false, sa, [b2], [], x, Slot1("a", x));
    assert [] + [Slot1("a", x)] == [Slot1("a", x)];
    assert [b2] == [b2] + [];
    ChainBindOk(m, PIdent("b", false), false, sb, [], [Slot1("a", x)], y, Slot1("b", y));
    assert [Slot1("a", x)] + [Slot1("b", y)] == [Slot1("a", x), Slot1("b", y)];
  }

  // ---------------------------------------------------------------------
  // test_basic and test_comments: option! and result!
  // ---------------------------------------------------------------------

  /**
    `option! { let a <- Some(1); let b <- Some(2); }` is `Some(())`; the
    comments of test_comments around the same two binds change nothing.
  */
  lemma OptionTwoSomeUnit()
    ensures ExpandOption([LetFrom("a", SomeE(N(1))), LetFrom("b", SomeE(N(2)))]).Success?
    ensures ValueOf(ExpandOption([LetFrom("a", SomeE(N(1))), LetFrom("b", SomeE(N(2)))]).value, []) == Done(VSome(Unit))
  {
    var pre := [LetFrom("a", SomeE(N(1))), LetFrom("b", SomeE(N(2)))];
    assert Linear(pre) by {
      assert PrefixSentence(OptionMacro, pre[0]) && PrefixSentence(OptionMacro, pre[1]);
    }
    ChainTwo(OptionMacro, SomeE(N(1)), SomeE(N(2)), VInt(1), VInt(2));
    ChainUnit(OptionMacro, pre, [], [Slot1("a", VInt(1)), Slot1("b", VInt(2))]);
  }

  /** `option! { let a <- Some(1); let b <- Some('a'); (a, b) }` is `Some((1, 'a'))`. */
  lemma OptionTwoSome()
    ensures ExpandOption([LetFrom("a", SomeE(N(1))), LetFrom("b", SomeE(Lit(VChar('a')))), Tail(TupleE([Var("a"), Var("b")]))]).Success?
    ensures ValueOf(ExpandOption([LetFrom("a", SomeE(N(1))), LetFrom("b", SomeE(Lit(VChar('a')))), Tail(TupleE([Var("a"), Var("b")]))]).value, [])
      == Done(VSome(VTuple([VInt(1), VChar('a')])))
  {
    var pre := [LetFrom("a", SomeE(N(1))), LetFrom("b", SomeE(Lit(VChar('a'))))];
    var t := TupleE([Var("a"), Var("b")]);
    assert pre + [Tail(t)] == [pre[0], pre[1], Tail(t)];
    assert Linear(pre) by {
      assert PrefixSentence(OptionMacro, pre[0]) && PrefixSentence(OptionMacro, pre[1]);
    }
    PlainPairAB();
    OptionNoneIff(pre, t, []);
    ChainTwo(OptionMacro, SomeE(N(1)), SomeE(Lit(VChar('a'))), VInt(1), VChar('a'));
    EvalPairAB(VInt(1), VChar('a'));
  }

  /** `option! { let a <- Some(1); let b <- None; (a, b) }` is `None`. */
  lemma OptionSecondNone()
    ensures ExpandOption([LetFrom("a", SomeE(N(1))), LetFrom("b", NoneE), Tail(TupleE([Var("a"), Var("b")]))]).Success?
    ensures ValueOf(ExpandOption([LetFrom("a", SomeE(N(1))), LetFrom("b", NoneE), Tail(TupleE([Var("a"), Var("b")]))]).value, [])
      == Done(VNone)
  {
    var b1 := LetFrom("a", SomeE(N(1)));
    var t := TupleE([Var("a"), Var("b")]);
    assert [b1] + [LetFrom("b", NoneE)] + [Tail(t)] == [b1, LetFrom("b", NoneE), Tail(t)];
    assert Linear([b1]) by { assert PrefixSentence(OptionMacro, b1); }
    PlainPairAB();
    assert ExpandOption([Tail(t)]) == Success(SomeE(t));
    assert [b1] == [b1] + [];
    ChainBindOk(OptionMacro, PIdent("a", false), false, SomeE(N(1)), [], [], VInt(1), Slot1("a", VInt(1)));
    assert [] + [Slot1("a", VInt(1))] == [Slot1("a", VInt(1))];
    OptionShortCircuit([b1], PIdent("b", false), false, NoneE, [Tail(t)], [], [Slot1("a", VInt(1))]);
  }

  /** `option! { let a <- None; let b <- Some(2); (a, b) }` is `None`. */
  lemma OptionFirstNone()
    ensures ExpandOption([LetFrom("a", NoneE), LetFrom("b", SomeE(N(2))), Tail(TupleE([Var("a"), Var("b")]))]).Success?
    ensures ValueOf(ExpandOption([LetFrom("a", NoneE), LetFrom("b", SomeE(N(2))), Tail(TupleE([Var("a"), Var("b")]))]).value, [])
      == Done(VNone)
  {
    var b2 := LetFrom("b", SomeE(N(2)));
    var t := TupleE([Var("a"), Var("b")]);
    assert [] + [LetFrom("a", NoneE)] + [b2, Tail(t)] == [LetFrom("a", NoneE), b2, Tail(t)];
    PlainPairAB();
    assert ExpandOption([b2, Tail(t)]).Success? by {
      assert [b2, Tail(t)] == [b2] + [Tail(t)];
      assert ExpandOption([Tail(t)]) == Success(SomeE(t));
      assert Linear([b2]) by { assert PrefixSentence(OptionMacro, b2); }
      ChainCompose(OptionMacro, [b2], [Tail(t)], []);
    }
    OptionShortCircuit([], PIdent("a", false), false, NoneE, [b2, Tail(t)], [], []);
  }

  /** `result! { let a <- Ok(1); let b <- Ok(2); }` is `Ok(())`. */
  lemma ResultTwoOkUnit()
    ensures ExpandResult([LetFrom("a", OkE(N(1))), LetFrom("b", OkE(N(2)))]).Success?
    ensures ValueOf(ExpandResult([LetFrom("a", OkE(N(1))), LetFrom("b", OkE(N(2)))]).value, []) == Done(VOk(Unit))
  {
    var pre := [LetFrom("a", OkE(N(1))), LetFrom("b", OkE(N(2)))];
    assert Linear(pre) by {
      assert PrefixSentence(OptionMacro, pre[0]) && PrefixSentence(OptionMacro, pre[1]);
    }
    ChainTwo(ResultMacro, OkE(N(1)), OkE(N(2)), VInt(1), VInt(2));
    ChainUnit(ResultMacro, pre, [], [Slot1("a", VInt(1)), Slot1("b", VInt(2))]);
  }

  /** `result! { let a <- Ok(1); let b <- Ok('a'); (a, b) }` is `Ok((1, 'a'))`. */
  lemma ResultTwoOk()
    ensures ExpandResult([LetFrom("a", OkE(N(1))), LetFrom("b", OkE(Lit(VChar('a')))), Tail(TupleE([Var("a"), Var("b")]))]).Success?
    ensures ValueOf(ExpandResult([LetFrom("a", OkE(N(1))), LetFrom("b", OkE(Lit(VChar('a')))), Tail(TupleE([Var("a"), Var("b")]))]).value, [])
      == Done(VOk(VTuple([VInt(1), VChar('a')])))
  {
    var pre := [LetFrom("a", OkE(N(1))), LetFrom("b", OkE(Lit(VChar('a'))))];
    var t := TupleE([Var("a"), Var("b")]);
    assert pre + [Tail(t)] == [pre[0], pre[1], Tail(t)];
    assert Linear(pre) by {
      assert PrefixSentence(OptionMacro, pre[0]) && PrefixSentence(OptionMacro, pre[1]);
    }
    PlainPairAB();
    ResultErrIff(pre, t, [], Unit);
    ChainTwo(ResultMacro, OkE(N(1)), OkE(Lit(VChar('a'))), VInt(1), VChar('a'));
    EvalPairAB(VInt(1), VChar('a'));
  }

  /** `result! { let a <- Err(1); let b <- Ok('a'); (a, b) }` is `Err(1)`. */
  lemma ResultFirstErr()
    ensures ExpandResult([LetFrom("a", ErrE(N(1))), LetFrom("b", OkE(Lit(VChar('a')))), Tail(TupleE([Var("a"), Var("b")]))]).Success?
    ensures ValueOf(ExpandResult([LetFrom("a", ErrE(N(1))), LetFrom("b", OkE(Lit(VChar('a')))), Tail(TupleE([Var("a"), Var("b")]))]).value, [])
      == Done(VErr(VInt(1)))
  {
    var b2 := LetFrom("b", OkE(Lit(VChar('a'))));
    var t := TupleE([Var("a"), Var("b")]);
    assert [] + [LetFrom("a", ErrE(N(1)))] + [b2, Tail(t)] == [LetFrom("a", ErrE(N(1))), b2, Tail(t)];
    PlainPairAB();
    assert ExpandResult([b2, Tail(t)]).Success? by {
      assert [b2, Tail(t)] == [b2] + [Tail(t)];
      assert ExpandResult([Tail(t)]) == Success(OkE(t));
      assert Linear([b2]) by { assert PrefixSentence(OptionMacro, b2); }
      ChainCompose(ResultMacro, [b2], [Tail(t)], []);
    }
    ResultFirstError([], PIdent("a", false), false, ErrE(N(1)), [b2, Tail(t)], [], [], VInt(1));
  }

  /** `result! { let a <- Ok('a'); let b <- Err(2); (a, b) }` is `Err(2)`. */
  lemma ResultSecondErr()
    ensures ExpandResult([LetFrom("a", OkE(Lit(VChar('a')))), LetFrom("b", ErrE(N(2))), Tail(TupleE([Var("a"), Var("b")]))]).Success?
    ensures ValueOf(ExpandResult([LetFrom("a", OkE(Lit(VChar('a')))), LetFrom("b", ErrE(N(2))), Tail(TupleE([Var("a"), Var("b")]))]).value, [])
      == Done(VErr(VInt(2)))
  {
    var b1 := LetFrom("a", OkE(Lit(VChar('a'))));
    var t := TupleE([Var("a"), Var("b")]);
    assert [b1] + [LetFrom("b", ErrE(N(2)))] + [Tail(t)] == [b1, LetFrom("b", ErrE(N(2))), Tail(t)];
    assert Linear([b1]) by { assert PrefixSentence(OptionMacro, b1); }
    PlainPairAB();
    assert ExpandResult([Tail(t)]) == Success(OkE(t));
    assert [b1] == [b1] + [];
    ChainBindOk(ResultMacro, PIdent("a", false), false, OkE(Lit(VChar('a'))), [], [], VChar('a'), Slot1("a", VChar('a')));
    assert [] + [Slot1("a", VChar('a'))] == [Slot1("a", VChar('a'))];
    ResultFirstError([b1], PIdent("b", false), false, ErrE(N(2)), [Tail(t)], [], [Slot1("a", VChar('a'))], VInt(2));
  }

  /**
    `result! { let a <- Some(1); a }` has no value: `Some(1)` selects
    `Option::and_then`, and the closure's `Ok(a)` does not fit it.
  */
  lemma ResultOfOptionRefused()
    ensures ExpandResult([LetFrom("a", SomeE(N(1))), Tail(Var("a"))]).Success?
    ensures ValueOf(ExpandResult([LetFrom("a", SomeE(N(1))), Tail(Var("a"))]).value, []) == Stuck
  {
    var b := LetFrom("a", SomeE(N(1)));
    assert [] + [b] + [Tail(Var("a"))] == [b, Tail(Var("a"))];
    assert ExpandResult([Tail(Var("a"))]) == Success(OkE(Var("a")));
    MismatchedSourceRefused(ResultMacro, [], PIdent("a", false), false, SomeE(N(1)), [Tail(Var("a"))], [], [], VSome(VInt(1)));
  }

  /** `option! { let a <- Ok(1); a }` has no value either. */
  lemma OptionOfResultRefused()
    ensures ExpandOption([LetFrom("a", OkE(N(1))), Tail(Var("a"))]).Success?
    ensures ValueOf(ExpandOption([LetFrom("a", OkE(N(1))), Tail(Var("a"))]).value, []) == Stuck
  {
    var b := LetFrom("a", OkE(N(1)));
    assert [] + [b] + [Tail(Var("a"))] == [b, Tail(Var("a"))];
    assert ExpandOption([Tail(Var("a"))]) == Success(SomeE(Var("a")));
    MismatchedSourceRefused(OptionMacro, [], PIdent("a", false), false, OkE(N(1)), [Tail(Var("a"))], [], [], VOk(VInt(1)));
  }

  // ---------------------------------------------------------------------
  // test_basic and test_guard: iter!
  // ---------------------------------------------------------------------

  lemma EvalPairXY(i: int, j: int)
    ensures Yields(SomeE(TupleE([Var("x"), Var("y")])), [Slot1("x", VInt(i)), Slot1("y", VInt(j))], VSome(P(i, j)))
    ensures Iterate(Eval(SomeE(TupleE([Var("x"), Var("y")])), [Slot1("x", VInt(i)), Slot1("y", VInt(j))]))
      == Done([P(i, j)])
  {
    var env := [Slot1("x", VInt(i)), Slot1("y", VInt(j))];
    assert Read(env, "y") == Done(VInt(j));
    assert Read(env, "x") == Done(VInt(i));
    YieldsTuple([Var("x"), Var("y")], env, [VInt(i), VInt(j)]);
  }

  lemma PlainPairXY()
    ensures PlainExpr(TupleE([Var("x"), Var("y")]))
  {
    assert PlainExprs([Var("y")]);
  }

  /** The inner loop `let y <- x..4;` with `x` bound to `i`. */
  lemma LoopYFromX(i: int, body: Expr, g: int -> seq<Value>)
    requires forall j | i <= j < 4 :: Iterate(Eval(body, [Slot1("x", VInt(i)), Slot1("y", VInt(j))])) == Done(g(j))
    ensures Iterate(Eval(FlatMap(RangeE(Var("x"), N(4)), PIdent("y", false), body), [] + [Slot1("x", VInt(i))]))
      == Done(Concat(i, 4, g))
  {
    var env := [Slot1("x", VInt(i))];
    assert [] + [Slot1("x", VInt(i))] == env;
    EvalFlatMap(RangeE(Var("x"), N(4)), PIdent("y", false), body, env);
    assert Read(env, "x") == Done(VInt(i));
    assert Eval(RangeE(Var("x"), N(4)), env) == Done(Evaluated(VSeq(Range(i, 4)), env));
    forall j | i <= j < 4
      ensures Match(PIdent("y", false), VInt(j)).Done?
      ensures Iterate(Eval(body, env + [Match(PIdent("y", false), VInt(j)).value])) == Done(g(j))
    {
      assert env + [Match(PIdent("y", false), VInt(j)).value] == [Slot1("x", VInt(i)), Slot1("y", VInt(j))];
    }
    LoopOverRange(PIdent("y", false), i, 4, body, env, g);
  }

  /** An outer loop `let x <- src;` (or `let mut x <- src;`) over `lo..hi`, iteration `i` yielding `g(i)`. */
  lemma LoopOuter(x: string, m: bool, src: Expr, lo: int, hi: int, body: Expr, env: Env, g: int -> seq<Value>)
    requires Yields(src, env, VSeq(Range(lo, hi)))
    requires forall i | lo <= i < hi :: Iterate(Eval(body, env + [map[x := Init(VInt(i), m)]])) == Done(g(i))
    ensures Iterate(Eval(FlatMap(src, PIdent(x, m), body), env)) == Done(Concat(lo, hi, g))
  {
    EvalFlatMap(src, PIdent(x, m), body, env);
    LoopOverRange(PIdent(x, m), lo, hi, body, env, g);
  }

  lemma EvalRange(lo: int, hi: int, env: Env)
    ensures Yields(RangeE(N(lo), N(hi)), env, VSeq(Range(lo, hi)))
  {
  }

  lemma EvalVecZeroToThree(env: Env)
    ensures Yields(VecE([N(0), N(1), N(2), N(3)]), env, VSeq(Range(0, 4)))
  {
    assert Range(0, 4) == [VInt(0), VInt(1), VInt(2), VInt(3)] by {
      assert |Range(0, 4)| == 4;
    }
    YieldsAll([N(0), N(1), N(2), N(3)], env, [VInt(0), VInt(1), VInt(2), VInt(3)]);
  }

  /** `iter! { let x <- vec![0, 1, 2, 3]; let y <- x..4; (x, y) }` */
  const TenPairs: seq<Sentence> :=
    [LetFrom("x", VecE([N(0), N(1), N(2), N(3)])), LetFrom("y", RangeE(Var("x"), N(4))), Tail(TupleE([Var("x"), Var("y")]))]

  lemma PlainVecZeroToThree()
    ensures PlainExpr(VecE([N(0), N(1), N(2), N(3)]))
  {
    PlainAll([N(0), N(1), N(2), N(3)]);
  }

  lemma TenPairsExpansion()
    ensures ExpandIter(TenPairs) == Success(FlatMap(VecE([N(0), N(1), N(2), N(3)]), PIdent("x", false),
      FlatMap(RangeE(Var("x"), N(4)), PIdent("y", false), SomeE(TupleE([Var("x"), Var("y")])))))
  {
    var t := TupleE([Var("x"), Var("y")]);
    var src := VecE([N(0), N(1), N(2), N(3)]);
    var rest := [LetFrom("y", RangeE(Var("x"), N(4))), Tail(t)];
    PlainPairXY();
    assert ExpandIter([Tail(t)]) == Success(SomeE(t));
    IterBindStep("y", RangeE(Var("x"), N(4)), [Tail(t)], SomeE(t));
    assert [LetFrom("y", RangeE(Var("x"), N(4)))] + [Tail(t)] == rest;
    PlainVecZeroToThree();
    IterBindStep("x", src, rest, FlatMap(RangeE(Var("x"), N(4)), PIdent("y", false), SomeE(t)));
    assert TenPairs == [LetFrom("x", src)] + rest;
  }

  function PairsFrom(i: int): seq<Value> {
    Concat(i, 4, j => [P(i, j)])
  }

  lemma TenPairsFlat()
    ensures Concat(0, 4, PairsFrom) ==
      [P(0, 0), P(0, 1), P(0, 2), P(0, 3), P(1, 1), P(1, 2), P(1, 3), P(2, 2), P(2, 3), P(3, 3)]
  {
    assert PairsFrom(3) == [P(3, 3)];
    assert PairsFrom(2) == [P(2, 2), P(2, 3)];
    assert PairsFrom(1) == [P(1, 1), P(1, 2), P(1, 3)];
    assert PairsFrom(0) == [P(0, 0), P(0, 1), P(0, 2), P(0, 3)];
  }

  /** The nested loops yield the ten pairs `(x, y)` with `0 <= x <= y < 4`, `x` outermost. */
  lemma IterTenPairs()
    ensures ExpandIter(TenPairs).Success?
    ensures Iterate(Eval(ExpandIter(TenPairs).value, [])) ==
      Done([P(0, 0), P(0, 1), P(0, 2), P(0, 3), P(1, 1), P(1, 2), P(1, 3), P(2, 2), P(2, 3), P(3, 3)])
  {
    var body := SomeE(TupleE([Var("x"), Var("y")]));
    var inner := FlatMap(RangeE(Var("x"), N(4)), PIdent("y", false), body);
    TenPairsExpansion();
    EvalVecZeroToThree([]);
    forall i | 0 <= i < 4 ensures Iterate(Eval(inner, [] + [map["x" := Init(VInt(i), false)]])) == Done(PairsFrom(i)) {
      forall j | i <= j < 4 ensures Iterate(Eval(body, [Slot1("x", VInt(i)), Slot1("y", VInt(j))])) == Done([P(i, j)]) {
        EvalPairXY(i, j);
      }
      LoopYFromX(i, body, j => [P(i, j)]);
    }
    LoopOuter("x", false, VecE([N(0), N(1), N(2), N(3)]), 0, 4, inner, [], PairsFrom);
    TenPairsFlat();
  }

  /** `iter! { let x <- 0..4; let y <- x..4; if x * 2 == y; (x, y) }` */
  const GuardedPairs: seq<Sentence> :=
    [LetFrom("x", RangeE(N(0), N(4))), LetFrom("y", RangeE(Var("x"), N(4))),
     Guard(Bin(Eq, Bin(Mul, Var("x"), N(2)), Var("y"))), Tail(TupleE([Var("x"), Var("y")]))]

  lemma GuardedPairsExpansion()
    ensures ExpandIter(GuardedPairs) == Success(FlatMap(RangeE(N(0), N(4)), PIdent("x", false),
      FlatMap(RangeE(Var("x"), N(4)), PIdent("y", false),
        Filter(SomeE(TupleE([Var("x"), Var("y")])), Bin(Eq, Bin(Mul, Var("x"), N(2)), Var("y"))))))
  {
    var t := TupleE([Var("x"), Var("y")]);
    var c := Bin(Eq, Bin(Mul, Var("x"), N(2)), Var("y"));
    var inner := Filter(SomeE(t), c);
    PlainPairXY();
    assert ExpandIter([Tail(t)]) == Success(SomeE(t));
    IterGuardStep(c, [Tail(t)], SomeE(t));
    var r2 := [Guard(c)] + [Tail(t)];
    IterBindStep("y", RangeE(Var("x"), N(4)), r2, inner);
    var r1 := [LetFrom("y", RangeE(Var("x"), N(4)))] + r2;
    IterBindStep("x", RangeE(N(0), N(4)), r1, FlatMap(RangeE(Var("x"), N(4)), PIdent("y", false), inner));
    assert GuardedPairs == [LetFrom("x", RangeE(N(0), N(4)))] + r1;
  }

  /** The guard keeps the pair `(i, j)` exactly when `i * 2 == j`. */
  lemma GuardedPairAt(i: int, j: int)
    ensures Iterate(Eval(Filter(SomeE(TupleE([Var("x"), Var("y")])), Bin(Eq, Bin(Mul, Var("x"), N(2)), Var("y"))),
                         [Slot1("x", VInt(i)), Slot1("y", VInt(j))]))
      == Done(if i * 2 == j then [P(i, j)] else [])
  {
    var env := [Slot1("x", VInt(i)), Slot1("y", VInt(j))];
    var c := Bin(Eq, Bin(Mul, Var("x"), N(2)), Var("y"));
    var t := SomeE(TupleE([Var("x"), Var("y")]));
    EvalFilter(t, c, env);
    EvalPairXY(i, j);
    assert Read(env, "x") == Done(VInt(i));
    assert Read(env, "y") == Done(VInt(j));
    assert Yields(Bin(Mul, Var("x"), N(2)), env, VInt(i * 2));
    assert ValueOf(c, env) == Done(VBool(i * 2 == j));
    FilterOverConst([P(i, j)], c, env);
  }

  function GuardedFrom(i: int): seq<Value> {
    Concat(i, 4, j => if i * 2 == j then [P(i, j)] else [])
  }

  lemma GuardedFlat()
    ensures Concat(0, 4, GuardedFrom) == [P(0, 0), P(1, 2)]
  {
    assert GuardedFrom(3) == [];
    assert GuardedFrom(2) == [];
    assert GuardedFrom(1) == [P(1, 2)];
    assert GuardedFrom(0) == [P(0, 0)];
  }

  /** Only `(0, 0)` and `(1, 2)` pass the guard. */
  lemma IterGuardedPairs()
    ensures ExpandIter(GuardedPairs).Success?
    ensures Iterate(Eval(ExpandIter(GuardedPairs).value, [])) == Done([P(0, 0), P(1, 2)])
  {
    var body := Filter(SomeE(TupleE([Var("x"), Var("y")])), Bin(Eq, Bin(Mul, Var("x"), N(2)), Var("y")));
    var inner := FlatMap(RangeE(Var("x"), N(4)), PIdent("y", false), body);
    GuardedPairsExpansion();
    EvalRange(0, 4, []);
    forall i | 0 <= i < 4 ensures Iterate(Eval(inner, [] + [map["x" := Init(VInt(i), false)]])) == Done(GuardedFrom(i)) {
      forall j | i <= j < 4
        ensures Iterate(Eval(body, [Slot1("x", VInt(i)), Slot1("y", VInt(j))])) == Done(if i * 2 == j then [P(i, j)] else [])
      {
        GuardedPairAt(i, j);
      }
      LoopYFromX(i, body, j => if i * 2 == j then [P(i, j)] else []);
    }
    LoopOuter("x", false, RangeE(N(0), N(4)), 0, 4, inner, [], GuardedFrom);
    GuardedFlat();
  }

  /**
    `iter! { let mut a <- 1..2; if a < 2; a = a * 2; a }`: the guard's
    closure is created after its receiver, the expansion of `a = a * 2; a`,
    has run, so it sees the doubled `a` and the element 2 is filtered out.
  */
  const GuardAfterAssign: seq<Sentence> :=
    [Bind(PIdent("a", false), true, RangeE(N(1), N(2))), Guard(Bin(Lt, Var("a"), N(2))),
     Stmt(Assign("a", Bin(Mul, Var("a"), N(2)))), Tail(Var("a"))]

  const DoubleInPlace: Statement := Assign("a", Bin(Mul, Var("a"), N(2)))

  lemma GuardAfterAssignExpansion()
    ensures ExpandIter(GuardAfterAssign) == Success(FlatMap(RangeE(N(1), N(2)), PIdent("a", true),
      Filter(Block(DoubleInPlace, SomeE(Var("a"))), Bin(Lt, Var("a"), N(2)))))
  {
    var rest := [Stmt(DoubleInPlace), Tail(Var("a"))];
    assert ExpandIter([Tail(Var("a"))]) == Success(SomeE(Var("a")));
    assert rest[1..] == [Tail(Var("a"))];
    assert ExpandIter(rest) == Success(Block(DoubleInPlace, SomeE(Var("a"))));
    IterGuardStep(Bin(Lt, Var("a"), N(2)), rest, Block(DoubleInPlace, SomeE(Var("a"))));
    assert GuardAfterAssign[1..] == [Guard(Bin(Lt, Var("a"), N(2)))] + rest;
  }

  /** `x = x * 2;` on a mutable `x` holding `i`, from the scope a statement opens. */
  lemma DoubleMutable(below: Env, i: int)
    ensures Exec(DoubleInPlace, below + [Slot("a", VInt(i), true)] + [map[]])
      == Done(below + [Slot("a", VInt(i * 2), true)] + [map[]])
  {
    var env := below + [Slot("a", VInt(i), true)] + [map[]];
    assert env[..|env| - 1] == below + [Slot("a", VInt(i), true)] && env[|env| - 1] == map[];
    assert Read(env, "a") == Done(VInt(i));
    assert Yields(Bin(Mul, Var("a"), N(2)), env, VInt(i * 2));
    AssignFromInnerScope(below, "a", true, VInt(i), VInt(i * 2));
  }

  /** The receiver of the filter leaves `a` doubled: `Some(2 * i)`, in an environment where `a` is `2 * i`. */
  lemma DoubledReceiver(i: int)
    ensures Eval(Block(DoubleInPlace, SomeE(Var("a"))), [] + [Slot("a", VInt(i), true)])
      == Done(Evaluated(VSome(VInt(i * 2)), [Slot("a", VInt(i * 2), true)]))
  {
    var e2 := [Slot("a", VInt(i * 2), true)] + [map[]];
    DoubleMutable([], i);
    assert [] + [Slot("a", VInt(i), true)] + [map[]] == [Slot("a", VInt(i), true)] + [map[]];
    assert [] + [Slot("a", VInt(i * 2), true)] + [map[]] == e2;
    assert Read(e2, "a") == Done(VInt(i * 2)) by {
      assert e2[..|e2| - 1] == [Slot("a", VInt(i * 2), true)];
    }
    assert Yields(SomeE(Var("a")), e2, VSome(VInt(i * 2)));
    EvalBlockEnv(DoubleInPlace, SomeE(Var("a")), [] + [Slot("a", VInt(i), true)]);
    assert e2[..|e2| - 1] == [Slot("a", VInt(i * 2), true)];
  }

  lemma GuardAfterAssignAt(i: int)
    ensures Iterate(Eval(Filter(Block(DoubleInPlace, SomeE(Var("a"))), Bin(Lt, Var("a"), N(2))),
                         [] + [map["a" := Init(VInt(i), true)]]))
      == Done(if i * 2 < 2 then [VInt(i * 2)] else [])
  {
    var env := [] + [Slot("a", VInt(i), true)];
    var c := Bin(Lt, Var("a"), N(2));
    var e := [Slot("a", VInt(i * 2), true)];
    EvalFilter(Block(DoubleInPlace, SomeE(Var("a"))), c, env);
    DoubledReceiver(i);
    assert Read(e, "a") == Done(VInt(i * 2));
    assert ValueOf(c, e) == Done(VBool(i * 2 < 2));
    FilterOverConst([VInt(i * 2)], c, e);
  }

  /** Rust yields nothing here: 1 is doubled to 2 before the guard `a < 2` is evaluated. */
  lemma IterGuardAfterAssign()
    ensures ExpandIter(GuardAfterAssign).Success?
    ensures Iterate(Eval(ExpandIter(GuardAfterAssign).value, [])) == Done([])
  {
    var body := Filter(Block(DoubleInPlace, SomeE(Var("a"))), Bin(Lt, Var("a"), N(2)));
    var g := (i: int) => if i * 2 < 2 then [VInt(i * 2)] else [];
    GuardAfterAssignExpansion();
    EvalRange(1, 2, []);
    forall i | 1 <= i < 2 ensures Iterate(Eval(body, [] + [map["a" := Init(VInt(i), true)]])) == Done(g(i)) {
      GuardAfterAssignAt(i);
    }
    LoopOuter("a", true, RangeE(N(1), N(2)), 1, 2, body, [], g);
    ConcatOne(1, g);
  }

  // ---------------------------------------------------------------------
  // test_ignore, test_if_expression, test_statement: iter!
  // ---------------------------------------------------------------------

  /** The sum of the integers among `xs` (what `sum()` gives on an iterator of integers). */
  function Sum(xs: seq<Value>): int {
    if xs == [] then 0 else (if xs[0].VInt? then xs[0].i else 0) + Sum(xs[1..])
  }

  /** What the body `1` yields in each iteration. */
  function One(i: int): seq<Value> { [VInt(1)] }

  lemma {:induction false} ConcatOnes(lo: int, hi: int)
    requires lo <= hi
    ensures Concat(lo, hi, One) == seq(hi - lo, _ => VInt(1))
    decreases hi - lo
  {
    if lo < hi {
      ConcatOnes(lo + 1, hi);
      assert [VInt(1)] + seq(hi - lo - 1, _ => VInt(1)) == seq(hi - lo, _ => VInt(1));
    }
  }

  lemma {:induction false} SumOnes(n: nat)
    ensures Sum(seq(n, _ => VInt(1))) == n
  {
    if n > 0 {
      var xs := seq(n, _ => VInt(1));
      assert xs[1..] == seq(n - 1, _ => VInt(1));
      SumOnes(n - 1);
    }
  }

  /** `iter! { let _ <- 0..10; 1 }` */
  const IgnoreTen: seq<Sentence> := [Bind(PWild, false, RangeE(N(0), N(10))), Tail(N(1))]

  lemma IgnoreTenExpansion()
    ensures ExpandIter(IgnoreTen) == Success(FlatMap(RangeE(N(0), N(10)), PWild, SomeE(N(1))))
  {
    assert ExpandIter([Tail(N(1))]) == Success(SomeE(N(1)));
    assert IgnoreTen[1..] == [Tail(N(1))];
  }

  lemma IgnoreTenAt(i: int)
    ensures Match(PWild, VInt(i)).Done? && Iterate(Eval(SomeE(N(1)), [] + [Match(PWild, VInt(i)).value])) == Done([VInt(1)])
  {
  }

  lemma IgnoreTenLoop()
    ensures ExpandIter(IgnoreTen).Success?
    ensures Iterate(Eval(ExpandIter(IgnoreTen).value, [])) == Done(Concat(0, 10, One))
  {
    var body := SomeE(N(1));
    IgnoreTenExpansion();
    EvalFlatMap(RangeE(N(0), N(10)), PWild, body, []);
    EvalRange(0, 10, []);
    forall i | 0 <= i < 10
      ensures Match(PWild, VInt(i)).Done? && Iterate(Eval(body, [] + [Match(PWild, VInt(i)).value])) == Done(One(i))
    {
      IgnoreTenAt(i);
    }
    LoopOverRange(PWild, 0, 10, body, [], One);
  }

  /** The wildcard binds nothing; the loop yields ten ones, whose sum is 10. */
  lemma IterIgnoreSum()
    ensures ExpandIter(IgnoreTen).Success?
    ensures Iterate(Eval(ExpandIter(IgnoreTen).value, [])) == Done(seq(10, _ => VInt(1)))
    ensures Sum(seq(10, _ => VInt(1))) == 10
  {
    IgnoreTenLoop();
    ConcatOnes(0, 10);
    SumOnes(10);
  }

  /** `iter! { let x <- 0..5; let y <- if x % 2 == 0 { Some(x + 1) } else { None }; y }` */
  const EvenSuccessors: seq<Sentence> :=
    [LetFrom("x", RangeE(N(0), N(5))),
     LetFrom("y", IfE(Bin(Eq, Bin(Rem, Var("x"), N(2)), N(0)), SomeE(Bin(Add, Var("x"), N(1))), NoneE)),
     Tail(Var("y"))]

  lemma EvenSuccessorsExpansion()
    ensures ExpandIter(EvenSuccessors) == Success(FlatMap(RangeE(N(0), N(5)), PIdent("x", false),
      FlatMap(IfE(Bin(Eq, Bin(Rem, Var("x"), N(2)), N(0)), SomeE(Bin(Add, Var("x"), N(1))), NoneE),
              PIdent("y", false), SomeE(Var("y")))))
  {
    var src := IfE(Bin(Eq, Bin(Rem, Var("x"), N(2)), N(0)), SomeE(Bin(Add, Var("x"), N(1))), NoneE);
    assert ExpandIter([Tail(Var("y"))]) == Success(SomeE(Var("y")));
    assert PlainExpr(src);
    IterBindStep("y", src, [Tail(Var("y"))], SomeE(Var("y")));
    var r1 := [LetFrom("y", src)] + [Tail(Var("y"))];
    IterBindStep("x", RangeE(N(0), N(5)), r1, FlatMap(src, PIdent("y", false), SomeE(Var("y"))));
    assert EvenSuccessors == [LetFrom("x", RangeE(N(0), N(5)))] + r1;
  }

  function EvenSuccessor(i: int): seq<Value> {
    if i % 2 == 0 then [VInt(i + 1)] else []
  }

  lemma EvalEvenTest(i: int)
    requires 0 <= i
    ensures Yields(Bin(Eq, Bin(Rem, Var("x"), N(2)), N(0)), [Slot1("x", VInt(i))], VBool(i % 2 == 0))
  {
    assert Read([Slot1("x", VInt(i))], "x") == Done(VInt(i));
    assert RustRem(i, 2) == i % 2;
    assert Yields(Bin(Rem, Var("x"), N(2)), [Slot1("x", VInt(i))], VInt(i % 2));
  }

  lemma EvalSuccessorSource(i: int)
    requires 0 <= i
    ensures Yields(IfE(Bin(Eq, Bin(Rem, Var("x"), N(2)), N(0)), SomeE(Bin(Add, Var("x"), N(1))), NoneE), [Slot1("x", VInt(i))],
                   if i % 2 == 0 then VSome(VInt(i + 1)) else VNone)
  {
    EvalEvenTest(i);
    assert Read([Slot1("x", VInt(i))], "x") == Done(VInt(i));
  }

  lemma YieldY(env: Env, v: Value)
    ensures FlatMapOver([v], PIdent("y", false), SomeE(Var("y")), env) == Done([v])
  {
    assert Read(env + [Slot1("y", v)], "y") == Done(v);
    assert [v][1..] == [];
    assert [v] + [] == [v];
  }

  /** With `x` bound to `i`, the inner source is `Some(i + 1)` for even `i` and `None` for odd `i`. */
  lemma EvenSuccessorAt(i: int)
    requires 0 <= i
    ensures Iterate(Eval(FlatMap(IfE(Bin(Eq, Bin(Rem, Var("x"), N(2)), N(0)), SomeE(Bin(Add, Var("x"), N(1))), NoneE),
                                 PIdent("y", false), SomeE(Var("y"))), [] + [map["x" := Init(VInt(i), false)]]))
      == Done(EvenSuccessor(i))
  {
    var env := [Slot1("x", VInt(i))];
    assert [] + [map["x" := Init(VInt(i), false)]] == env;
    var src := IfE(Bin(Eq, Bin(Rem, Var("x"), N(2)), N(0)), SomeE(Bin(Add, Var("x"), N(1))), NoneE);
    EvalFlatMap(src, PIdent("y", false), SomeE(Var("y")), env);
    EvalSuccessorSource(i);
    if i % 2 == 0 {
      YieldY(env, VInt(i + 1));
    }
  }

  /** The even `x` contribute `x + 1`: the elements are 1, 3 and 5. */
  lemma IterIfSource()
    ensures ExpandIter(EvenSuccessors).Success?
    ensures Iterate(Eval(ExpandIter(EvenSuccessors).value, [])) == Done([VInt(1), VInt(3), VInt(5)])
  {
    var inner := FlatMap(IfE(Bin(Eq, Bin(Rem, Var("x"), N(2)), N(0)), SomeE(Bin(Add, Var("x"), N(1))), NoneE),
                         PIdent("y", false), SomeE(Var("y")));
    EvenSuccessorsExpansion();
    EvalRange(0, 5, []);
    forall i | 0 <= i < 5 ensures Iterate(Eval(inner, [] + [map["x" := Init(VInt(i), false)]])) == Done(EvenSuccessor(i)) {
      EvenSuccessorAt(i);
    }
    LoopOuter("x", false, RangeE(N(0), N(5)), 0, 5, inner, [], EvenSuccessor);
    EvenSuccessorsFlat();
  }

  lemma EvenSuccessorsFlat()
    ensures Concat(0, 5, EvenSuccessor) == [VInt(1), VInt(3), VInt(5)]
  {
    assert Concat(4, 5, EvenSuccessor) == [VInt(5)];
    assert Concat(3, 5, EvenSuccessor) == [VInt(5)];
    assert Concat(2, 5, EvenSuccessor) == [VInt(3), VInt(5)];
    assert Concat(1, 5, EvenSuccessor) == [VInt(3), VInt(5)];
  }

  /** `iter! { let x <- 0..5; if x < 2 { 0 } else { 1 } }` */
  const TwoZeros: seq<Sentence> :=
    [LetFrom("x", RangeE(N(0), N(5))), Tail(IfE(Bin(Lt, Var("x"), N(2)), N(0), N(1)))]

  function ZeroBelowTwo(i: int): seq<Value> {
    [VInt(if i < 2 then 0 else 1)]
  }

  lemma TwoZerosExpansion()
    ensures ExpandIter(TwoZeros) == Success(FlatMap(RangeE(N(0), N(5)), PIdent("x", false), SomeE(IfE(Bin(Lt, Var("x"), N(2)), N(0), N(1)))))
  {
    var t := IfE(Bin(Lt, Var("x"), N(2)), N(0), N(1));
    assert TwoZeros[1..] == [Tail(t)];
    assert ExpandIter([Tail(t)]) == Success(SomeE(t));
  }

  lemma ZeroBelowTwoAt(i: int)
    ensures Iterate(Eval(SomeE(IfE(Bin(Lt, Var("x"), N(2)), N(0), N(1))), [] + [map["x" := Init(VInt(i), false)]])) == Done(ZeroBelowTwo(i))
  {
    var env := [Slot1("x", VInt(i))];
    assert [] + [map["x" := Init(VInt(i), false)]] == env;
    assert Read(env, "x") == Done(VInt(i));
    assert Yields(Bin(Lt, Var("x"), N(2)), env, VBool(i < 2));
  }

  /** A trailing `if` expression is one element per iteration: 0, 0, 1, 1, 1. */
  lemma IterIfTail()
    ensures ExpandIter(TwoZeros).Success?
    ensures Iterate(Eval(ExpandIter(TwoZeros).value, [])) == Done([VInt(0), VInt(0), VInt(1), VInt(1), VInt(1)])
  {
    var t := IfE(Bin(Lt, Var("x"), N(2)), N(0), N(1));
    TwoZerosExpansion();
    EvalRange(0, 5, []);
    forall i | 0 <= i < 5 ensures Iterate(Eval(SomeE(t), [] + [map["x" := Init(VInt(i), false)]])) == Done(ZeroBelowTwo(i)) {
      ZeroBelowTwoAt(i);
    }
    LoopOuter("x", false, RangeE(N(0), N(5)), 0, 5, SomeE(t), [], ZeroBelowTwo);
    TwoZerosFlat();
  }

  lemma TwoZerosFlat()
    ensures Concat(0, 5, ZeroBelowTwo) == [VInt(0), VInt(0), VInt(1), VInt(1), VInt(1)]
  {
    assert Concat(4, 5, ZeroBelowTwo) == [VInt(1)];
    assert Concat(3, 5, ZeroBelowTwo) == [VInt(1), VInt(1)];
    assert Concat(2, 5, ZeroBelowTwo) == [VInt(1), VInt(1), VInt(1)];
    assert Concat(1, 5, ZeroBelowTwo) == [VInt(0), VInt(1), VInt(1), VInt(1)];
  }

  /** `iter! { let start = 5; let end; end = start * 3; let x <- start..end; x }` */
  const StartToEnd: seq<Sentence> :=
    [Stmt(Let(PIdent("start", false), N(5))), Stmt(LetUninit("end", false)),
     Stmt(Assign("end", Bin(Mul, Var("start"), N(3)))),
     LetFrom("x", RangeE(Var("start"), Var("end"))), Tail(Var("x"))]

  lemma StartToEndExpansion()
    ensures ExpandIter(StartToEnd) == Success(
      Block(Let(PIdent("start", false), N(5)),
      Block(LetUninit("end", false),
      Block(Assign("end", Bin(Mul, Var("start"), N(3))),
      FlatMap(RangeE(Var("start"), Var("end")), PIdent("x", false), SomeE(Var("x")))))))
  {
    var pre := StartToEnd[..4];
    assert StartToEnd == pre + [Tail(Var("x"))];
    assert ExpandIter([Tail(Var("x"))]) == Success(SomeE(Var("x")));
    assert Prefix(IterMacro, pre) by {
      assert PrefixSentence(IterMacro, pre[0]);
      assert PrefixSentence(IterMacro, pre[1]);
      assert PrefixSentence(IterMacro, pre[2]);
      assert PrefixSentence(IterMacro, pre[3]);
    }
    ExpandPrefix(IterMacro, pre, [Tail(Var("x"))]);
    assert pre[1..][1..][1..][1..] == [];
  }

  const StartFrame: Frame := map["start" := Init(VInt(5), false)]

  /**
    The scopes after `let start = 5; let end; end = start * 3;`: each
    statement opened one, and `end` is initialised in the scope that declared it.
  */
  const AfterStatements: Env := [StartFrame, EndFrame, map[]]

  const EndUninit: Frame := map["end" := Uninit(false)]

  const EndFrame: Frame := map["end" := Init(VInt(15), false)]

  /** `let start = 5;` binds `start` in the scope the statement opened. */
  lemma StartBound()
    ensures Exec(Let(PIdent("start", false), N(5)), [] + [map[]]) == Done([StartFrame])
  {
    var e0: Frame := map[];
    assert [] + [e0] == [e0];
    assert Extend([e0], StartFrame) == [e0 + StartFrame];
    assert e0 + StartFrame == StartFrame;
  }

  /** `let end;` declares `end` without a value. */
  lemma EndDeclared()
    ensures Exec(LetUninit("end", false), [StartFrame] + [map[]]) == Done([StartFrame, EndUninit])
  {
    var e0: Frame := map[];
    assert [StartFrame] + [e0] == [StartFrame, e0];
    assert [StartFrame, e0][..1] == [StartFrame];
    assert [StartFrame] + [EndUninit] == [StartFrame, EndUninit];
    assert Extend([StartFrame, e0], EndUninit) == [StartFrame] + [e0 + EndUninit];
    assert e0 + EndUninit == EndUninit;
  }

  /** `end = start * 3;` initialises the immutable `end` in the scope that declared it. */
  lemma EndAssigned()
    ensures Exec(Assign("end", Bin(Mul, Var("start"), N(3))), [StartFrame, EndUninit] + [map[]]) == Done(AfterStatements)
  {
    var e0: Frame := map[];
    var e2 := [StartFrame, EndUninit, e0];
    assert [StartFrame, EndUninit] + [e0] == e2;
    assert e2[..2] == [StartFrame, EndUninit];
    assert [StartFrame, EndUninit][..1] == [StartFrame];
    assert Lookup(e2, "start") == Done(Init(VInt(5), false)) by {
      assert Lookup([StartFrame, EndUninit], "start") == Lookup([StartFrame], "start");
    }
    assert Yields(Bin(Mul, Var("start"), N(3)), e2, VInt(15));
    assert EndUninit["end" := Init(VInt(15), false)] == EndFrame;
    assert Update([StartFrame, EndUninit], "end", VInt(15)) == Done([StartFrame, EndFrame]) by {
      assert [StartFrame] + [EndFrame] == [StartFrame, EndFrame];
    }
    assert [StartFrame, EndFrame] + [e0] == AfterStatements;
  }

  lemma RangeAfterStatements()
    ensures Yields(RangeE(Var("start"), Var("end")), AfterStatements, VSeq(Range(5, 15)))
  {
    var env := AfterStatements;
    assert env[..2] == [StartFrame, EndFrame];
    assert [StartFrame, EndFrame][..1] == [StartFrame];
    assert Lookup([StartFrame, EndFrame], "start") == Lookup([StartFrame], "start");
    assert Read(env, "start") == Done(VInt(5));
    assert Read(env, "end") == Done(VInt(15));
  }

  /** The body `x` yields the value `x` is bound to. */
  lemma YieldVar(x: string, env: Env, i: int)
    ensures Iterate(Eval(SomeE(Var(x)), env + [map[x := Init(VInt(i), false)]])) == Done([VInt(i)])
  {
    assert Read(env + [map[x := Init(VInt(i), false)]], x) == Done(VInt(i));
  }

  /** In the scopes after the statements, the loop over `start..end` yields `5, 6, ..., 14`. */
  lemma LoopAfterStatements()
    ensures Iterate(Eval(FlatMap(RangeE(Var("start"), Var("end")), PIdent("x", false), SomeE(Var("x"))), AfterStatements))
      == Done(Range(5, 15))
  {
    var env := AfterStatements;
    RangeAfterStatements();
    forall i | 5 <= i < 15 ensures Iterate(Eval(SomeE(Var("x")), env + [map["x" := Init(VInt(i), false)]])) == Done([VInt(i)]) {
      YieldVar("x", env, i);
    }
    LoopOuter("x", false, RangeE(Var("start"), Var("end")), 5, 15, SomeE(Var("x")), env, i => [VInt(i)]);
    ConcatIndices(5, 15);
  }

  /**
    A `let` without a value followed by an assignment initialises it once;
    the loop then runs over `5..15` and yields its elements.
  */
  lemma IterStatements()
    ensures ExpandIter(StartToEnd).Success?
    ensures Iterate(Eval(ExpandIter(StartToEnd).value, [])) == Done(Range(5, 15))
  {
    var loop := FlatMap(RangeE(Var("start"), Var("end")), PIdent("x", false), SomeE(Var("x")));
    var s3 := Assign("end", Bin(Mul, Var("start"), N(3)));
    var b3 := Block(s3, loop);
    var b2 := Block(LetUninit("end", false), b3);
    StartToEndExpansion();
    StartBound();
    EndDeclared();
    EndAssigned();
    EvalBlock(Let(PIdent("start", false), N(5)), b2, []);
    EvalBlock(LetUninit("end", false), b3, [StartFrame]);
    EvalBlock(s3, loop, [StartFrame, EndUninit]);
    LoopAfterStatements();
  }

  // ---------------------------------------------------------------------
  // test_mut
  // ---------------------------------------------------------------------

  /** A name the innermost scope does not bind is looked up in the scopes outside it. */
  lemma LookupBelow(env: Env, f: Frame, x: string)
    requires x !in f
    ensures Lookup(env + [f], x) == Lookup(env, x)
    ensures Read(env + [f], x) == Read(env, x)
  {
    assert (env + [f])[..|env|] == env;
  }

  /** An assignment to a name the innermost scope does not bind updates the scopes outside it. */
  lemma UpdateBelow(env: Env, f: Frame, x: string, v: Value)
    requires x !in f
    ensures Update(env + [f], x, v) == (var b :- Update(env, x, v); Done(b + [f]))
  {
    assert (env + [f])[..|env|] == env;
  }

  const IncA: Statement := Assign("a", Bin(Add, Var("a"), N(10)))
  const IncB: Statement := Assign("b", Bin(Add, Var("b"), N(10)))

  /** `a = a + 10;`, in the scope the statement opened, on a mutable `a` holding `i`. */
  lemma IncMutable(x: string, below: Env, i: int)
    ensures Exec(Assign(x, Bin(Add, Var(x), N(10))), below + [Slot(x, VInt(i), true)] + [map[]])
      == Done(below + [Slot(x, VInt(i + 10), true)] + [map[]])
  {
    var e0: Frame := map[];
    var env := below + [Slot(x, VInt(i), true)] + [e0];
    LookupBelow(below + [Slot(x, VInt(i), true)], e0, x);
    assert Read(env, x) == Done(VInt(i));
    assert Yields(Bin(Add, Var(x), N(10)), env, VInt(i + 10));
    AssignFromInnerScope(below, x, true, VInt(i), VInt(i + 10));
  }

  /** `a = a + 10;` on an immutable `a` is refused. */
  lemma IncImmutable(x: string, below: Env, i: int)
    ensures Exec(Assign(x, Bin(Add, Var(x), N(10))), below + [Slot1(x, VInt(i))] + [map[]]) == Stuck
  {
    var e0: Frame := map[];
    var env := below + [Slot1(x, VInt(i))] + [e0];
    LookupBelow(below + [Slot1(x, VInt(i))], e0, x);
    assert Read(env, x) == Done(VInt(i));
    assert Yields(Bin(Add, Var(x), N(10)), env, VInt(i + 10));
    AssignFromInnerScope(below, x, false, VInt(i), VInt(i + 10));
  }

  const A12: Frame := Slot("a", VInt(12), true)
  const B13: Frame := Slot("b", VInt(13), true)

  /** The scopes after `let mut a <- ..; a = a + 10; let (mut b,) <- ..; b = b + 10;`. */
  const MutScopes: Env := [A12, map[], B13, map[]]

  lemma EvalPairABMut()
    ensures Yields(TupleE([Var("a"), Var("b")]), MutScopes, P(12, 13))
  {
    var e0: Frame := map[];
    var env := MutScopes;
    assert env == [A12, e0, B13] + [e0];
    assert [A12, e0, B13] == [A12, e0] + [B13];
    assert [A12, e0] == [A12] + [e0];
    LookupBelow([A12, e0, B13], e0, "b");
    assert Read(env, "b") == Done(VInt(13));
    LookupBelow([A12, e0, B13], e0, "a");
    LookupBelow([A12, e0], B13, "a");
    LookupBelow([A12], e0, "a");
    assert Read(env, "a") == Done(VInt(12));
    YieldsTuple([Var("a"), Var("b")], env, [VInt(12), VInt(13)]);
  }

  /**
    `let mut a <- src1; a = a + 10; let q <- src3; b = b + 10;` where `src1`
    gives 2 and `q` binds a mutable `b` to 3: the chain ends with `a` = 12 and
    `b` = 13, each assignment made in the scope of the closure parameter it names.
  */
  lemma MutChain(m: Macro, src1: Expr, q: Pat, src3: Expr, w: Value)
    requires m != IterMacro
    requires Yields(src1, [], Wrapped(m, VInt(2)))
    requires Yields(src3, [A12, map[]], Wrapped(m, w))
    requires Match(q, w) == Done(Slot("b", VInt(3), true))
    ensures Chain(m, [Bind(PIdent("a", false), true, src1), Stmt(IncA), Bind(q, false, src3), Stmt(IncB)], [])
      == Done(Continue(MutScopes))
  {
    var m1 := Bind(PIdent("a", false), true, src1);
    var m3 := Bind(q, false, src3);
    var ss := [m1, Stmt(IncA), m3, Stmt(IncB)];
    assert ss == [m1] + ([Stmt(IncA)] + ([m3] + [Stmt(IncB)]));
    MutBindA(m, src1, [Stmt(IncA)] + ([m3] + [Stmt(IncB)]));
    MutIncA(m, [m3] + [Stmt(IncB)]);
    MutBindB(m, q, src3, w);
    MutIncB(m);
  }

  lemma MutBindA(m: Macro, src1: Expr, rest: seq<Sentence>)
    requires m != IterMacro && Yields(src1, [], Wrapped(m, VInt(2)))
    ensures Chain(m, [Bind(PIdent("a", false), true, src1)] + rest, []) == Chain(m, rest, [Slot("a", VInt(2), true)])
  {
    var a2 := Slot("a", VInt(2), true);
    ChainBindOk(m, PIdent("a", false), true, src1, rest, [], VInt(2), a2);
    assert [] + [a2] == [a2];
  }

  lemma MutIncA(m: Macro, rest: seq<Sentence>)
    ensures Chain(m, [Stmt(IncA)] + rest, [Slot("a", VInt(2), true)]) == Chain(m, rest, [A12, map[]])
  {
    var e0: Frame := map[];
    var a2 := Slot("a", VInt(2), true);
    IncMutable("a", [], 2);
    assert [] + [a2] + [e0] == [a2] + [e0] && [] + [A12] + [e0] == [A12, e0];
    ChainStmt(m, IncA, rest, [a2], [A12, e0]);
  }

  lemma MutBindB(m: Macro, q: Pat, src3: Expr, w: Value)
    requires m != IterMacro
    requires Yields(src3, [A12, map[]], Wrapped(m, w))
    requires Match(q, w) == Done(Slot("b", VInt(3), true))
    ensures Chain(m, [Bind(q, false, src3)] + [Stmt(IncB)], [A12, map[]])
      == Chain(m, [Stmt(IncB)], [A12, map[], Slot("b", VInt(3), true)])
  {
    var e0: Frame := map[];
    ChainBindOk(m, q, false, src3, [Stmt(IncB)], [A12, e0], w, Slot("b", VInt(3), true));
    assert [A12, e0] + [Slot("b", VInt(3), true)] == [A12, e0, Slot("b", VInt(3), true)];
  }

  lemma MutIncB(m: Macro)
    ensures Chain(m, [Stmt(IncB)], [A12, map[], Slot("b", VInt(3), true)]) == Done(Continue(MutScopes))
  {
    var e0: Frame := map[];
    var b3 := Slot("b", VInt(3), true);
    assert [Stmt(IncB)] == [Stmt(IncB)] + [];
    IncMutable("b", [A12, e0], 3);
    assert [A12, e0, b3] + [map[]] == [A12, e0] + [b3] + [e0];
    ChainStmt(m, IncB, [], [A12, e0, b3], [A12, e0] + [B13] + [e0]);
    assert [A12, e0] + [B13] + [e0] == MutScopes;
  }

  lemma LinearMut(src1: Expr, q: Pat, src3: Expr)
    requires PlainExpr(src1) && PlainExpr(src3)
    ensures Linear([Bind(PIdent("a", false), true, src1), Stmt(IncA), Bind(q, false, src3), Stmt(IncB)])
  {
    var pre := [Bind(PIdent("a", false), true, src1), Stmt(IncA), Bind(q, false, src3), Stmt(IncB)];
    assert PrefixSentence(OptionMacro, pre[0]);
    assert PrefixSentence(OptionMacro, pre[1]);
    assert PrefixSentence(OptionMacro, pre[2]);
    assert PrefixSentence(OptionMacro, pre[3]);
  }

  /** A list of patterns matched against as many values: the first, and then the rest. */
  lemma MatchAllCons(p: Pat, ps: seq<Pat>, v: Value, vs: seq<Value>, f: Frame, g: Frame)
    requires |ps| == |vs|
    requires Match(p, v) == Done(f) && MatchAll(ps, vs) == Done(g) && f.Keys !! g.Keys
    ensures MatchAll([p] + ps, [v] + vs) == Done(f + g)
  {
    assert MatchAll([p] + ps, [v] + vs) == Done(f + g) by {
      assert ([p] + ps)[0] == p && ([v] + vs)[0] == v;
      assert ([p] + ps)[1..] == ps && ([v] + vs)[1..] == vs;
    }
  }

  /** `let (mut b,) <- Some((3,));` */
  lemma MatchMutInTuple()
    ensures Match(PTuple([PIdent("b", true)]), VTuple([VInt(3)])) == Done(Slot("b", VInt(3), true))
  {
    var e0: Frame := map[];
    MatchAllCons(PIdent("b", true), [], VInt(3), [], Slot("b", VInt(3), true), e0);
    assert [PIdent("b", true)] + [] == [PIdent("b", true)] && [VInt(3)] + [] == [VInt(3)];
    assert Slot("b", VInt(3), true) + e0 == Slot("b", VInt(3), true);
  }

  /** `let TupleStruct2(mut b, _) <- Ok(TupleStruct2(3, 4));` */
  lemma MatchMutInTupleStruct()
    ensures Match(PTupleStruct("TupleStruct2", [PIdent("b", true), PWild]), VTupleStruct("TupleStruct2", [VInt(3), VInt(4)]))
      == Done(Slot("b", VInt(3), true))
  {
    var e0: Frame := map[];
    MatchAllCons(PWild, [], VInt(4), [], e0, e0);
    assert [PWild] + [] == [PWild] && [VInt(4)] + [] == [VInt(4)];
    MatchAllCons(PIdent("b", true), [PWild], VInt(3), [VInt(4)], Slot("b", VInt(3), true), e0 + e0);
    assert [PIdent("b", true)] + [PWild] == [PIdent("b", true), PWild] && [VInt(3)] + [VInt(4)] == [VInt(3), VInt(4)];
    assert Slot("b", VInt(3), true) + (e0 + e0) == Slot("b", VInt(3), true);
  }

  /**
    `m! { let mut a <- src1; a = a + 10; let q <- src3; b = b + 10; (a, b) }`,
    with `src1` giving 2 and `q` binding a mutable `b` to 3, is `(12, 13)` wrapped.
  */
  lemma MutRuns(m: Macro, src1: Expr, q: Pat, src3: Expr, w: Value)
    requires m != IterMacro && PlainExpr(src1) && PlainExpr(src3)
    requires Yields(src1, [], Wrapped(m, VInt(2)))
    requires Yields(src3, [A12, map[]], Wrapped(m, w))
    requires Match(q, w) == Done(Slot("b", VInt(3), true))
    ensures Expand(m, [Bind(PIdent("a", false), true, src1), Stmt(IncA), Bind(q, false, src3), Stmt(IncB),
                       Tail(TupleE([Var("a"), Var("b")]))]).Success?
    ensures ValueOf(Expand(m, [Bind(PIdent("a", false), true, src1), Stmt(IncA), Bind(q, false, src3), Stmt(IncB),
                               Tail(TupleE([Var("a"), Var("b")]))]).value, []) == Done(Wrapped(m, P(12, 13)))
  {
    var pre := [Bind(PIdent("a", false), true, src1), Stmt(IncA), Bind(q, false, src3), Stmt(IncB)];
    var t := TupleE([Var("a"), Var("b")]);
    var k := if m == ResultMacro then OkE(t) else SomeE(t);
    assert pre + [Tail(t)] == [pre[0], pre[1], pre[2], pre[3], Tail(t)];
    PlainPairAB();
    assert Expand(m, [Tail(t)]) == Success(k) by {
      assert ExpandSentence(Tail(t)) == Success(Tail(t));
    }
    LinearMut(src1, q, src3);
    ChainCompose(m, pre, [Tail(t)], []);
    MutChain(m, src1, q, src3, w);
    assert ValueOf(k, MutScopes) == Done(Wrapped(m, P(12, 13))) by {
      ValueOfWrapped(m, t, MutScopes);
      EvalPairABMut();
    }
  }

  /**
    `option! { let mut a <- Some(2); a = a + 10; let (mut b,) <- Some((3,)); b = b + 10; (a, b) }`
    is `Some((12, 13))`: each closure owns its mutable parameter.
  */
  lemma OptionMut()
    ensures ExpandOption([Bind(PIdent("a", false), true, SomeE(N(2))), Stmt(IncA),
                          Bind(PTuple([PIdent("b", true)]), false, SomeE(TupleE([N(3)]))), Stmt(IncB),
                          Tail(TupleE([Var("a"), Var("b")]))]).Success?
    ensures ValueOf(ExpandOption([Bind(PIdent("a", false), true, SomeE(N(2))), Stmt(IncA),
                                  Bind(PTuple([PIdent("b", true)]), false, SomeE(TupleE([N(3)]))), Stmt(IncB),
                                  Tail(TupleE([Var("a"), Var("b")]))]).value, []) == Done(VSome(P(12, 13)))
  {
    var src3 := SomeE(TupleE([N(3)]));
    assert PlainExpr(src3) by { assert PlainExprs([N(3)]); }
    YieldsTuple([N(3)], [A12, map[]], [VInt(3)]);
    MatchMutInTuple();
    MutRuns(OptionMacro, SomeE(N(2)), PTuple([PIdent("b", true)]), src3, VTuple([VInt(3)]));
  }

  /**
    `result! { let mut a <- Ok(2); a = a + 10; let TupleStruct2(mut b, _) <- Ok(TupleStruct2(3, 4));
    b = b + 10; (a, b) }` is `Ok((12, 13))`.
  */
  lemma ResultMut()
    ensures ExpandResult([Bind(PIdent("a", false), true, OkE(N(2))), Stmt(IncA),
                          Bind(PTupleStruct("TupleStruct2", [PIdent("b", true), PWild]), false,
                               OkE(TupleStructE("TupleStruct2", [N(3), N(4)]))), Stmt(IncB),
                          Tail(TupleE([Var("a"), Var("b")]))]).Success?
    ensures ValueOf(ExpandResult([Bind(PIdent("a", false), true, OkE(N(2))), Stmt(IncA),
                                  Bind(PTupleStruct("TupleStruct2", [PIdent("b", true), PWild]), false,
                                       OkE(TupleStructE("TupleStruct2", [N(3), N(4)]))), Stmt(IncB),
                                  Tail(TupleE([Var("a"), Var("b")]))]).value, []) == Done(VOk(P(12, 13)))
  {
    var src3 := OkE(TupleStructE("TupleStruct2", [N(3), N(4)]));
    assert PlainExpr(src3) by { assert PlainExprs([N(4)]); assert PlainExprs([N(3), N(4)]); }
    YieldsAll([N(3), N(4)], [A12, map[]], [VInt(3), VInt(4)]);
    MatchMutInTupleStruct();
    MutRuns(ResultMacro, OkE(N(2)), PTupleStruct("TupleStruct2", [PIdent("b", true), PWild]), src3,
            VTupleStruct("TupleStruct2", [VInt(3), VInt(4)]));
  }

  /**
    Without `mut`, `option! { let a <- Some(2); a = a + 10; a }` has no
    value: the closure parameter `a` cannot be assigned.
  */
  lemma AssignNeedsMut()
    ensures ExpandOption([LetFrom("a", SomeE(N(2))), Stmt(IncA), Tail(Var("a"))]).Success?
    ensures ValueOf(ExpandOption([LetFrom("a", SomeE(N(2))), Stmt(IncA), Tail(Var("a"))]).value, []) == Stuck
  {
    var b1 := LetFrom("a", SomeE(N(2)));
    var pre := [b1, Stmt(IncA)];
    assert pre + [Tail(Var("a"))] == [b1, Stmt(IncA), Tail(Var("a"))];
    assert Linear(pre) by {
      assert PrefixSentence(OptionMacro, pre[0]) && PrefixSentence(OptionMacro, pre[1]);
    }
    assert ExpandOption([Tail(Var("a"))]) == Success(SomeE(Var("a")));
    ChainCompose(OptionMacro, pre, [Tail(Var("a"))], []);
    assert pre == [b1] + [Stmt(IncA)];
    ChainBindOk(OptionMacro, PIdent("a", false), false, SomeE(N(2)), [Stmt(IncA)], [], VInt(2), Slot1("a", VInt(2)));
    IncImmutable("a", [], 2);
    assert [] + [Slot1("a", VInt(2))] == [Slot1("a", VInt(2))];
    assert ([Stmt(IncA)] + [])[1..] == [];
    assert [Stmt(IncA)] == [Stmt(IncA)] + [];
  }

  lemma IncThenYield(i: int)
    ensures Iterate(Eval(Block(IncA, SomeE(Var("a"))), [] + [map["a" := Init(VInt(i), true)]])) == Done([VInt(i + 10)])
  {
    var e0: Frame := map[];
    IncMutable("a", [], i);
    EvalBlock(IncA, SomeE(Var("a")), [] + [Slot("a", VInt(i), true)]);
    LookupBelow([] + [Slot("a", VInt(i + 10), true)], e0, "a");
    assert Read([] + [Slot("a", VInt(i + 10), true)] + [e0], "a") == Done(VInt(i + 10));
  }

  const MutLoop: seq<Sentence> := [Bind(PIdent("a", false), true, RangeE(N(2), N(3))), Stmt(IncA), Tail(Var("a"))]

  lemma MutLoopExpansion()
    ensures ExpandIter(MutLoop) == Success(FlatMap(RangeE(N(2), N(3)), PIdent("a", true), Block(IncA, SomeE(Var("a")))))
  {
    assert MutLoop[1..] == [Stmt(IncA), Tail(Var("a"))] && MutLoop[1..][1..] == [Tail(Var("a"))];
    assert ExpandIter([Tail(Var("a"))]) == Success(SomeE(Var("a")));
  }

  /** What one iteration of `a = a + 10; a` yields. */
  function PlusTen(i: int): seq<Value> { [VInt(i + 10)] }

  lemma MutLoopRuns()
    ensures Iterate(Eval(FlatMap(RangeE(N(2), N(3)), PIdent("a", true), Block(IncA, SomeE(Var("a")))), []))
      == Done([VInt(12)])
  {
    var body := Block(IncA, SomeE(Var("a")));
    EvalRange(2, 3, []);
    forall i | 2 <= i < 3 ensures Iterate(Eval(body, [] + [map["a" := Init(VInt(i), true)]])) == Done(PlusTen(i)) {
      IncThenYield(i);
    }
    LoopOuter("a", true, RangeE(N(2), N(3)), 2, 3, body, [], PlusTen);
    ConcatOne(2, PlusTen);
  }

  /** `iter! { let mut a <- 2..3; a = a + 10; a }` yields the single element 12. */
  lemma IterMut()
    ensures ExpandIter(MutLoop).Success?
    ensures Iterate(Eval(ExpandIter(MutLoop).value, [])) == Done([VInt(12)])
  {
    MutLoopExpansion();
    MutLoopRuns();
  }

  /** `if true { a = 1 } else { };`, the branch written as the block `{ a = 1; () }`. */
  const SetInBranch: Statement :=
    ExprStmt(IfE(Lit(VBool(true)), Block(Assign("a", N(1)), TupleE([])), TupleE([])))

  /** `option! { let mut a <- Some(0); if true { a = 1 } else { }; a }` */
  const BranchAssign: seq<Sentence> := [Bind(PIdent("a", false), true, SomeE(N(0))), Stmt(SetInBranch), Tail(Var("a"))]

  /** The assignment inside the branch's block reaches the closure parameter two scopes out. */
  lemma SetInBranchRuns()
    ensures Exec(SetInBranch, [Slot("a", VInt(0), true)] + [map[]]) == Done([Slot("a", VInt(1), true), map[]])
  {
    var e0: Frame := map[];
    var a0 := Slot("a", VInt(0), true);
    var a1 := Slot("a", VInt(1), true);
    var blk := Block(Assign("a", N(1)), TupleE([]));
    assert Update([a0, e0], "a", VInt(1)) == Done([a1, e0]) by {
      AssignFromInnerScope([], "a", true, VInt(0), VInt(1));
      assert [] + [a0] + [e0] == [a0, e0] && [] + [a1] + [e0] == [a1, e0];
    }
    assert Update([a0, e0] + [e0], "a", VInt(1)) == Done([a1, e0] + [e0]) by {
      UpdateBelow([a0, e0], e0, "a", VInt(1));
    }
    assert Exec(Assign("a", N(1)), [a0, e0] + [e0]) == Done([a1, e0] + [e0]);
    assert Eval(TupleE([]), [a1, e0] + [e0]) == Done(Evaluated(VTuple([]), [a1, e0] + [e0])) by {
      assert EvalAll([], [a1, e0] + [e0]) == Done(Evaluated([], [a1, e0] + [e0]));
    }
    assert ([a1, e0] + [e0])[..2] == [a1, e0];
    assert Eval(blk, [a0, e0]) == Done(Evaluated(VTuple([]), [a1, e0])) by {
      EvalBlockEnv(Assign("a", N(1)), TupleE([]), [a0, e0]);
    }
    assert Eval(Lit(VBool(true)), [a0, e0]) == Done(Evaluated(VBool(true), [a0, e0]));
    assert Eval(IfE(Lit(VBool(true)), blk, TupleE([])), [a0, e0]) == Eval(blk, [a0, e0]);
    assert [a0] + [e0] == [a0, e0];
  }

  /** The value is `Some(1)`: the branch's assignment is seen by the tail. */
  lemma OptionBranchAssign()
    ensures ExpandOption(BranchAssign).Success?
    ensures ValueOf(ExpandOption(BranchAssign).value, []) == Done(VSome(VInt(1)))
  {
    var e0: Frame := map[];
    var pre := [BranchAssign[0], BranchAssign[1]];
    assert pre + [Tail(Var("a"))] == BranchAssign;
    assert PlainStatement(SetInBranch) by {
      assert PlainExprs([]);
      assert PlainExpr(Block(Assign("a", N(1)), TupleE([])));
    }
    assert Linear(pre) by {
      assert PrefixSentence(OptionMacro, pre[0]) && PrefixSentence(OptionMacro, pre[1]);
    }
    OptionNoneIff(pre, Var("a"), []);
    var a0 := Slot("a", VInt(0), true);
    var a1 := Slot("a", VInt(1), true);
    assert pre == [pre[0]] + [Stmt(SetInBranch)];
    ChainBindOk(OptionMacro, PIdent("a", false), true, SomeE(N(0)), [Stmt(SetInBranch)], [], VInt(0), a0);
    assert [] + [a0] == [a0];
    SetInBranchRuns();
    assert [Stmt(SetInBranch)] == [Stmt(SetInBranch)] + [];
    ChainStmt(OptionMacro, SetInBranch, [], [a0], [a1, e0]);
    LookupBelow([a1], e0, "a");
    assert [a1] + [e0] == [a1, e0];
    assert Read([a1, e0], "a") == Done(VInt(1));
  }

  // ---------------------------------------------------------------------
  // test_block (without the call counter) and test_nested
  // ---------------------------------------------------------------------

  /** `{ let tmp = a * 2; a = tmp; }`, the helper `double` written out as `a * 2`. */
  const DoubleA: Statement := BlockStmt([Let(PIdent("tmp", false), Bin(Mul, Var("a"), N(2))), Assign("a", Var("tmp"))])

  /** `iter! { let mut a <- 0..5; { let tmp = a * 2; a = tmp; }; a }` */
  const DoubleLoop: seq<Sentence> := [Bind(PIdent("a", false), true, RangeE(N(0), N(5))), Stmt(DoubleA), Tail(Var("a"))]

  lemma DoubleLoopExpansion()
    ensures ExpandIter(DoubleLoop) == Success(FlatMap(RangeE(N(0), N(5)), PIdent("a", true), Block(DoubleA, SomeE(Var("a")))))
  {
    assert PlainStatement(DoubleA) by {
      assert PlainStatements([Assign("a", Var("tmp"))]);
    }
    var rest := [Stmt(DoubleA), Tail(Var("a"))];
    assert ExpandIter([Tail(Var("a"))]) == Success(SomeE(Var("a")));
    assert rest[1..] == [Tail(Var("a"))];
    assert ExpandIter(rest) == Success(Block(DoubleA, SomeE(Var("a"))));
    assert DoubleLoop[1..] == rest;
  }

  /** `let tmp = a * 2;` binds `tmp` in the block's own scope. */
  lemma TmpBound(i: int)
    ensures Exec(Let(PIdent("tmp", false), Bin(Mul, Var("a"), N(2))), [Slot("a", VInt(i), true), map[], map[]])
      == Done([Slot("a", VInt(i), true), map[], Slot1("tmp", VInt(i * 2))])
  {
    var e0: Frame := map[];
    var sa := Slot("a", VInt(i), true);
    var st := Slot1("tmp", VInt(i * 2));
    assert [sa, e0, e0] == [sa] + [e0] + [e0];
    LookupBelow([sa] + [e0], e0, "a");
    LookupBelow([sa], e0, "a");
    assert Yields(Bin(Mul, Var("a"), N(2)), [sa, e0, e0], VInt(i * 2));
    assert Extend([sa, e0, e0], st) == [sa, e0] + [e0 + st];
    assert e0 + st == st;
    assert [sa, e0] + [st] == [sa, e0, st];
  }

  /** `a = tmp;` reaches `a` two scopes out. */
  lemma TmpAssigned(i: int)
    ensures Exec(Assign("a", Var("tmp")), [Slot("a", VInt(i), true), map[], Slot1("tmp", VInt(i * 2))])
      == Done([Slot("a", VInt(i * 2), true), map[], Slot1("tmp", VInt(i * 2))])
  {
    var e0: Frame := map[];
    var sa := Slot("a", VInt(i), true);
    var sa' := Slot("a", VInt(i * 2), true);
    var st := Slot1("tmp", VInt(i * 2));
    var e1 := [sa, e0, st];
    assert e1 == [sa, e0] + [st];
    assert Read(e1, "tmp") == Done(VInt(i * 2));
    assert Eval(Var("tmp"), e1) == Done(Evaluated(VInt(i * 2), e1));
    assert Exec(Assign("a", Var("tmp")), e1) == Update(e1, "a", VInt(i * 2));
    assert Update([sa, e0], "a", VInt(i * 2)) == Done([sa', e0]) by {
      AssignFromInnerScope([], "a", true, VInt(i), VInt(i * 2));
      assert [] + [sa] + [e0] == [sa, e0] && [] + [sa'] + [e0] == [sa', e0];
    }
    assert Update(e1, "a", VInt(i * 2)) == Done([sa', e0] + [st]) by {
      UpdateBelow([sa, e0], st, "a", VInt(i * 2));
    }
    assert [sa', e0] + [st] == [sa', e0, st];
  }

  /**
    The block opens a scope: `tmp` lives in it and is gone after it, while the
    assignment reaches the closure's own `a` outside.
  */
  lemma DoubleRuns(i: int)
    ensures Exec(DoubleA, [Slot("a", VInt(i), true), map[]]) == Done([Slot("a", VInt(i * 2), true), map[]])
  {
    var e0: Frame := map[];
    var sa := Slot("a", VInt(i), true);
    var sa' := Slot("a", VInt(i * 2), true);
    var st := Slot1("tmp", VInt(i * 2));
    assert [sa, e0] + [e0] == [sa, e0, e0];
    TmpBound(i);
    TmpAssigned(i);
    var ss := [Let(PIdent("tmp", false), Bin(Mul, Var("a"), N(2))), Assign("a", Var("tmp"))];
    assert ss[1..] == [Assign("a", Var("tmp"))] && ss[1..][1..] == [];
    assert ExecAll(ss, [sa, e0, e0]) == Done([sa', e0, st]);
    assert [sa', e0, st][..2] == [sa', e0];
  }

  lemma DoubleThenYield(i: int)
    ensures Iterate(Eval(Block(DoubleA, SomeE(Var("a"))), [] + [map["a" := Init(VInt(i), true)]])) == Done([VInt(i * 2)])
  {
    var e0: Frame := map[];
    var sa' := Slot("a", VInt(i * 2), true);
    var env := [] + [map["a" := Init(VInt(i), true)]];
    assert Iterate(Eval(SomeE(Var("a")), [sa', e0])) == Done([VInt(i * 2)]) by {
      assert [sa', e0] == [sa'] + [e0];
      LookupBelow([sa'], e0, "a");
      assert Read([sa', e0], "a") == Done(VInt(i * 2));
    }
    assert Exec(DoubleA, env + [e0]) == Done([sa', e0]) by {
      assert env + [e0] == [Slot("a", VInt(i), true), e0];
      DoubleRuns(i);
    }
    EvalBlock(DoubleA, SomeE(Var("a")), env);
  }

  /** Each iteration doubles its own copy of `a`: 0, 2, 4, 6, 8. */
  lemma IterBlock()
    ensures ExpandIter(DoubleLoop).Success?
    ensures Iterate(Eval(ExpandIter(DoubleLoop).value, [])) == Done([VInt(0), VInt(2), VInt(4), VInt(6), VInt(8)])
  {
    var body := Block(DoubleA, SomeE(Var("a")));
    DoubleLoopExpansion();
    EvalRange(0, 5, []);
    forall i | 0 <= i < 5 ensures Iterate(Eval(body, [] + [map["a" := Init(VInt(i), true)]])) == Done(Doubled(i)) {
      DoubleThenYield(i);
    }
    LoopOuter("a", true, RangeE(N(0), N(5)), 0, 5, body, [], Doubled);
    DoubledFlat();
  }

  /** What one iteration of the doubling loop yields. */
  function Doubled(i: int): seq<Value> { [VInt(i * 2)] }

  lemma DoubledFlat()
    ensures Concat(0, 5, Doubled) == [VInt(0), VInt(2), VInt(4), VInt(6), VInt(8)]
  {
    ConcatOne(4, Doubled);
    assert Concat(3, 5, Doubled) == [VInt(6), VInt(8)];
    assert Concat(2, 5, Doubled) == [VInt(4), VInt(6), VInt(8)];
    assert Concat(1, 5, Doubled) == [VInt(2), VInt(4), VInt(6), VInt(8)];
  }

  /** `option! { let b <- Some(a); (b,) }` */
  const InnerOption: seq<Sentence> := [LetFrom("b", SomeE(Var("a"))), Tail(TupleE([Var("b")]))]

  /** `iter! { let a <- 0..2; option! { let b <- Some(a); (b,) } }` */
  const NestedLoop: seq<Sentence> := [LetFrom("a", RangeE(N(0), N(2))), Tail(Invoke(OptionMacro, InnerOption))]

  /** What the inner `option!` expands to. */
  const InnerChain: Expr := AndThen(OptionMacro, SomeE(Var("a")), PIdent("b", false), SomeE(TupleE([Var("b")])))

  lemma InnerOptionExpansion()
    ensures ExpandOption(InnerOption) == Success(InnerChain)
  {
    assert PlainExprs([Var("b")]);
    assert InnerOption[1..] == [Tail(TupleE([Var("b")]))];
    assert ExpandOption([Tail(TupleE([Var("b")]))]) == Success(SomeE(TupleE([Var("b")])));
  }

  /** The nested `option!` is expanded in place and its value wrapped once more by `iter!`. */
  lemma NestedLoopExpansion()
    ensures ExpandIter(NestedLoop) == Success(FlatMap(RangeE(N(0), N(2)), PIdent("a", false), SomeE(InnerChain)))
  {
    InnerOptionExpansion();
    var inv := Invoke(OptionMacro, InnerOption);
    assert ExpandExpr(inv) == ExpandOption(InnerOption);
    TailWrappedOnce(IterMacro, inv, []);
    assert ExpandIter([Tail(inv)]) == Success(SomeE(InnerChain));
    assert NestedLoop[1..] == [Tail(inv)];
    assert PlainExpr(RangeE(N(0), N(2)));
    assert ExpandSentence(NestedLoop[0]) == Success(NestedLoop[0]);
  }

  lemma InnerOptionAt(i: int)
    ensures Iterate(Eval(SomeE(InnerChain), [] + [map["a" := Init(VInt(i), false)]])) == Done(InnerOptionValue(i))
  {
    var env := [Slot1("a", VInt(i))];
    assert [] + [map["a" := Init(VInt(i), false)]] == env;
    assert Read(env, "a") == Done(VInt(i));
    assert Yields(SomeE(Var("a")), env, VSome(VInt(i)));
    var env' := env + [Slot1("b", VInt(i))];
    assert Read(env', "b") == Done(VInt(i));
    YieldsTuple([Var("b")], env', [VInt(i)]);
    assert Eval(InnerChain, env) == Done(Evaluated(VSome(VTuple([VInt(i)])), env));
  }

  /** What the inner `option!` yields when `a` is `i`. */
  function InnerOptionValue(i: int): seq<Value> {
    [VSome(VTuple([VInt(i)]))]
  }

  lemma NestedFlat()
    ensures Concat(0, 2, InnerOptionValue) == [VSome(VTuple([VInt(0)])), VSome(VTuple([VInt(1)]))]
  {
    ConcatTwo(0, InnerOptionValue);
  }

  lemma NestedRuns()
    ensures Iterate(Eval(FlatMap(RangeE(N(0), N(2)), PIdent("a", false), SomeE(InnerChain)), []))
      == Done(Concat(0, 2, InnerOptionValue))
  {
    forall i | 0 <= i < 2
      ensures Iterate(Eval(SomeE(InnerChain), [] + [map["a" := Init(VInt(i), false)]])) == Done(InnerOptionValue(i))
    {
      InnerOptionAt(i);
    }
    EvalRange(0, 2, []);
    LoopOuter("a", false, RangeE(N(0), N(2)), 0, 2, SomeE(InnerChain), [], InnerOptionValue);
  }

  /** The elements are `Some((0,))` and `Some((1,))`: the inner `Option` itself, not its contents. */
  lemma IterNested()
    ensures ExpandIter(NestedLoop).Success?
    ensures Iterate(Eval(ExpandIter(NestedLoop).value, [])) == Done([VSome(VTuple([VInt(0)])), VSome(VTuple([VInt(1)]))])
  {
    NestedLoopExpansion();
    NestedRuns();
    NestedFlat();
  }
}
