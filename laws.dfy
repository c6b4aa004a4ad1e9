/**
  What the expansions of src/lib.rs mean: once evaluated, `option!` and
  `result!` run their binds as a chain that the first `None` or `Err`
  stops, and `iter!` runs them as nested loops, the first bind outermost.

  `Plug(m, pre, k)` is the right fold of the rules over a prefix of
  sentences around the expansion `k` of the rest; `Chain` and `Paths` give
  the meaning of such a prefix directly, without the expanded code.
*/
module Laws {
  import opened Syntax
  import opened Semantics
  import opened Expansion

  /** The closure parameter a bind declares (`mut p` when the bind says `let mut p`). */
  function BoundPat(p: Pat, isMut: bool): (q: Pat)
    ensures LowerParam(p, isMut).Success? ==> LowerParam(p, isMut) == Success(q)
  {
    match LowerParam(p, isMut)
    case Success(q) => q
    case Failure(_) => p
  }

  /**
    A sentence without nested invocations that the rule table of `m` accepts
    other than as the last one. A sentence that does hold invocations is
    first brought to this form by `Flatten` (see `ExpandFlatten`).
  */
  predicate PrefixSentence(m: Macro, s: Sentence) {
    && PlainSentence(s)
    && !s.Tail?
    && (s.Guard? ==> m == IterMacro)
    && (s.Bind? ==> LowerParam(s.pat, s.isMut).Success?)
  }

  predicate Prefix(m: Macro, pre: seq<Sentence>) {
    forall k | 0 <= k < |pre| :: PrefixSentence(m, pre[k])
  }

  /** Binds and statements only: the shape `Chain` and `Paths` describe. */
  predicate Linear(pre: seq<Sentence>) {
    forall k | 0 <= k < |pre| :: PrefixSentence(OptionMacro, pre[k])
  }

  /** The `Some` or `Ok` the rule for a trailing expression wraps it in. */
  function Wrapped(m: Macro, v: Value): Value {
    if m == ResultMacro then VOk(v) else VSome(v)
  }

  /** The rules for `pre`, folded right to left around the code `k` for what follows. */
  function Plug(m: Macro, pre: seq<Sentence>, k: Expr): Expr
    decreases |pre|
  {
    if pre == [] then k
    else
      var inner := Plug(m, pre[1..], k);
      match pre[0]
      case Bind(p, isMut, src) =>
        if m == IterMacro then FlatMap(src, BoundPat(p, isMut), inner)
        else AndThen(m, src, BoundPat(p, isMut), inner)
      case Guard(c) => Filter(inner, c)
      case Stmt(s) => Block(s, inner)
      case Tail(_) => inner
  }

  /** How a chain of binds and statements ends. */
  datatype Step = Continue(env: Env) | Stop(v: Value)

  /**
    The binds and statements of an `option!` (`m` is `OptionMacro`) or a
    `result!` (`ResultMacro`) run left to right: a source that is `None`,
    respectively `Err(e)`, stops the run with that value, so no later sentence
    is looked at; `Some(x)`, respectively `Ok(x)`, binds `x` in a new scope and
    goes on; a source of any other type is refused. Each statement runs in a
    scope of its own that stays open for the sentences after it.
  */
  function Chain(m: Macro, pre: seq<Sentence>, env: Env): Outcome<Step>
    decreases |pre|
  {
    if pre == [] then Done(Continue(env))
    else
      match pre[0]
      case Bind(p, isMut, src) =>
        var r :- Eval(src, env);
        if Fails(m, r.val) then Done(Stop(r.val))
        else if Succeeds(m, r.val) then
          var f :- Match(BoundPat(p, isMut), r.val.inner);
          Chain(m, pre[1..], r.env + [f])
        else Stuck
      case Stmt(s) =>
        var env' :- Exec(s, env + [map[]]);
        Chain(m, pre[1..], env')
      case _ => Stuck
  }

  /** Continues a chain with the code `k`. */
  function Resume(o: Outcome<Step>, k: Expr): Outcome<Value> {
    match o
    case Stuck => Stuck
    case Done(Stop(v)) => Done(v)
    case Done(Continue(env)) => ValueOf(k, env)
  }

  /**
    The binds and statements of an `iter!` as nested loops: the environments
    of every iteration of the innermost loop, the first bind outermost.
  */
  function Paths(pre: seq<Sentence>, env: Env): Outcome<seq<Env>>
    decreases |pre|, 1
  {
    if pre == [] then Done([env])
    else
      match pre[0]
      case Bind(p, isMut, src) =>
        var r :- Eval(src, env);
        var xs :- IntoIter(r.val);
        PathsOver(xs, BoundPat(p, isMut), pre[1..], r.env)
      case Stmt(s) =>
        var env' :- Exec(s, env + [map[]]);
        Paths(pre[1..], env')
      case _ => Stuck
  }

  function PathsOver(xs: seq<Value>, q: Pat, rest: seq<Sentence>, env: Env): Outcome<seq<Env>>
    decreases |rest| + 1, 0, |xs|
  {
    if xs == [] then Done([])
    else
      var f :- Match(q, xs[0]);
      var a :- Paths(rest, env + [f]);
      var b :- PathsOver(xs[1..], q, rest, env);
      Done(a + b)
  }

  /** The elements `k` yields in each of the environments, in order. */
  function Collect(envs: seq<Env>, k: Expr): Outcome<seq<Value>>
    decreases |envs|
  {
    if envs == [] then Done([])
    else
      var ys :- Iterate(Eval(k, envs[0]));
      var zs :- Collect(envs[1..], k);
      Done(ys + zs)
  }

  function CollectAll(o: Outcome<seq<Env>>, k: Expr): Outcome<seq<Value>> {
    var envs :- o;
    Collect(envs, k)
  }

  // ---------------------------------------------------------------------
  // One evaluation step of each form the rules emit.
  // ---------------------------------------------------------------------

  lemma EvalAndThen(m: Macro, recv: Expr, q: Pat, body: Expr, env: Env)
    ensures ValueOf(AndThen(m, recv, q, body), env) ==
      match Eval(recv, env)
      case Stuck => Stuck
      case Done(r) =>
        if Fails(m, r.val) then Done(r.val)
        else if Succeeds(m, r.val) then
          (match Match(q, r.val.inner)
           case Stuck => Stuck
           case Done(f) => ValueOf(body, r.env + [f]))
        else Stuck
  {
  }

  lemma EvalFlatMap(recv: Expr, q: Pat, body: Expr, env: Env)
    ensures Iterate(Eval(FlatMap(recv, q, body), env)) ==
      (var r :- Eval(recv, env); var xs :- IntoIter(r.val); FlatMapOver(xs, q, body, r.env))
  {
  }

  /**
    `{ s ; rest }` runs `s` in a new scope and `rest` after it: its value is
    that of `rest`, and it leaves the scopes outside it as `s` and `rest`
    left them, the new scope dropped.
  */
  lemma EvalBlockEnv(s: Statement, rest: Expr, env: Env)
    ensures Eval(Block(s, rest), env) ==
      (var inner :- Exec(s, env + [map[]]); var b :- Eval(rest, inner); Done(Evaluated(b.val, b.env[..|b.env| - 1])))
  {
  }

  lemma EvalBlock(s: Statement, rest: Expr, env: Env)
    ensures ValueOf(Block(s, rest), env) == (var inner :- Exec(s, env + [map[]]); ValueOf(rest, inner))
    ensures Iterate(Eval(Block(s, rest), env)) == (var inner :- Exec(s, env + [map[]]); Iterate(Eval(rest, inner)))
  {
    EvalBlockEnv(s, rest, env);
  }

  /** `Some(t)` or `Ok(t)`, as the table of `m` wraps a trailing expression. */
  lemma ValueOfWrapped(m: Macro, t: Expr, env: Env)
    ensures ValueOf(if m == ResultMacro then OkE(t) else SomeE(t), env) ==
      (var v :- ValueOf(t, env); Done(Wrapped(m, v)))
  {
  }

  /** The filter's closure captures the environment that evaluating its receiver leaves. */
  lemma EvalFilter(recv: Expr, c: Expr, env: Env)
    ensures Iterate(Eval(Filter(recv, c), env)) ==
      (var r :- Eval(recv, env); var xs :- IntoIter(r.val); FilterOver(xs, c, r.env))
  {
  }

  // ---------------------------------------------------------------------
  // The expansion of a prefix is the right fold of its rules.
  // ---------------------------------------------------------------------

  /**
    Each accepted sentence of `pre` becomes one chained call (or block, or
    filter) wrapped around the expansion of everything after it.
  */
  lemma {:induction false} ExpandPrefix(m: Macro, pre: seq<Sentence>, rest: seq<Sentence>)
    requires Prefix(m, pre)
    ensures Expand(m, pre + rest) ==
      (if Expand(m, rest).Success? then Success(Plug(m, pre, Expand(m, rest).value)) else Expand(m, rest))
    decreases |pre|
  {
    if pre == [] {
      assert pre + rest == rest;
    } else {
      var ss := pre + rest;
      assert ss[0] == pre[0];
      assert ss[1..] == pre[1..] + rest;
      assert Prefix(m, pre[1..]) by {
        forall k | 0 <= k < |pre[1..]| ensures PrefixSentence(m, pre[1..][k]) {
          assert pre[1..][k] == pre[k + 1];
        }
      }
      assert PrefixSentence(m, pre[0]);
      ExpandPrefix(m, pre[1..], rest);
    }
  }

  /** The sentences `ss` with their nested invocations expanded in place. */
  function Flatten(ss: seq<Sentence>): (r: seq<Sentence>)
    requires forall k | 0 <= k < |ss| :: ExpandSentence(ss[k]).Success?
    ensures |r| == |ss|
    ensures forall k | 0 <= k < |ss| :: r[k] == ExpandSentence(ss[k]).value && PlainSentence(r[k])
  {
    if ss == [] then []
    else [ExpandSentence(ss[0]).value] + Flatten(ss[1..])
  }

  /** Flattening works sentence by sentence, so it distributes over `+`. */
  lemma FlattenAppend(a: seq<Sentence>, b: seq<Sentence>)
    requires forall k | 0 <= k < |a| :: ExpandSentence(a[k]).Success?
    requires forall k | 0 <= k < |b| :: ExpandSentence(b[k]).Success?
    ensures Flatten(a + b) == Flatten(a) + Flatten(b)
  {
    var ab := a + b;
    assert forall k | 0 <= k < |ab| :: ab[k] == if k < |a| then a[k] else b[k - |a|];
  }

  /**
    The rule tables first expand the nested invocations of a sentence
    (`ExpandSentence`) and then apply the rule for its kind, so an
    invocation whose sentences hold nested invocations expands exactly as
    the same invocation with those invocations already expanded. Every law
    stated below for sentences without invocations applies to `Flatten(ss)`.
  */
  lemma {:induction false} ExpandFlatten(m: Macro, ss: seq<Sentence>)
    requires forall k | 0 <= k < |ss| :: ExpandSentence(ss[k]).Success?
    ensures Expand(m, ss) == Expand(m, Flatten(ss))
    decreases |ss|
  {
    if ss != [] {
      var fs := Flatten(ss);
      assert fs[0] == ExpandSentence(ss[0]).value;
      assert fs[1..] == Flatten(ss[1..]);
      assert ExpandSentence(fs[0]) == Success(fs[0]);
      ExpandFlatten(m, ss[1..]);
    }
  }

  // ---------------------------------------------------------------------
  // option! and result!: a chain that the first failure stops.
  // ---------------------------------------------------------------------

  lemma TailOfLinear(pre: seq<Sentence>)
    requires |pre| > 0 && Linear(pre)
    ensures Linear(pre[1..]) && PrefixSentence(OptionMacro, pre[0])
  {
    forall k | 0 <= k < |pre[1..]| ensures PrefixSentence(OptionMacro, pre[1..][k]) {
      assert pre[1..][k] == pre[k + 1];
    }
  }

  /** The folded `and_then` calls evaluate as the chain, whatever `k` is. */
  lemma {:induction false} ChainPlug(m: Macro, pre: seq<Sentence>, k: Expr, env: Env)
    requires m != IterMacro && Linear(pre)
    ensures ValueOf(Plug(m, pre, k), env) == Resume(Chain(m, pre, env), k)
    decreases |pre|, 1
  {
    if pre != [] {
      TailOfLinear(pre);
      if pre[0].Bind? {
        ChainPlugBind(m, pre, k, env);
      } else {
        var s := pre[0].effect;
        var inner := Plug(m, pre[1..], k);
        assert Plug(m, pre, k) == Block(s, inner);
        EvalBlock(s, inner, env);
        var e' := Exec(s, env + [map[]]);
        if e'.Done? {
          assert Chain(m, pre, env) == Chain(m, pre[1..], e'.value);
          ChainPlug(m, pre[1..], k, e'.value);
        } else {
          assert Chain(m, pre, env) == Stuck;
        }
      }
    }
  }

  lemma {:induction false} ChainPlugBind(m: Macro, pre: seq<Sentence>, k: Expr, env: Env)
    requires m != IterMacro && Linear(pre) && |pre| > 0 && pre[0].Bind?
    ensures ValueOf(Plug(m, pre, k), env) == Resume(Chain(m, pre, env), k)
    decreases |pre|, 0
  {
    TailOfLinear(pre);
    var Bind(p, isMut, src) := pre[0];
    var q := BoundPat(p, isMut);
    var inner := Plug(m, pre[1..], k);
    assert Plug(m, pre, k) == AndThen(m, src, q, inner);
    EvalAndThen(m, src, q, inner, env);
    var r := Eval(src, env);
    if r.Stuck? {
      assert Chain(m, pre, env) == Stuck;
    } else if Fails(m, r.value.val) {
      assert Chain(m, pre, env) == Done(Stop(r.value.val));
    } else if Succeeds(m, r.value.val) {
      var f := Match(q, r.value.val.inner);
      if f.Done? {
        assert Chain(m, pre, env) == Chain(m, pre[1..], r.value.env + [f.value]);
        ChainPlug(m, pre[1..], k, r.value.env + [f.value]);
      } else {
        assert Chain(m, pre, env) == Stuck;
      }
    } else {
      assert Chain(m, pre, env) == Stuck;
    }
  }

  /**
    A bind's continuation is exactly the expansion of the sentences after it:
    `option!` / `result!` of `pre + rest` is the chain of `pre` resumed with
    the expansion of `rest`.
  */
  lemma ChainCompose(m: Macro, pre: seq<Sentence>, rest: seq<Sentence>, env: Env)
    requires m != IterMacro && Linear(pre)
    requires Expand(m, rest).Success?
    ensures Expand(m, pre + rest).Success?
    ensures ValueOf(Expand(m, pre + rest).value, env) == Resume(Chain(m, pre, env), Expand(m, rest).value)
  {
    assert Prefix(m, pre) by {
      forall k | 0 <= k < |pre| ensures PrefixSentence(m, pre[k]) {
        assert PrefixSentence(OptionMacro, pre[k]);
      }
    }
    ExpandPrefix(m, pre, rest);
    ChainPlug(m, pre, Expand(m, rest).value, env);
  }

  /** Running `pre + post` is running `pre`, then `post` if `pre` did not stop. */
  lemma {:induction false} ChainAppend(m: Macro, pre: seq<Sentence>, post: seq<Sentence>, env: Env)
    requires Linear(pre)
    ensures Chain(m, pre + post, env) ==
      match Chain(m, pre, env)
      case Done(Continue(env')) => Chain(m, post, env')
      case other => other
    decreases |pre|
  {
    if pre == [] {
      assert pre + post == post;
    } else {
      TailOfLinear(pre);
      var ss := pre + post;
      assert ss[0] == pre[0];
      assert ss[1..] == pre[1..] + post;
      match pre[0]
      case Bind(p, isMut, src) =>
        var r := Eval(src, env);
        if r.Done? && !Fails(m, r.value.val) && Succeeds(m, r.value.val) {
          var f := Match(BoundPat(p, isMut), r.value.val.inner);
          if f.Done? {
            ChainAppend(m, pre[1..], post, r.value.env + [f.value]);
          }
        }
      case Stmt(s) =>
        var e' := Exec(s, env + [map[]]);
        if e'.Done? {
          ChainAppend(m, pre[1..], post, e'.value);
        }
    }
  }

  /** A chain that has stopped yields the failure it stopped with, whatever follows. */
  lemma StoppedChain(m: Macro, pre: seq<Sentence>, rest: seq<Sentence>, env: Env, v: Value)
    requires m != IterMacro && Linear(pre) && Expand(m, rest).Success?
    requires Chain(m, pre, env) == Done(Stop(v))
    ensures Expand(m, pre + rest).Success?
    ensures ValueOf(Expand(m, pre + rest).value, env) == Done(v)
  {
    ChainCompose(m, pre, rest, env);
  }

  lemma LinearSnoc(pre: seq<Sentence>, p: Pat, isMut: bool, src: Expr)
    requires Linear(pre) && PlainExpr(src) && LowerParam(p, isMut).Success?
    ensures Linear(pre + [Bind(p, isMut, src)])
  {
    var pre' := pre + [Bind(p, isMut, src)];
    forall k | 0 <= k < |pre'| ensures PrefixSentence(OptionMacro, pre'[k]) {
      if k < |pre| { assert pre'[k] == pre[k]; }
    }
  }

  /**
    `option!`: when every bind before a given one succeeded and its source is
    `None`, the whole invocation is `None`, whatever follows: the later
    continuations are never evaluated.
  */
  lemma OptionShortCircuit(pre: seq<Sentence>, p: Pat, isMut: bool, src: Expr,
                           rest: seq<Sentence>, env: Env, env': Env)
    requires Linear(pre) && PlainExpr(src) && LowerParam(p, isMut).Success?
    requires ExpandOption(rest).Success?
    requires Chain(OptionMacro, pre, env) == Done(Continue(env'))
    requires ValueOf(src, env') == Done(VNone)
    ensures ExpandOption(pre + [Bind(p, isMut, src)] + rest).Success?
    ensures ValueOf(ExpandOption(pre + [Bind(p, isMut, src)] + rest).value, env) == Done(VNone)
  {
    LinearSnoc(pre, p, isMut, src);
    ChainAppend(OptionMacro, pre, [Bind(p, isMut, src)], env);
    StoppedChain(OptionMacro, pre + [Bind(p, isMut, src)], rest, env, VNone);
  }

  /**
    `option!`: the result is `None` exactly when some bind met `None`;
    otherwise it is `Some` of the trailing expression, evaluated with every
    binding in scope.
  */
  lemma OptionNoneIff(pre: seq<Sentence>, t: Expr, env: Env)
    requires Linear(pre) && PlainExpr(t)
    ensures ExpandOption(pre + [Tail(t)]).Success?
    ensures ValueOf(ExpandOption(pre + [Tail(t)]).value, env) == Done(VNone)
        <==> Chain(OptionMacro, pre, env) == Done(Stop(VNone))
    ensures Chain(OptionMacro, pre, env).Done? && Chain(OptionMacro, pre, env).value.Continue? ==>
      ValueOf(ExpandOption(pre + [Tail(t)]).value, env) ==
        (var v :- ValueOf(t, Chain(OptionMacro, pre, env).value.env); Done(VSome(v)))
  {
    assert ExpandOption([Tail(t)]) == Success(SomeE(t));
    ChainCompose(OptionMacro, pre, [Tail(t)], env);
    var c := Chain(OptionMacro, pre, env);
    var r := ValueOf(ExpandOption(pre + [Tail(t)]).value, env);
    assert r == Resume(c, SomeE(t));
    match c
    case Stuck =>
    case Done(Stop(v)) =>
    case Done(Continue(env')) =>
      ValueOfWrapped(OptionMacro, t, env');
      assert r == (var v :- ValueOf(t, env'); Done(VSome(v)));
  }

  /**
    `result!`: when every bind before a given one succeeded and its source is
    `Err(e)`, the whole invocation is `Err(e)`, the payload unchanged, whatever
    errors later binds would have produced.
  */
  lemma ResultFirstError(pre: seq<Sentence>, p: Pat, isMut: bool, src: Expr,
                         rest: seq<Sentence>, env: Env, env': Env, e: Value)
    requires Linear(pre) && PlainExpr(src) && LowerParam(p, isMut).Success?
    requires ExpandResult(rest).Success?
    requires Chain(ResultMacro, pre, env) == Done(Continue(env'))
    requires ValueOf(src, env') == Done(VErr(e))
    ensures ExpandResult(pre + [Bind(p, isMut, src)] + rest).Success?
    ensures ValueOf(ExpandResult(pre + [Bind(p, isMut, src)] + rest).value, env) == Done(VErr(e))
  {
    LinearSnoc(pre, p, isMut, src);
    ChainAppend(ResultMacro, pre, [Bind(p, isMut, src)], env);
    StoppedChain(ResultMacro, pre + [Bind(p, isMut, src)], rest, env, VErr(e));
  }

  /**
    `result!`: the result is `Err(e)` exactly when the chain stopped at an
    `Err(e)`; otherwise it is `Ok` of the trailing expression.
  */
  lemma ResultErrIff(pre: seq<Sentence>, t: Expr, env: Env, e: Value)
    requires Linear(pre) && PlainExpr(t)
    ensures ExpandResult(pre + [Tail(t)]).Success?
    ensures ValueOf(ExpandResult(pre + [Tail(t)]).value, env) == Done(VErr(e))
        <==> Chain(ResultMacro, pre, env) == Done(Stop(VErr(e)))
    ensures Chain(ResultMacro, pre, env).Done? && Chain(ResultMacro, pre, env).value.Continue? ==>
      ValueOf(ExpandResult(pre + [Tail(t)]).value, env) ==
        (var v :- ValueOf(t, Chain(ResultMacro, pre, env).value.env); Done(VOk(v)))
  {
    assert ExpandResult([Tail(t)]) == Success(OkE(t));
    ChainCompose(ResultMacro, pre, [Tail(t)], env);
    var c := Chain(ResultMacro, pre, env);
    var r := ValueOf(ExpandResult(pre + [Tail(t)]).value, env);
    assert r == Resume(c, OkE(t));
    match c
    case Stuck =>
    case Done(Stop(v)) =>
    case Done(Continue(env')) =>
      ValueOfWrapped(ResultMacro, t, env');
      assert r == (var v :- ValueOf(t, env'); Done(VOk(v)));
  }

  /**
    A bind whose source is neither of the two variants of its table's type
    (an `Option` in `result!`, a `Result` in `option!`, an integer in either)
    makes the invocation ill-typed, whatever follows.
  */
  lemma MismatchedSourceRefused(m: Macro, pre: seq<Sentence>, p: Pat, isMut: bool, src: Expr,
                                rest: seq<Sentence>, env: Env, env': Env, v: Value)
    requires m != IterMacro && Linear(pre) && PlainExpr(src) && LowerParam(p, isMut).Success?
    requires Expand(m, rest).Success?
    requires Chain(m, pre, env) == Done(Continue(env'))
    requires ValueOf(src, env') == Done(v) && !Fails(m, v) && !Succeeds(m, v)
    ensures Expand(m, pre + [Bind(p, isMut, src)] + rest).Success?
    ensures ValueOf(Expand(m, pre + [Bind(p, isMut, src)] + rest).value, env) == Stuck
  {
    LinearSnoc(pre, p, isMut, src);
    ChainAppend(m, pre, [Bind(p, isMut, src)], env);
    ChainCompose(m, pre + [Bind(p, isMut, src)], rest, env);
  }

  /**
    Binds and statements with no trailing expression (the empty invocation
    included) yield `Some(())` or `Ok(())` once every bind succeeded.
  */
  lemma ChainUnit(m: Macro, pre: seq<Sentence>, env: Env, env': Env)
    requires m != IterMacro && Linear(pre)
    requires Chain(m, pre, env) == Done(Continue(env'))
    ensures Expand(m, pre).Success?
    ensures ValueOf(Expand(m, pre).value, env) == Done(Wrapped(m, Unit))
  {
    assert pre + [] == pre;
    ChainCompose(m, pre, [], env);
  }

  /**
    The empty invocation: `Some(())` from `option!`, `Ok(())` from `result!`,
    and from `iter!` the `Some(())` that iterates as the single element `()`.
  */
  lemma EmptyInvocation(m: Macro, env: Env)
    ensures Expand(m, []) == Success(if m == ResultMacro then OkE(TupleE([])) else SomeE(TupleE([])))
    ensures ValueOf(Expand(m, []).value, env) == Done(Wrapped(m, Unit))
    ensures m == IterMacro ==> Iterate(Eval(Expand(m, []).value, env)) == Done([Unit])
  {
  }

  /** Assigning to `x` from a fresh scope just inside the one that binds it. */
  lemma AssignFromInnerScope(env1: Env, x: string, isMut: bool, v: Value, w: Value)
    ensures Update(env1 + [map[x := Init(v, isMut)]] + [map[]], x, w) ==
      if isMut then Done(env1 + [map[x := Init(w, true)]] + [map[]]) else Stuck
  {
    var e1 := env1 + [map[x := Init(v, isMut)]];
    var e2 := e1 + [map[]];
    assert e2[..|e2| - 1] == e1 && e2[|e2| - 1] == map[];
    assert e1[..|e1| - 1] == env1 && e1[|e1| - 1] == map[x := Init(v, isMut)];
    if isMut {
      assert map[x := Init(v, true)][x := Init(w, true)] == map[x := Init(w, true)];
      assert Update(e1, x, w) == Done(env1 + [map[x := Init(w, true)]]);
    } else {
      assert Update(e1, x, w) == Stuck;
    }
  }

  /**
    `let mut x <- src; x = rhs;` leaves `x` holding the value of `rhs` for
    what follows (the statement's own scope stays open after it); without
    `mut` the assignment is refused.
  */
  lemma MutBindAssignable(m: Macro, x: string, isMut: bool, src: Expr, rhs: Expr,
                          env: Env, env1: Env, v: Value, w: Value)
    requires m != IterMacro
    requires Eval(src, env) == Done(Evaluated(Wrapped(m, v), env1))
    requires Eval(rhs, env1 + [map[x := Init(v, isMut)]] + [map[]])
      == Done(Evaluated(w, env1 + [map[x := Init(v, isMut)]] + [map[]]))
    ensures Chain(m, [Bind(PIdent(x, false), isMut, src), Stmt(Assign(x, rhs))], env) ==
      if isMut then Done(Continue(env1 + [map[x := Init(w, true)]] + [map[]])) else Stuck
  {
    var ss := [Bind(PIdent(x, false), isMut, src), Stmt(Assign(x, rhs))];
    assert ss[1..] == [Stmt(Assign(x, rhs))] && ss[1..][1..] == [];
    var e1 := env1 + [map[x := Init(v, isMut)]];
    assert Match(BoundPat(PIdent(x, false), isMut), v) == Done(map[x := Init(v, isMut)]);
    assert Succeeds(m, Wrapped(m, v)) && !Fails(m, Wrapped(m, v));
    assert Chain(m, ss, env) == Chain(m, ss[1..], e1);
    assert Exec(Assign(x, rhs), e1 + [map[]]) == Update(e1 + [map[]], x, w);
    AssignFromInnerScope(env1, x, isMut, v, w);
    if isMut {
      assert Chain(m, ss[1..], e1) == Chain(m, [], env1 + [map[x := Init(w, true)]] + [map[]]);
    } else {
      assert Chain(m, ss[1..], e1) == Stuck;
    }
  }

  // ---------------------------------------------------------------------
  // iter!: nested loops, guards as filters.
  // ---------------------------------------------------------------------

  lemma {:induction false} CollectAppend(a: seq<Env>, b: seq<Env>, k: Expr)
    ensures Collect(a + b, k) ==
      (var ca :- Collect(a, k); var cb :- Collect(b, k); Done(ca + cb))
    decreases |a|
  {
    if a == [] {
      assert a + b == b;
      if Collect(b, k).Done? { assert [] + Collect(b, k).value == Collect(b, k).value; }
    } else {
      assert (a + b)[0] == a[0];
      assert (a + b)[1..] == a[1..] + b;
      CollectAppend(a[1..], b, k);
      var h := Iterate(Eval(k, a[0]));
      if h.Done? && Collect(a[1..], k).Done? && Collect(b, k).Done? {
        assert h.value + (Collect(a[1..], k).value + Collect(b, k).value)
            == (h.value + Collect(a[1..], k).value) + Collect(b, k).value;
      }
    }
  }

  /** The folded `flat_map` calls yield, for each path of the loops, what `k` yields there. */
  lemma {:induction false} LoopPlug(pre: seq<Sentence>, k: Expr, env: Env)
    requires Linear(pre)
    ensures Iterate(Eval(Plug(IterMacro, pre, k), env)) == CollectAll(Paths(pre, env), k)
    decreases |pre|, 1
  {
    if pre == [] {
      assert Collect([env], k) == Iterate(Eval(k, env)) by {
        var h := Iterate(Eval(k, env));
        if h.Done? { assert h.value + [] == h.value; }
      }
    } else {
      TailOfLinear(pre);
      if pre[0].Bind? {
        LoopPlugBind(pre, k, env);
      } else {
        var s := pre[0].effect;
        var inner := Plug(IterMacro, pre[1..], k);
        assert Plug(IterMacro, pre, k) == Block(s, inner);
        EvalBlock(s, inner, env);
        var e' := Exec(s, env + [map[]]);
        if e'.Done? {
          assert Paths(pre, env) == Paths(pre[1..], e'.value);
          LoopPlug(pre[1..], k, e'.value);
        } else {
          assert Paths(pre, env) == Stuck;
        }
      }
    }
  }

  lemma {:induction false} LoopPlugBind(pre: seq<Sentence>, k: Expr, env: Env)
    requires Linear(pre) && |pre| > 0 && pre[0].Bind?
    ensures Iterate(Eval(Plug(IterMacro, pre, k), env)) == CollectAll(Paths(pre, env), k)
    decreases |pre|, 0
  {
    TailOfLinear(pre);
    var Bind(p, isMut, src) := pre[0];
    var q := BoundPat(p, isMut);
    var inner := Plug(IterMacro, pre[1..], k);
    assert Plug(IterMacro, pre, k) == FlatMap(src, q, inner);
    EvalFlatMap(src, q, inner, env);
    var r := Eval(src, env);
    if r.Done? && IntoIter(r.value.val).Done? {
      var xs := IntoIter(r.value.val).value;
      assert Paths(pre, env) == PathsOver(xs, q, pre[1..], r.value.env);
      LoopPlugOver(xs, q, pre[1..], k, r.value.env);
    } else {
      assert Paths(pre, env) == Stuck;
    }
  }

  lemma FlatMapOverCons(xs: seq<Value>, q: Pat, body: Expr, env: Env, f: Frame)
    requires xs != [] && Match(q, xs[0]) == Done(f)
    ensures FlatMapOver(xs, q, body, env) ==
      (var ys :- Iterate(Eval(body, env + [f])); var zs :- FlatMapOver(xs[1..], q, body, env); Done(ys + zs))
  {
  }

  lemma PathsOverCons(xs: seq<Value>, q: Pat, rest: seq<Sentence>, env: Env, f: Frame)
    requires xs != [] && Match(q, xs[0]) == Done(f)
    ensures PathsOver(xs, q, rest, env) ==
      (var a :- Paths(rest, env + [f]); var b :- PathsOver(xs[1..], q, rest, env); Done(a + b))
  {
  }

  lemma {:induction false} LoopPlugOver(xs: seq<Value>, q: Pat, rest: seq<Sentence>, k: Expr, env: Env)
    requires Linear(rest)
    ensures FlatMapOver(xs, q, Plug(IterMacro, rest, k), env) == CollectAll(PathsOver(xs, q, rest, env), k)
    decreases |rest| + 1, 0, |xs|
  {
    if xs != [] {
      var body := Plug(IterMacro, rest, k);
      var f := Match(q, xs[0]);
      if f.Done? {
        var e := env + [f.value];
        LoopPlug(rest, k, e);
        LoopPlugOver(xs[1..], q, rest, k, env);
        FlatMapOverCons(xs, q, body, env, f.value);
        PathsOverCons(xs, q, rest, env, f.value);
        var a := Paths(rest, e);
        var b := PathsOver(xs[1..], q, rest, env);
        if a.Done? && b.Done? {
          CollectAppend(a.value, b.value, k);
        }
      } else {
        assert FlatMapOver(xs, q, body, env) == Stuck;
        assert PathsOver(xs, q, rest, env) == Stuck;
      }
    }
  }

  /**
    `iter!` of `pre + rest` yields, for every iteration of the nested loops
    of `pre` (the first bind outermost, each source traversed in order), the
    elements of the expansion of `rest` in that iteration's bindings.
  */
  lemma IterCompose(pre: seq<Sentence>, rest: seq<Sentence>, env: Env)
    requires Linear(pre) && ExpandIter(rest).Success?
    ensures ExpandIter(pre + rest).Success?
    ensures Iterate(Eval(ExpandIter(pre + rest).value, env)) ==
      CollectAll(Paths(pre, env), ExpandIter(rest).value)
  {
    assert Prefix(IterMacro, pre) by {
      forall k | 0 <= k < |pre| ensures PrefixSentence(IterMacro, pre[k]) {
        assert PrefixSentence(OptionMacro, pre[k]);
      }
    }
    ExpandPrefix(IterMacro, pre, rest);
    LoopPlug(pre, ExpandIter(rest).value, env);
  }

  /** `n` copies of `()`. */
  function Units(n: nat): (r: seq<Value>)
    ensures |r| == n && forall k | 0 <= k < n :: r[k] == Unit
  {
    if n == 0 then [] else [Unit] + Units(n - 1)
  }

  lemma {:induction false} CollectUnit(envs: seq<Env>)
    ensures Collect(envs, SomeE(TupleE([]))) == Done(Units(|envs|))
    decreases |envs|
  {
    if envs != [] {
      var k := SomeE(TupleE([]));
      CollectUnit(envs[1..]);
      assert EvalAll([], envs[0]) == Done(Evaluated([], envs[0]));
      assert Iterate(Eval(k, envs[0])) == Done([Unit]);
    }
  }

  /**
    `iter!` with no trailing expression (the empty invocation included)
    yields one `()` per iteration of its loops.
  */
  lemma IterUnit(pre: seq<Sentence>, env: Env, envs: seq<Env>)
    requires Linear(pre) && Paths(pre, env) == Done(envs)
    ensures ExpandIter(pre).Success?
    ensures Iterate(Eval(ExpandIter(pre).value, env)) == Done(Units(|envs|))
  {
    assert pre + [] == pre;
    IterCompose(pre, [], env);
    CollectUnit(envs);
  }

  lemma {:induction false} FilterOverConst(xs: seq<Value>, c: Expr, env: Env)
    ensures FilterOver(xs, c, env) ==
      if xs == [] then Done([])
      else match ValueOf(c, env)
        case Done(VBool(b)) => Done(if b then xs else [])
        case _ => Stuck
    decreases |xs|
  {
    if xs != [] {
      FilterOverConst(xs[1..], c, env);
      var cv := ValueOf(c, env);
      if cv.Done? && cv.value.VBool? {
        var b := cv.value.b;
        var here: seq<Value> := if b then [xs[0]] else [];
        var tail: seq<Value> := if b then xs[1..] else [];
        assert FilterOver(xs[1..], c, env) == Done(tail);
        assert FilterOver(xs, c, env) == Done(here + tail);
        assert here + tail == if b then xs else [] by {
          if b { assert [xs[0]] + xs[1..] == xs; }
        }
      } else {
        assert FilterOver(xs, c, env) == Stuck;
      }
    }
  }

  /**
    `iter!`: `if c; rest` keeps all the elements of `rest` when `c` holds and
    none when it does not. `c` is evaluated after the expansion of `rest`
    (its receiver) and in the bindings that evaluation leaves, so an
    assignment among `rest`'s leading statements is visible to it; `c`
    ignores the element it filters, and is not evaluated at all when `rest`
    yields nothing.
  */
  lemma GuardFilters(c: Expr, rest: seq<Sentence>, env: Env)
    requires PlainExpr(c) && ExpandIter(rest).Success?
    ensures ExpandIter([Guard(c)] + rest).Success?
    ensures Iterate(Eval(ExpandIter([Guard(c)] + rest).value, env)) ==
      match Eval(ExpandIter(rest).value, env)
      case Stuck => Stuck
      case Done(r) =>
        match IntoIter(r.val)
        case Stuck => Stuck
        case Done(xs) =>
          if xs == [] then Done([])
          else match ValueOf(c, r.env)
            case Done(VBool(b)) => Done(if b then xs else [])
            case _ => Stuck
  {
    var ss := [Guard(c)] + rest;
    assert ss[0] == Guard(c) && ss[1..] == rest;
    var o := Eval(ExpandIter(rest).value, env);
    if o.Done? && IntoIter(o.value.val).Done? {
      FilterOverConst(IntoIter(o.value.val).value, c, o.value.env);
    }
  }

  /**
    When the sentences after a guard begin with a bind, evaluating their
    expansion leaves the environment as the bind's source left it: the guard
    sees the bindings made before it and not the ones the loop makes.
  */
  lemma GuardBeforeBind(c: Expr, p: Pat, isMut: bool, src: Expr, rest: seq<Sentence>, env: Env)
    requires PlainExpr(c) && PlainExpr(src) && LowerParam(p, isMut).Success?
    requires ExpandIter(rest).Success?
    requires Eval(src, env).Done? && Eval(src, env).value.env == env
    ensures ExpandIter([Guard(c), Bind(p, isMut, src)] + rest).Success?
    ensures Iterate(Eval(ExpandIter([Guard(c), Bind(p, isMut, src)] + rest).value, env)) ==
      match Iterate(Eval(ExpandIter([Bind(p, isMut, src)] + rest).value, env))
      case Stuck => Stuck
      case Done(xs) =>
        if xs == [] then Done([])
        else match ValueOf(c, env)
          case Done(VBool(b)) => Done(if b then xs else [])
          case _ => Stuck
  {
    var bs := [Bind(p, isMut, src)] + rest;
    assert [Guard(c), Bind(p, isMut, src)] + rest == [Guard(c)] + bs;
    assert bs[0] == Bind(p, isMut, src) && bs[1..] == rest;
    var loop := FlatMap(src, BoundPat(p, isMut), ExpandIter(rest).value);
    assert ExpandIter(bs) == Success(loop);
    assert Eval(loop, env).Done? ==> Eval(loop, env).value.env == env;
    GuardFilters(c, bs, env);
  }

  // ---------------------------------------------------------------------
  // Statements, trailing expressions and what the tables reject.
  // ---------------------------------------------------------------------

  /**
    `s; rest` runs `s` in a new scope for its effect on the environment (its
    value, if it is an expression, is dropped, its effects kept) and then the
    expansion of `rest` in that scope.
  */
  lemma StatementThenRest(m: Macro, s: Statement, rest: seq<Sentence>, env: Env)
    requires PlainStatement(s) && Expand(m, rest).Success?
    ensures Expand(m, [Stmt(s)] + rest).Success?
    ensures ValueOf(Expand(m, [Stmt(s)] + rest).value, env) ==
      (var env' :- Exec(s, env + [map[]]); ValueOf(Expand(m, rest).value, env'))
    ensures s.ExprStmt? ==>
      ValueOf(Expand(m, [Stmt(s)] + rest).value, env) ==
        (var r :- Eval(s.e, env + [map[]]); ValueOf(Expand(m, rest).value, r.env))
  {
    var ss := [Stmt(s)] + rest;
    var k := Expand(m, rest).value;
    assert Expand(m, ss) == Success(Block(s, k)) by {
      assert ss[0] == Stmt(s) && ss[1..] == rest;
      assert ExpandSentence(Stmt(s)) == Success(Stmt(s));
    }
    EvalBlock(s, k, env);
  }

  /**
    A trailing expression is wrapped exactly once: `option!` and `iter!` give
    `Some(v)`, `result!` gives `Ok(v)`, and in `iter!` that is the single
    element `v`, even when `v` is itself an `Option` from a nested `option!`.
  */
  lemma TailWrappedOnce(m: Macro, t: Expr, env: Env)
    requires ExpandExpr(t).Success?
    ensures Expand(m, [Tail(t)]) == Success(if m == ResultMacro then OkE(ExpandExpr(t).value) else SomeE(ExpandExpr(t).value))
    ensures ValueOf(Expand(m, [Tail(t)]).value, env) ==
      (var v :- ValueOf(ExpandExpr(t).value, env); Done(Wrapped(m, v)))
    ensures m == IterMacro ==>
      (Iterate(Eval(Expand(m, [Tail(t)]).value, env)) ==
       (var v :- ValueOf(ExpandExpr(t).value, env); Done([v])))
  {
    assert ExpandSentence(Tail(t)) == Success(Tail(ExpandExpr(t).value));
  }

  /** An `option!` nested as the trailing expression of `iter!` yields its own value as one element. */
  lemma NestedOptionTail(ss: seq<Sentence>, env: Env)
    requires ExpandOption(ss).Success?
    ensures ExpandIter([Tail(Invoke(OptionMacro, ss))]).Success?
    ensures Iterate(Eval(ExpandIter([Tail(Invoke(OptionMacro, ss))]).value, env)) ==
      (var v :- ValueOf(ExpandOption(ss).value, env); Done([v]))
  {
    TailWrappedOnce(IterMacro, Invoke(OptionMacro, ss), env);
  }

  /** Whether the table of `m` has a rule for sentence `s` at this position. */
  predicate SentenceAccepted(m: Macro, s: Sentence, last: bool) {
    match s
    case Bind(p, isMut, _) => !isMut || (p.PIdent? && !p.mutable)
    case Guard(_) => m == IterMacro
    case Stmt(_) => true
    case Tail(_) => last
  }

  predicate Accepted(m: Macro, ss: seq<Sentence>) {
    forall k | 0 <= k < |ss| :: SentenceAccepted(m, ss[k], k == |ss| - 1)
  }

  /**
    With every nested invocation expandable, an invocation expands exactly
    when each sentence has a rule: `mut` only on a plain identifier, a guard
    only in `iter!`, a trailing expression only last.
  */
  lemma {:induction false} AcceptedIff(m: Macro, ss: seq<Sentence>)
    requires forall k | 0 <= k < |ss| :: ExpandSentence(ss[k]).Success?
    ensures Expand(m, ss).Success? <==> Accepted(m, ss)
    decreases |ss|
  {
    if ss != [] {
      AcceptedIff(m, ss[1..]);
      assert forall k | 0 <= k < |ss[1..]| :: ss[1..][k] == ss[k + 1];
      if !SentenceAccepted(m, ss[0], 0 == |ss| - 1) {
        assert !Accepted(m, ss);
      } else if Accepted(m, ss[1..]) || |ss| == 1 {
        assert Accepted(m, ss) by {
          forall k | 0 <= k < |ss| ensures SentenceAccepted(m, ss[k], k == |ss| - 1) {
            if k > 0 { assert SentenceAccepted(m, ss[1..][k - 1], k - 1 == |ss[1..]| - 1); }
          }
        }
      } else {
        var j :| 0 <= j < |ss[1..]| && !SentenceAccepted(m, ss[1..][j], j == |ss[1..]| - 1);
        assert !SentenceAccepted(m, ss[j + 1], j + 1 == |ss| - 1);
      }
    }
  }

  /** `option!` and `result!` have no guard rule: an invocation with `if c;` is rejected. */
  lemma {:induction false} GuardRejected(m: Macro, ss: seq<Sentence>, c: Expr)
    requires m != IterMacro && Guard(c) in ss
    ensures Expand(m, ss).Failure?
    decreases |ss|
  {
    if ss[0] != Guard(c) {
      assert Guard(c) in ss[1..];
      GuardRejected(m, ss[1..], c);
    }
  }
}
