/**
  A denotation for the host expressions that the macros produce. It gives
  `and_then`, `into_iter`, `flat_map` and `filter` the meaning they have on
  `Option`, `Result`, vectors and ranges, over finite sequences.

  `Stuck` stands for a program the host compiler would refuse (an unbound or
  uninitialised variable, an assignment to an immutable binding, a value whose
  shape does not fit a pattern, a type mismatch) and for a panic.
*/
module Semantics {
  import opened Syntax

  datatype Outcome<+T> = Done(value: T) | Stuck {
    predicate IsFailure() { Stuck? }
    function PropagateFailure<U>(): Outcome<U> requires Stuck? { Stuck }
    function Extract(): T requires Done? { value }
  }

  /** A variable: declared with or without a value, mutable or not. */
  datatype Slot = Uninit(mutable: bool) | Init(val: Value, mutable: bool)

  /** One scope. */
  type Frame = map<string, Slot>

  /** Nested scopes, the innermost last. */
  type Env = seq<Frame>

  /** The integers `lo, lo + 1, ..., hi - 1` (the range `lo..hi`). */
  function Range(lo: int, hi: int): (r: seq<Value>)
    ensures |r| == if lo < hi then hi - lo else 0
    ensures forall k | 0 <= k < |r| :: r[k] == VInt(lo + k)
    decreases hi - lo
  {
    if lo >= hi then [] else [VInt(lo)] + Range(lo + 1, hi)
  }

  /** Rust's `/` on integers: the quotient truncated toward zero. */
  function RustDiv(a: int, b: int): int
    requires b != 0
  {
    var m := if b < 0 then -b else b;
    var q := if a >= 0 then a / m else -((-a) / m);
    if b < 0 then -q else q
  }

  /**
    Rust's `%` on integers: the remainder of the division that truncates
    toward zero, so it takes the sign of the dividend. Nothing else meets
    this contract (`RustRemUnique`).
  */
  function RustRem(a: int, b: int): (r: int)
    requires b != 0
    ensures a == b * RustDiv(a, b) + r
    ensures a >= 0 ==> 0 <= r < (if b < 0 then -b else b)
    ensures a < 0 ==> -(if b < 0 then -b else b) < r <= 0
  {
    var m := if b < 0 then -b else b;
    if a >= 0 then a % m else -((-a) % m)
  }

  /** `m * t` is at least `m` for a positive `t`. */
  lemma {:induction false} MulAtLeast(m: nat, t: nat)
    requires t > 0
    ensures m * t >= m
    decreases t
  {
    if t > 1 {
      MulAtLeast(m, t - 1);
      assert m * t == m * (t - 1) + m;
    }
  }

  /** Multiplying out a difference, with the sign of `b` moved onto the factor. */
  lemma MulDiff(b: int, x: int, y: int)
    ensures b * x - b * y == b * (x - y)
    ensures b * (x - y) == (if b < 0 then -b else b) * (if b < 0 then y - x else x - y)
  {
  }

  /**
    The remainder with the dividend's sign and a magnitude below the
    divisor's is unique: any `r` meeting `RustRem`'s contract, for any
    quotient, is `RustRem(a, b)`.
  */
  lemma RustRemUnique(a: int, b: int, q: int, r: int)
    requires b != 0 && a == b * q + r
    requires a >= 0 ==> 0 <= r < (if b < 0 then -b else b)
    requires a < 0 ==> -(if b < 0 then -b else b) < r <= 0
    ensures r == RustRem(a, b) && q == RustDiv(a, b)
  {
    var m := if b < 0 then -b else b;
    var s := RustRem(a, b);
    var q0 := RustDiv(a, b);
    MulDiff(b, q0, q);
    var u := if b < 0 then q - q0 else q0 - q;
    assert m * u == r - s;
    if u > 0 {
      MulAtLeast(m, u);
    } else if u < 0 {
      MulAtLeast(m, -u);
    }
  }

  /**
    Whether `==` may compare `x` and `y`: values of one type as far as their
    shapes show. Comparing an integer with a character, say, is a type error.
  */
  predicate Comparable(x: Value, y: Value)
    decreases x
  {
    match x
    case VInt(_) => y.VInt?
    case VBool(_) => y.VBool?
    case VChar(_) => y.VChar?
    case VTuple(xs) =>
      y.VTuple? && |xs| == |y.elems| && forall k | 0 <= k < |xs| :: Comparable(xs[k], y.elems[k])
    case VTupleStruct(c, xs) =>
      y.VTupleStruct? && y.ctor == c && |xs| == |y.elems| && forall k | 0 <= k < |xs| :: Comparable(xs[k], y.elems[k])
    case VStruct(c, ns, xs) =>
      y.VStruct? && y.ctor == c && y.names == ns && |xs| == |y.elems|
      && forall k | 0 <= k < |xs| :: Comparable(xs[k], y.elems[k])
    case VNone => y.VNone? || y.VSome?
    case VSome(a) => y.VNone? || (y.VSome? && Comparable(a, y.inner))
    case VOk(a) => y.VErr? || (y.VOk? && Comparable(a, y.inner))
    case VErr(a) => y.VOk? || (y.VErr? && Comparable(a, y.inner))
    case VSeq(xs) =>
      y.VSeq? && forall j, k | 0 <= j < |xs| && 0 <= k < |y.elems| :: Comparable(xs[j], y.elems[k])
  }

  /** The binary operators on values; arithmetic and `<` need integers. */
  function Apply(op: BinOp, x: Value, y: Value): (r: Outcome<Value>)
    ensures op == Eq ==> (r.Done? <==> Comparable(x, y))
    ensures op == Eq && r.Done? ==> r.value == VBool(x == y)
    ensures op != Eq ==> (r.Done? <==> x.VInt? && y.VInt? && (op == Rem ==> y.i != 0))
    ensures r.Done? && x.VInt? && y.VInt? ==> r.value == match op
      case Add => VInt(x.i + y.i)
      case Sub => VInt(x.i - y.i)
      case Mul => VInt(x.i * y.i)
      case Lt => VBool(x.i < y.i)
      case Rem => VInt(RustRem(x.i, y.i))
      case Eq => VBool(x.i == y.i)
  {
    var ints := x.VInt? && y.VInt?;
    match op
    case Eq => if Comparable(x, y) then Done(VBool(x == y)) else Stuck
    case Add => if ints then Done(VInt(x.i + y.i)) else Stuck
    case Sub => if ints then Done(VInt(x.i - y.i)) else Stuck
    case Mul => if ints then Done(VInt(x.i * y.i)) else Stuck
    case Lt => if ints then Done(VBool(x.i < y.i)) else Stuck
    case Rem => if ints && y.i != 0 then Done(VInt(RustRem(x.i, y.i))) else Stuck
  }

  /** The innermost variable called `x`. */
  function Lookup(env: Env, x: string): (r: Outcome<Slot>)
    ensures r.Done? <==> exists k :: 0 <= k < |env| && x in env[k]
    ensures |env| > 0 && x in env[|env| - 1] ==> r == Done(env[|env| - 1][x])
    decreases |env|
  {
    if env == [] then Stuck
    else if x in env[|env| - 1] then Done(env[|env| - 1][x])
    else
      var r := Lookup(env[..|env| - 1], x);
      assert forall k | 0 <= k < |env| - 1 :: env[..|env| - 1][k] == env[k];
      r
  }

  /** Reading a variable: it must be bound and initialised. */
  function Read(env: Env, x: string): (r: Outcome<Value>)
    ensures r.Done? <==> Lookup(env, x).Done? && Lookup(env, x).value.Init?
  {
    var slot :- Lookup(env, x);
    if slot.Init? then Done(slot.val) else Stuck
  }

  /**
    `x = v`: updates the innermost `x`, which must be mutable or not yet
    initialised; an immutable binding is assigned at most once. Every other
    variable, and the mutability of `x`, are left as they were.
  */
  function Update(env: Env, x: string, v: Value): (r: Outcome<Env>)
    ensures r.Done? <==> Lookup(env, x).Done? && (Lookup(env, x).value.mutable || Lookup(env, x).value.Uninit?)
    ensures r.Done? ==> |r.value| == |env| && Lookup(r.value, x) == Done(Init(v, Lookup(env, x).value.mutable))
    ensures r.Done? ==> forall y | y != x :: Lookup(r.value, y) == Lookup(env, y)
    decreases |env|
  {
    if env == [] then Stuck
    else
      var below := env[..|env| - 1];
      var top := env[|env| - 1];
      assert forall k | 0 <= k < |env| - 1 :: below[k] == env[k];
      if x in top then
        match top[x]
        case Init(_, false) => Stuck
        case Init(_, true) => Replace(below, top, x, Init(v, true))
        case Uninit(m) => Replace(below, top, x, Init(v, m))
      else
        var b := Update(below, x, v);
        if b.Stuck? then Stuck else
          var r := b.value + [top];
          assert r[..|r| - 1] == b.value;
          Done(r)
  }

  /** `below + [top]` with `x`, bound in `top`, now holding `s`. */
  function Replace(below: Env, top: Frame, x: string, s: Slot): (r: Outcome<Env>)
    requires x in top
    ensures r == Done(below + [top[x := s]])
    ensures Lookup(r.value, x) == Done(s)
    ensures forall y | y != x :: Lookup(r.value, y) == Lookup(below + [top], y)
  {
    var e := below + [top[x := s]];
    var e0 := below + [top];
    assert e[..|e| - 1] == below == e0[..|e0| - 1];
    Done(e)
  }

  /** Adds the bindings of `frame` to the innermost scope (a `let`). */
  function Extend(env: Env, frame: Frame): (r: Env)
    ensures |r| == if env == [] then 1 else |env|
    ensures forall x | x in frame :: Lookup(r, x) == Done(frame[x])
  {
    if env == [] then [frame] else env[..|env| - 1] + [env[|env| - 1] + frame]
  }

  /** The elements `into_iter()` yields: an `Option` or a `Result` yields 0 or 1. */
  function IntoIter(v: Value): (r: Outcome<seq<Value>>)
    ensures v.VSeq? ==> r == Done(v.elems)
    ensures v.VSome? || v.VOk? ==> r == Done([v.inner])
    ensures v.VNone? || v.VErr? ==> r == Done([])
    ensures r.Done? <==> v.VSeq? || v.VSome? || v.VOk? || v.VNone? || v.VErr?
  {
    match v
    case VSeq(xs) => Done(xs)
    case VSome(x) => Done([x])
    case VOk(x) => Done([x])
    case VNone => Done([])
    case VErr(_) => Done([])
    case _ => Stuck
  }

  predicate Distinct(ns: seq<string>) {
    forall j, k | 0 <= j < k < |ns| :: ns[j] != ns[k]
  }

  /** The position of `n` in `ns`. */
  function IndexOf(ns: seq<string>, n: string): (k: nat)
    requires n in ns
    ensures k < |ns| && ns[k] == n
    ensures forall j | 0 <= j < k :: ns[j] != n
  {
    if ns[0] == n then 0 else 1 + IndexOf(ns[1..], n)
  }

  /** The names a pattern binds. */
  function BoundNames(p: Pat): set<string>
    decreases p
  {
    match p
    case PIdent(x, _) => {x}
    case PWild => {}
    case PTuple(ps) => BoundNamesAll(ps)
    case PTupleStruct(_, ps) => BoundNamesAll(ps)
    case PStruct(_, _, ps) => BoundNamesAll(ps)
  }

  function BoundNamesAll(ps: seq<Pat>): (r: set<string>)
    ensures forall k | 0 <= k < |ps| :: BoundNames(ps[k]) <= r
    ensures forall x | x in r :: exists k | 0 <= k < |ps| :: x in BoundNames(ps[k])
    decreases ps
  {
    if ps == [] then {}
    else
      var r := BoundNames(ps[0]) + BoundNamesAll(ps[1..]);
      assert forall k | 1 <= k < |ps| :: ps[1..][k - 1] == ps[k];
      r
  }

  /** No two of the patterns bind the same name. */
  predicate DisjointNames(ps: seq<Pat>) {
    forall j, k | 0 <= j < k < |ps| :: BoundNames(ps[j]) !! BoundNames(ps[k])
  }

  /** The fields of the struct value `v` named `ns`, in the order of `ns`. */
  function Fields(v: Value, ns: seq<string>): (r: seq<Value>)
    requires v.VStruct? && |v.names| == |v.elems| && forall n | n in ns :: n in v.names
    ensures |r| == |ns|
    ensures forall k | 0 <= k < |ns| :: r[k] == v.elems[IndexOf(v.names, ns[k])]
  {
    seq(|ns|, k requires 0 <= k < |ns| => v.elems[IndexOf(v.names, ns[k])])
  }

  /** Every component value fits its pattern, and no name is bound by two of them. */
  predicate ComponentsMatch(ps: seq<Pat>, vs: seq<Value>)
    requires |ps| == |vs|
    decreases ps, 1
  {
    (forall k | 0 <= k < |ps| :: Match(ps[k], vs[k]).Done?) && DisjointNames(ps)
  }

  /** `f` holds what each component pattern binds when matched against its own component. */
  predicate Componentwise(f: Frame, ps: seq<Pat>, vs: seq<Value>)
    requires |ps| == |vs|
    decreases ps, 1
  {
    forall k, x | 0 <= k < |ps| && Match(ps[k], vs[k]).Done? && x in Match(ps[k], vs[k]).value ::
      x in f && f[x] == Match(ps[k], vs[k]).value[x]
  }

  /**
    Destructures `v` by `p`. A closure parameter is irrefutable, so a value
    whose shape does not fit is a type error; so is a name bound twice. A
    tuple or tuple-struct pattern matches component by component, position by
    position; a struct pattern names every field once and matches each field
    by its name; `_` binds nothing.
  */
  function Match(p: Pat, v: Value): (r: Outcome<Frame>)
    ensures r.Done? ==> r.value.Keys == BoundNames(p)
    ensures p.PIdent? ==> r == Done(map[p.name := Init(v, p.mutable)])
    ensures p.PWild? ==> r == Done(map[])
    ensures p.PTuple? ==>
      (r.Done? <==> v.VTuple? && |v.elems| == |p.elems| && ComponentsMatch(p.elems, v.elems))
    ensures p.PTupleStruct? ==>
      (r.Done? <==> v.VTupleStruct? && v.ctor == p.ctor && |v.elems| == |p.elems| && ComponentsMatch(p.elems, v.elems))
    ensures (p.PTuple? || p.PTupleStruct?) && r.Done? ==> Componentwise(r.value, p.elems, v.elems)
    ensures p.PStruct? ==>
      (r.Done? <==> FieldsNamed(p, v) && ComponentsMatch(p.elems, Fields(v, p.names)))
    ensures p.PStruct? && r.Done? ==> FieldsNamed(p, v) && Componentwise(r.value, p.elems, Fields(v, p.names))
    decreases p, 1
  {
    match p
    case PIdent(x, m) => Done(map[x := Init(v, m)])
    case PWild => Done(map[])
    case PTuple(ps) =>
      if v.VTuple? && |ps| == |v.elems| then MatchAll(ps, v.elems) else Stuck
    case PTupleStruct(c, ps) =>
      if v.VTupleStruct? && v.ctor == c && |ps| == |v.elems| then MatchAll(ps, v.elems) else Stuck
    case PStruct(c, ns, ps) =>
      if FieldsNamed(p, v) then MatchAll(ps, Fields(v, ns)) else Stuck
  }

  /**
    The struct pattern `p` names each field of the struct value `v` exactly
    once, under `v`'s constructor.
  */
  predicate FieldsNamed(p: Pat, v: Value)
    requires p.PStruct?
  {
    && v.VStruct? && v.ctor == p.ctor
    && |p.names| == |p.elems| && |p.names| == |v.names| == |v.elems|
    && Distinct(p.names) && (forall n | n in p.names :: n in v.names)
  }

  function MatchAll(ps: seq<Pat>, vs: seq<Value>): (r: Outcome<Frame>)
    requires |ps| == |vs|
    ensures r.Done? ==> r.value.Keys == BoundNamesAll(ps)
    ensures r.Done? <==> ComponentsMatch(ps, vs)
    ensures r.Done? ==> Componentwise(r.value, ps, vs)
    decreases ps, 3
  {
    if ps == [] then Done(map[])
    else
      var f := Match(ps[0], vs[0]);
      var g := MatchAll(ps[1..], vs[1..]);
      ComponentsCons(ps, vs);
      if f.Stuck? || g.Stuck? then Stuck
      else if f.value.Keys !! g.value.Keys then
        var r := f.value + g.value;
        ComponentwiseCons(r, ps, vs);
        Done(r)
      else Stuck
  }

  /** `ComponentsMatch` of a non-empty list: the first pattern, then the rest. */
  lemma ComponentsCons(ps: seq<Pat>, vs: seq<Value>)
    requires |ps| == |vs| > 0
    ensures ComponentsMatch(ps, vs) <==>
      Match(ps[0], vs[0]).Done? && ComponentsMatch(ps[1..], vs[1..]) && BoundNames(ps[0]) !! BoundNamesAll(ps[1..])
    decreases ps, 2
  {
    assert forall k | 1 <= k < |ps| :: ps[1..][k - 1] == ps[k] && vs[1..][k - 1] == vs[k];
    if ComponentsMatch(ps, vs) {
      assert BoundNames(ps[0]) !! BoundNamesAll(ps[1..]) by {
        forall x | x in BoundNamesAll(ps[1..]) ensures x !in BoundNames(ps[0]) {
          var k :| 0 <= k < |ps[1..]| && x in BoundNames(ps[1..][k]);
          assert BoundNames(ps[0]) !! BoundNames(ps[k + 1]);
        }
      }
    }
    if Match(ps[0], vs[0]).Done? && ComponentsMatch(ps[1..], vs[1..]) && BoundNames(ps[0]) !! BoundNamesAll(ps[1..]) {
      assert DisjointNames(ps) by {
        forall j, k | 0 <= j < k < |ps| ensures BoundNames(ps[j]) !! BoundNames(ps[k]) {
          if j == 0 {
            assert BoundNames(ps[1..][k - 1]) <= BoundNamesAll(ps[1..]);
          } else {
            assert BoundNames(ps[1..][j - 1]) !! BoundNames(ps[1..][k - 1]);
          }
        }
      }
    }
  }

  /** What `f` and the bindings of the rest hold, their union holds. */
  lemma ComponentwiseCons(r: Frame, ps: seq<Pat>, vs: seq<Value>)
    requires |ps| == |vs| > 0 && Match(ps[0], vs[0]).Done? && MatchAll(ps[1..], vs[1..]).Done?
    requires Match(ps[0], vs[0]).value.Keys !! MatchAll(ps[1..], vs[1..]).value.Keys
    requires r == Match(ps[0], vs[0]).value + MatchAll(ps[1..], vs[1..]).value
    ensures Componentwise(r, ps, vs)
    decreases ps, 2
  {
    var g := MatchAll(ps[1..], vs[1..]).value;
    forall k, x | 0 <= k < |ps| && Match(ps[k], vs[k]).Done? && x in Match(ps[k], vs[k]).value
      ensures x in r && r[x] == Match(ps[k], vs[k]).value[x]
    {
      if k > 0 {
        assert ps[1..][k - 1] == ps[k] && vs[1..][k - 1] == vs[k];
        assert x in g && g[x] == Match(ps[k], vs[k]).value[x];
      }
    }
  }

  /** The result of evaluating something, with the environment it leaves behind. */
  datatype Evaluated<+T> = Evaluated(val: T, env: Env)

  /**
    The value of an expression and the environment after it; `Invoke` has no
    value until it is expanded. Operands are evaluated left to right and an
    assignment inside a block expression reaches the variables outside the
    block. A closure made with `move` works on its own copy of what it
    captures, so what its body does to those copies is not seen outside.
  */
  function Eval(e: Expr, env: Env): (r: Outcome<Evaluated<Value>>)
    ensures r.Done? ==> |r.value.env| == |env|
    decreases e, 0, 0
  {
    match e
    case Lit(v) => Done(Evaluated(v, env))
    case Var(x) =>
      var v :- Read(env, x);
      Done(Evaluated(v, env))
    case Bin(op, a, b) =>
      var x :- Eval(a, env);
      var y :- Eval(b, x.env);
      var v :- Apply(op, x.val, y.val);
      Done(Evaluated(v, y.env))
    case TupleE(es) =>
      var vs :- EvalAll(es, env);
      Done(Evaluated(VTuple(vs.val), vs.env))
    case TupleStructE(c, es) =>
      var vs :- EvalAll(es, env);
      Done(Evaluated(VTupleStruct(c, vs.val), vs.env))
    case StructE(c, ns, es) =>
      if |ns| != |es| || !Distinct(ns) then Stuck
      else
        var vs :- EvalAll(es, env);
        Done(Evaluated(VStruct(c, ns, vs.val), vs.env))
    case SomeE(x) =>
      var v :- Eval(x, env);
      Done(Evaluated(VSome(v.val), v.env))
    case NoneE => Done(Evaluated(VNone, env))
    case OkE(x) =>
      var v :- Eval(x, env);
      Done(Evaluated(VOk(v.val), v.env))
    case ErrE(x) =>
      var v :- Eval(x, env);
      Done(Evaluated(VErr(v.val), v.env))
    case VecE(es) =>
      var vs :- EvalAll(es, env);
      Done(Evaluated(VSeq(vs.val), vs.env))
    case RangeE(lo, hi) =>
      var l :- Eval(lo, env);
      var h :- Eval(hi, l.env);
      if l.val.VInt? && h.val.VInt? then Done(Evaluated(VSeq(Range(l.val.i, h.val.i)), h.env)) else Stuck
    case IfE(c, t, f) =>
      var cv :- Eval(c, env);
      if !cv.val.VBool? then Stuck
      else if cv.val.b then Eval(t, cv.env) else Eval(f, cv.env)
    case Invoke(_, _) => Stuck
    case AndThen(m, recv, p, body) =>
      var r :- Eval(recv, env);
      if Fails(m, r.val) then Done(r)
      else if Succeeds(m, r.val) then
        var f :- Match(p, r.val.inner);
        var b :- Eval(body, r.env + [f]);
        Done(Evaluated(b.val, r.env))
      else Stuck
    case FlatMap(recv, p, body) =>
      var r :- Eval(recv, env);
      var xs :- IntoIter(r.val);
      var ys :- FlatMapOver(xs, p, body, r.env);
      Done(Evaluated(VSeq(ys), r.env))
    case Filter(recv, c) =>
      var r :- Eval(recv, env);
      var xs :- IntoIter(r.val);
      var ys :- FilterOver(xs, c, r.env);
      Done(Evaluated(VSeq(ys), r.env))
    case Block(s, rest) =>
      var inner :- Exec(s, env + [map[]]);
      var b :- Eval(rest, inner);
      Done(Evaluated(b.val, b.env[..|b.env| - 1]))
  }

  /**
    `Some(_)` for the chains of `option!`, `Ok(_)` for those of `result!`:
    the values `and_then` passes on to its closure.
  */
  predicate Succeeds(m: Macro, v: Value) {
    if m == ResultMacro then v.VOk? else v.VSome?
  }

  /** `None`, or `Err(_)` for `result!`: the values `and_then` returns unchanged. */
  predicate Fails(m: Macro, v: Value) {
    if m == ResultMacro then v.VErr? else v.VNone?
  }

  function EvalAll(es: seq<Expr>, env: Env): (r: Outcome<Evaluated<seq<Value>>>)
    ensures r.Done? ==> |r.value.val| == |es| && |r.value.env| == |env|
    decreases es
  {
    if es == [] then Done(Evaluated([], env))
    else
      var v :- Eval(es[0], env);
      var vs :- EvalAll(es[1..], v.env);
      Done(Evaluated([v.val] + vs.val, vs.env))
  }

  /**
    What `flat_map(move |p| body)` yields over the elements `xs`; each call
    starts from the environment the closure captured.
  */
  function FlatMapOver(xs: seq<Value>, p: Pat, body: Expr, env: Env): Outcome<seq<Value>>
    decreases body, 1, |xs|
  {
    if xs == [] then Done([])
    else
      var f :- Match(p, xs[0]);
      var r :- Eval(body, env + [f]);
      var ys :- IntoIter(r.val);
      var zs :- FlatMapOver(xs[1..], p, body, env);
      Done(ys + zs)
  }

  /**
    What `filter(move |_| c)` yields over the elements `xs`: the closure ignores
    its argument, so `c` is evaluated in the environment the closure captured.
  */
  function FilterOver(xs: seq<Value>, c: Expr, env: Env): Outcome<seq<Value>>
    decreases c, 1, |xs|
  {
    if xs == [] then Done([])
    else
      var cv :- Eval(c, env);
      if !cv.val.VBool? then Stuck
      else
        var ys :- FilterOver(xs[1..], c, env);
        Done((if cv.val.b then [xs[0]] else []) + ys)
  }

  /** The environment after a statement. */
  function Exec(s: Statement, env: Env): (r: Outcome<Env>)
    ensures r.Done? && |env| > 0 ==> |r.value| == |env|
    decreases s
  {
    match s
    case Let(p, init) =>
      var v :- Eval(init, env);
      var f :- Match(p, v.val);
      Done(Extend(v.env, f))
    case LetUninit(x, m) => Done(Extend(env, map[x := Uninit(m)]))
    case Assign(x, rhs) =>
      var v :- Eval(rhs, env);
      Update(v.env, x, v.val)
    case ExprStmt(e) =>
      var v :- Eval(e, env);
      Done(v.env)
    case BlockStmt(ss) =>
      var inner :- ExecAll(ss, env + [map[]]);
      Done(inner[..|inner| - 1])
  }

  function ExecAll(ss: seq<Statement>, env: Env): (r: Outcome<Env>)
    ensures r.Done? && |env| > 0 ==> |r.value| == |env|
    decreases ss
  {
    if ss == [] then Done(env)
    else
      var env' :- Exec(ss[0], env);
      ExecAll(ss[1..], env')
  }

  /** The value of `e` in `env`, what it does to the environment set aside. */
  function ValueOf(e: Expr, env: Env): Outcome<Value> {
    var r :- Eval(e, env);
    Done(r.val)
  }

  /** The elements the value of an evaluation yields when iterated, or `Stuck`. */
  function Iterate(o: Outcome<Evaluated<Value>>): Outcome<seq<Value>> {
    var r :- o;
    IntoIter(r.val)
  }
}
