/**
  The three rule tables of src/lib.rs, as functions from a classified
  sentence list to the expression the macro expands to.

  Each table is tried top to bottom; a classified sentence picks its rule:
  the `let ... <-` rules (with or without `mut`, with a plain, tuple,
  tuple-struct or struct pattern, with or without a type annotation), then
  the guard (only in `iter!`), then `stmt ;` / `expr ;`, then the trailing
  expression, and the empty invocation. A nested invocation anywhere in an
  expression is expanded too, so the result holds no `Invoke`.
*/
module Expansion {
  import opened Syntax

  /** Why an invocation matches no rule. */
  datatype ExpandError =
    /** `if c;` in `option!` or `result!`, whose tables have no guard rule */
    | GuardOutsideIter
    /** `let mut p <- e;` where `p` is not a plain identifier: `mut (a, b)` is not a pattern */
    | MutOnPattern
    /** an expression without `;` that is not the last sentence */
    | TailNotLast

  datatype Result<+T> = Success(value: T) | Failure(error: ExpandError) {
    predicate IsFailure() { Failure? }
    function PropagateFailure<U>(): Result<U> requires Failure? { Failure(error) }
    function Extract(): T requires Success? { value }
  }

  /**
    The closure parameter for `let p <- e;` (`move | p |`) and for
    `let mut p <- e;` (`move | mut p |`).
  */
  function LowerParam(p: Pat, isMut: bool): (r: Result<Pat>)
    ensures !isMut ==> r == Success(p)
    ensures isMut ==> (r.Success? <==> p.PIdent? && !p.mutable)
    ensures r.Success? ==> r.value.PIdent? == p.PIdent?
    ensures r.Success? && isMut ==> r.value == PIdent(p.name, true)
  {
    if !isMut then Success(p)
    else match p
      case PIdent(x, false) => Success(PIdent(x, true))
      case _ => Failure(MutOnPattern)
  }

  /** `option! { ss }` */
  function ExpandOption(ss: seq<Sentence>): (r: Result<Expr>)
    ensures r.Success? ==> PlainExpr(r.value)
    decreases ss, 0
  {
    if ss == [] then Success(SomeE(TupleE([])))
    else
      var s :- ExpandSentence(ss[0]);
      match s
      case Bind(p, isMut, src) =>
        var param :- LowerParam(p, isMut);
        var body :- ExpandOption(ss[1..]);
        Success(AndThen(OptionMacro, src, param, body))
      case Guard(_) => Failure(GuardOutsideIter)
      case Stmt(st) =>
        var rest :- ExpandOption(ss[1..]);
        Success(Block(st, rest))
      case Tail(e) => if |ss| == 1 then Success(SomeE(e)) else Failure(TailNotLast)
  }

  /** `result! { ss }` */
  function ExpandResult(ss: seq<Sentence>): (r: Result<Expr>)
    ensures r.Success? ==> PlainExpr(r.value)
    decreases ss, 0
  {
    if ss == [] then Success(OkE(TupleE([])))
    else
      var s :- ExpandSentence(ss[0]);
      match s
      case Bind(p, isMut, src) =>
        var param :- LowerParam(p, isMut);
        var body :- ExpandResult(ss[1..]);
        Success(AndThen(ResultMacro, src, param, body))
      case Guard(_) => Failure(GuardOutsideIter)
      case Stmt(st) =>
        var rest :- ExpandResult(ss[1..]);
        Success(Block(st, rest))
      case Tail(e) => if |ss| == 1 then Success(OkE(e)) else Failure(TailNotLast)
  }

  /** `iter! { ss }` */
  function ExpandIter(ss: seq<Sentence>): (r: Result<Expr>)
    ensures r.Success? ==> PlainExpr(r.value)
    decreases ss, 0
  {
    if ss == [] then Success(SomeE(TupleE([])))
    else
      var s :- ExpandSentence(ss[0]);
      match s
      case Bind(p, isMut, src) =>
        var param :- LowerParam(p, isMut);
        var body :- ExpandIter(ss[1..]);
        Success(FlatMap(src, param, body))
      case Guard(c) =>
        var rest :- ExpandIter(ss[1..]);
        Success(Filter(rest, c))
      case Stmt(st) =>
        var rest :- ExpandIter(ss[1..]);
        Success(Block(st, rest))
      case Tail(e) => if |ss| == 1 then Success(SomeE(e)) else Failure(TailNotLast)
  }

  /** The invocation `m! { ss }`. */
  function Expand(m: Macro, ss: seq<Sentence>): (r: Result<Expr>)
    ensures r.Success? ==> PlainExpr(r.value)
    decreases ss, 1
  {
    match m
    case OptionMacro => ExpandOption(ss)
    case ResultMacro => ExpandResult(ss)
    case IterMacro => ExpandIter(ss)
  }

  /** Expands the nested invocations inside one sentence. */
  function ExpandSentence(s: Sentence): (r: Result<Sentence>)
    ensures r.Success? ==> PlainSentence(r.value)
    ensures PlainSentence(s) ==> r == Success(s)
    ensures r.Success? ==> match s
      case Bind(p, m, _) => r.value.Bind? && r.value.pat == p && r.value.isMut == m
      case Guard(_) => r.value.Guard?
      case Stmt(_) => r.value.Stmt?
      case Tail(_) => r.value.Tail?
    decreases s
  {
    match s
    case Bind(p, isMut, src) =>
      var src' :- ExpandExpr(src);
      Success(Bind(p, isMut, src'))
    case Guard(c) =>
      var c' :- ExpandExpr(c);
      Success(Guard(c'))
    case Stmt(st) =>
      var st' :- ExpandStatement(st);
      Success(Stmt(st'))
    case Tail(e) =>
      var e' :- ExpandExpr(e);
      Success(Tail(e'))
  }

  /** Expands every nested invocation in an expression. */
  function ExpandExpr(e: Expr): (r: Result<Expr>)
    ensures r.Success? ==> PlainExpr(r.value)
    ensures PlainExpr(e) ==> r == Success(e)
    decreases e
  {
    match e
    case Lit(_) => Success(e)
    case Var(_) => Success(e)
    case Bin(op, a, b) =>
      var a' :- ExpandExpr(a);
      var b' :- ExpandExpr(b);
      Success(Bin(op, a', b'))
    case TupleE(es) =>
      var es' :- ExpandExprs(es);
      Success(TupleE(es'))
    case TupleStructE(c, es) =>
      var es' :- ExpandExprs(es);
      Success(TupleStructE(c, es'))
    case StructE(c, ns, es) =>
      var es' :- ExpandExprs(es);
      Success(StructE(c, ns, es'))
    case SomeE(x) =>
      var x' :- ExpandExpr(x);
      Success(SomeE(x'))
    case NoneE => Success(e)
    case OkE(x) =>
      var x' :- ExpandExpr(x);
      Success(OkE(x'))
    case ErrE(x) =>
      var x' :- ExpandExpr(x);
      Success(ErrE(x'))
    case VecE(es) =>
      var es' :- ExpandExprs(es);
      Success(VecE(es'))
    case RangeE(lo, hi) =>
      var lo' :- ExpandExpr(lo);
      var hi' :- ExpandExpr(hi);
      Success(RangeE(lo', hi'))
    case IfE(c, t, f) =>
      var c' :- ExpandExpr(c);
      var t' :- ExpandExpr(t);
      var f' :- ExpandExpr(f);
      Success(IfE(c', t', f'))
    case Invoke(m, ss) => Expand(m, ss)
    case AndThen(m, recv, p, body) =>
      var recv' :- ExpandExpr(recv);
      var body' :- ExpandExpr(body);
      Success(AndThen(m, recv', p, body'))
    case FlatMap(recv, p, body) =>
      var recv' :- ExpandExpr(recv);
      var body' :- ExpandExpr(body);
      Success(FlatMap(recv', p, body'))
    case Filter(recv, c) =>
      var recv' :- ExpandExpr(recv);
      var c' :- ExpandExpr(c);
      Success(Filter(recv', c'))
    case Block(st, rest) =>
      var st' :- ExpandStatement(st);
      var rest' :- ExpandExpr(rest);
      Success(Block(st', rest'))
  }

  function ExpandExprs(es: seq<Expr>): (r: Result<seq<Expr>>)
    ensures r.Success? ==> |r.value| == |es| && PlainExprs(r.value)
    ensures PlainExprs(es) ==> r == Success(es)
    decreases es
  {
    if es == [] then Success([])
    else
      var x :- ExpandExpr(es[0]);
      var xs :- ExpandExprs(es[1..]);
      assert ([x] + xs)[1..] == xs;
      assert es == [es[0]] + es[1..];
      Success([x] + xs)
  }

  /**
    `e'` is `e` with its subexpressions replaced: the same form, with the same
    operator, constructor, field names, closure parameter, emitting macro and
    statement form, and as many elements in each list.
  */
  predicate SameForm(e: Expr, e': Expr) {
    match e
    case Lit(v) => e' == Lit(v)
    case Var(x) => e' == Var(x)
    case Bin(op, _, _) => e'.Bin? && e'.op == op
    case TupleE(es) => e'.TupleE? && |e'.elems| == |es|
    case TupleStructE(c, es) => e'.TupleStructE? && e'.ctor == c && |e'.elems| == |es|
    case StructE(c, ns, es) => e'.StructE? && e'.ctor == c && e'.names == ns && |e'.elems| == |es|
    case SomeE(_) => e'.SomeE?
    case NoneE => e' == NoneE
    case OkE(_) => e'.OkE?
    case ErrE(_) => e'.ErrE?
    case VecE(es) => e'.VecE? && |e'.elems| == |es|
    case RangeE(_, _) => e'.RangeE?
    case IfE(_, _, _) => e'.IfE?
    case Invoke(_, _) => false
    case AndThen(m, _, p, _) => e'.AndThen? && e'.mac == m && e'.param == p
    case FlatMap(_, p, _) => e'.FlatMap? && e'.param == p
    case Filter(_, _) => e'.Filter?
    case Block(s, _) => e'.Block? && SameStatementForm(s, e'.stmt)
  }

  predicate SameStatementForm(s: Statement, s': Statement) {
    match s
    case Let(p, _) => s'.Let? && s'.pat == p
    case LetUninit(x, m) => s' == LetUninit(x, m)
    case Assign(x, _) => s'.Assign? && s'.target == x
    case ExprStmt(_) => s'.ExprStmt?
    case BlockStmt(ss) => s'.BlockStmt? && |s'.body| == |ss|
  }

  /**
    A nested invocation is replaced by its own expansion; any other form is
    kept as it is, only its parts expanded.
  */
  lemma ExpandExprForm(e: Expr)
    ensures e.Invoke? ==> ExpandExpr(e) == Expand(e.mac, e.sentences)
    ensures !e.Invoke? && ExpandExpr(e).Success? ==> SameForm(e, ExpandExpr(e).value)
  {
    match e
    case Block(s, _) =>
      if ExpandExpr(e).Success? {
        ExpandStatementForm(s);
      }
    case _ =>
  }

  lemma ExpandStatementForm(s: Statement)
    ensures ExpandStatement(s).Success? ==> SameStatementForm(s, ExpandStatement(s).value)
  {
  }

  function ExpandStatement(s: Statement): (r: Result<Statement>)
    ensures r.Success? ==> PlainStatement(r.value)
    ensures PlainStatement(s) ==> r == Success(s)
    decreases s
  {
    match s
    case Let(p, init) =>
      var init' :- ExpandExpr(init);
      Success(Let(p, init'))
    case LetUninit(_, _) => Success(s)
    case Assign(x, rhs) =>
      var rhs' :- ExpandExpr(rhs);
      Success(Assign(x, rhs'))
    case ExprStmt(x) =>
      var x' :- ExpandExpr(x);
      Success(ExprStmt(x'))
    case BlockStmt(ss) =>
      var ss' :- ExpandStatements(ss);
      Success(BlockStmt(ss'))
  }

  function ExpandStatements(ss: seq<Statement>): (r: Result<seq<Statement>>)
    ensures r.Success? ==> |r.value| == |ss| && PlainStatements(r.value)
    ensures PlainStatements(ss) ==> r == Success(ss)
    decreases ss
  {
    if ss == [] then Success([])
    else
      var x :- ExpandStatement(ss[0]);
      var xs :- ExpandStatements(ss[1..]);
      assert ([x] + xs)[1..] == xs;
      assert ss == [ss[0]] + ss[1..];
      Success([x] + xs)
  }
}
