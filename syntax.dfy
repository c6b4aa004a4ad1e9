/**
  The syntax the three macros `option!`, `result!` and `iter!` consume and
  produce (src/lib.rs).

  The input of an invocation is a flat list of already classified sentences
  (`let p <- e;`, `if c;`, `stmt;`, a trailing expression). The output is a
  host expression built from the host's own forms plus the chained calls the
  rules emit: `e.and_then(move |p| ...)`, `e.into_iter().flat_map(move |p| ...)`,
  `(...).into_iter().filter(move |_| c)` and the block `{ s ; ... }`.
*/
module Syntax {

  /** The three rule tables of the crate. */
  datatype Macro = OptionMacro | ResultMacro | IterMacro

  /** Run-time values of the host expressions. `()` is the empty tuple. */
  datatype Value =
    | VInt(i: int)
    | VBool(b: bool)
    | VChar(c: char)
    | VTuple(elems: seq<Value>)
    | VTupleStruct(ctor: string, elems: seq<Value>)
    /** A struct with named fields; `names[k]` is the name of `elems[k]`. */
    | VStruct(ctor: string, names: seq<string>, elems: seq<Value>)
    | VNone
    | VSome(inner: Value)
    | VOk(inner: Value)
    | VErr(inner: Value)
    /** A finite sequence of values: a `Vec`, a range, or what an iterator yields. */
    | VSeq(elems: seq<Value>)

  /** The unit value `()`. */
  const Unit: Value := VTuple([])

  /** Closure-parameter and `let` patterns. */
  datatype Pat =
    | PIdent(name: string, mutable: bool)
    | PWild
    | PTuple(elems: seq<Pat>)
    | PTupleStruct(ctor: string, elems: seq<Pat>)
    /** `C { n1: p1, ..., nk: pk }`; the shorthand `C { x }` is `C { x: x }`. */
    | PStruct(ctor: string, names: seq<string>, elems: seq<Pat>)

  datatype BinOp = Add | Sub | Mul | Rem | Eq | Lt

  datatype Expr =
    | Lit(v: Value)
    | Var(name: string)
    | Bin(op: BinOp, lhs: Expr, rhs: Expr)
    | TupleE(elems: seq<Expr>)
    | TupleStructE(ctor: string, elems: seq<Expr>)
    | StructE(ctor: string, names: seq<string>, elems: seq<Expr>)
    | SomeE(inner: Expr)
    | NoneE
    | OkE(inner: Expr)
    | ErrE(inner: Expr)
    | VecE(elems: seq<Expr>)
    | RangeE(lo: Expr, hi: Expr)
    | IfE(cond: Expr, thn: Expr, els: Expr)
    /** A nested `option! { ... }`, `result! { ... }` or `iter! { ... }`. */
    | Invoke(mac: Macro, sentences: seq<Sentence>)
    /** `recv.and_then(move |param| body)`, emitted by the table of `mac` */
    | AndThen(mac: Macro, recv: Expr, param: Pat, body: Expr)
    /** `recv.into_iter().flat_map(move |param| body)` */
    | FlatMap(recv: Expr, param: Pat, body: Expr)
    /** `(recv).into_iter().filter(move |_| cond)` */
    | Filter(recv: Expr, cond: Expr)
    /** `{ stmt ; rest }` */
    | Block(stmt: Statement, rest: Expr)

  datatype Statement =
    /** `let p = e;` */
    | Let(pat: Pat, init: Expr)
    /** `let x;` or `let mut x;` (declared, not yet initialised) */
    | LetUninit(name: string, mutable: bool)
    /** `x = e;` */
    | Assign(target: string, rhs: Expr)
    /** `e;`, the value is discarded */
    | ExprStmt(e: Expr)
    /** `{ s1; ...; sn }` used as a statement */
    | BlockStmt(body: seq<Statement>)

  /** One classified unit of a macro invocation. */
  datatype Sentence =
    /** `let p <- src;` or `let mut p <- src;` */
    | Bind(pat: Pat, isMut: bool, src: Expr)
    /** `if cond;` */
    | Guard(cond: Expr)
    /** an ordinary statement or expression followed by `;` */
    | Stmt(effect: Statement)
    /** the trailing expression */
    | Tail(expr: Expr)

  /** An expression with no macro invocation left in it. */
  predicate PlainExpr(e: Expr)
    decreases e
  {
    match e
    case Lit(_) => true
    case Var(_) => true
    case Bin(_, a, b) => PlainExpr(a) && PlainExpr(b)
    case TupleE(es) => PlainExprs(es)
    case TupleStructE(_, es) => PlainExprs(es)
    case StructE(_, _, es) => PlainExprs(es)
    case SomeE(x) => PlainExpr(x)
    case NoneE => true
    case OkE(x) => PlainExpr(x)
    case ErrE(x) => PlainExpr(x)
    case VecE(es) => PlainExprs(es)
    case RangeE(lo, hi) => PlainExpr(lo) && PlainExpr(hi)
    case IfE(c, t, f) => PlainExpr(c) && PlainExpr(t) && PlainExpr(f)
    case Invoke(_, _) => false
    case AndThen(_, r, _, b) => PlainExpr(r) && PlainExpr(b)
    case FlatMap(r, _, b) => PlainExpr(r) && PlainExpr(b)
    case Filter(r, c) => PlainExpr(r) && PlainExpr(c)
    case Block(s, r) => PlainStatement(s) && PlainExpr(r)
  }

  predicate PlainExprs(es: seq<Expr>)
    decreases es
  {
    es == [] || (PlainExpr(es[0]) && PlainExprs(es[1..]))
  }

  predicate PlainStatement(s: Statement)
    decreases s
  {
    match s
    case Let(_, e) => PlainExpr(e)
    case LetUninit(_, _) => true
    case Assign(_, e) => PlainExpr(e)
    case ExprStmt(e) => PlainExpr(e)
    case BlockStmt(ss) => PlainStatements(ss)
  }

  predicate PlainStatements(ss: seq<Statement>)
    decreases ss
  {
    ss == [] || (PlainStatement(ss[0]) && PlainStatements(ss[1..]))
  }

  predicate PlainSentence(s: Sentence)
    decreases s
  {
    match s
    case Bind(_, _, e) => PlainExpr(e)
    case Guard(c) => PlainExpr(c)
    case Stmt(st) => PlainStatement(st)
    case Tail(e) => PlainExpr(e)
  }
}
