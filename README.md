# comp-rs in Dafny

A model of the three `macro_rules!` tables of `src/lib.rs`:

- `option!` works over `Option`;
- `result!` works over `Result`;
- `iter!` works over iterators.

Each table rewrites a flat list of "sentences" into nested chained calls:

- `let p <- e; rest` becomes `e.and_then(move |p| { X!{rest} })`. In `iter!` it becomes `e.into_iter().flat_map(move |p| { iter!{rest} })`.
- `let mut x <- e; rest` is the same with the closure parameter `mut x`.
- `s; rest` (a statement or an expression with `;`) becomes the block `{ s ; X!{rest} }`.
- `if c; rest` exists in `iter!` only. It becomes `(iter!{rest}).into_iter().filter(move |_| c)`.
- A trailing expression `e` becomes `Some(e)`, or `Ok(e)` in `result!`.
- The empty invocation becomes `Some(())`, or `Ok(())` in `result!`.

The project has six modules.

- `Syntax` (`syntax.dfy`) holds three things:
  - the classified sentences, which are the macros' input;
  - the host expressions, which are their output;
  - the predicate `PlainExpr`, which says that no macro invocation is left.
- `Semantics` (`semantics.dfy`) is a denotation of those expressions over scoped environments.
  - Evaluating an expression gives its value and the environment it leaves. An assignment made inside a block or a branch reaches the enclosing scopes, as it does in Rust.
  - `and_then`, `into_iter`, `flat_map` and `filter` get their meaning on `Option`, `Result`, vectors and ranges. `and_then` knows which of `Option` and `Result` its table works over.
  - `Stuck` stands for a program the host compiler refuses, and for a panic. The refusal is approximated (see `Semantics.Apply` under "## Left out"). Examples are a bind whose source has the other table's type, an assignment to an immutable binding, a read of an unbound or uninitialised name, `==` between values of different types, and a value that does not fit a pattern.
- `Expansion` (`expansion.dfy`) holds the three rule tables as functions.
  - Each function maps a sentence list to the expanded expression, or to the reason no rule applies.
  - Nested invocations inside any expression are expanded in place.
- `Laws` (`laws.dfy`) states what the expansions mean, independently of the expanded code.
  - `Chain` is the left-to-right run of binds and statements that the first `None` or `Err` stops.
  - `Paths` gives the iterations of the nested loops of an `iter!`, the first bind outermost.
  - The lemmas connect every expansion, once evaluated, to these definitions.
  - The laws are stated for sentences without nested invocations. `Laws.ExpandFlatten` shows that an invocation whose sentences hold nested invocations expands exactly as its `Flatten`ed form, in which those invocations are already expanded. So the laws apply to it through that form.
- `Vectors` (`vectors.dfy`) and `PatternVectors` (`pattern_vectors.dfy`) prove concrete invocations. Most come from the crate's tests, and each of those is shown to expand and evaluate to the value the test asserts. `PatternVectors` holds the invocations of `test_pattern` and `test_ignore`. Five vectors are additional invocations that no test contains. They show what is refused and in which order things are evaluated: `Vectors.ResultOfOptionRefused`, `Vectors.OptionOfResultRefused`, `Vectors.AssignNeedsMut`, `Vectors.IterGuardAfterAssign` and `Vectors.OptionBranchAssign`.

Where the tests use the helper `ok(t)`, the model writes `Ok(t)`. The helper is a plain `Ok` with error type `()` (`src/lib.rs:215-217`).

In `test_block`, the local function `double(x)` is inlined as `x * 2`.

A nested invocation used as the trailing expression has no rule of its own. It goes through the `$e: expr` rule like any other expression, so the outer table wraps it once: `iter! { ...; option! { ... } }` ends in `Some(option! { ... })` (`src/lib.rs:197-201`). `test_nested` (`src/lib.rs:534-545`) expects exactly this: `flat_map` unwraps the outer `Some`, so the inner `option!`'s own value is the element (`Laws.TailWrappedOnce`, `Laws.NestedOptionTail`, `Vectors.IterNested`).

## Model

| member | source | states |
|---|---|---|
| Expansion.LowerParam | src/lib.rs:9-25 | The closure parameter of `let p <-` is `p` unchanged. `let mut p <-` is accepted exactly when `p` is a plain identifier without `mut`, and then gives `mut x`. |
| Expansion.ExpandOption | src/lib.rs:4-68 | An accepted `option!` invocation expands to code with no macro invocation left in it. |
| Expansion.ExpandResult | src/lib.rs:71-135 | An accepted `result!` invocation expands to code with no macro invocation left in it. |
| Expansion.ExpandIter | src/lib.rs:138-208 | An accepted `iter!` invocation expands to code with no macro invocation left in it. |
| Expansion.Expand | src/lib.rs:4-208 | Selecting a table by macro name gives expansions with no macro invocation left in them. |
| Expansion.ExpandSentence | src/lib.rs:534-545 | Expanding the nested invocations of a sentence keeps its kind, its pattern and its `mut` flag. It leaves nothing to expand, and a sentence without invocations is returned unchanged. |
| Expansion.ExpandExprForm | src/lib.rs:534-545 | A nested invocation `m! { ss }` inside an expression is replaced by exactly `Expand(m, ss)`. Every other expression keeps its constructor, with its parts expanded. |
| Expansion.ExpandExpr | src/lib.rs:534-545 | An expression whose nested invocations all expand is left with none. An expression with no invocation comes back unchanged. |
| Semantics.IntoIter | src/lib.rs:143-147 | `into_iter()` on a vector or range yields its elements. On `Some(x)` or `Ok(x)` it yields `[x]`; on `None` or `Err(_)` it yields nothing. Any other value is refused. |
| Semantics.Match | src/lib.rs:9-37 | Destructuring binds exactly the names the pattern contains. A plain identifier binds the whole value with its own mutability, and `_` binds nothing. A tuple or tuple-struct pattern matches only a value of the same constructor and arity; each component pattern is matched against the component at the same position, and every name gets the value that component gives it. A struct pattern must name each field of the value once, and matches each field by name, in any order. A name bound twice is refused. |
| Semantics.Update | src/lib.rs:9-13 | An assignment succeeds exactly when the name is bound and is mutable or not yet initialised. Afterwards the name reads as the new value, and every other name reads as before. |
| Semantics.RustRem | src/lib.rs:430-436 | `%` follows Rust: dividend = divisor × quotient truncated toward zero + remainder. The remainder has the sign of the dividend and is smaller in magnitude than the divisor. |
| Semantics.RustRemUnique | src/lib.rs:430-436 | Only one value meets `RustRem`'s contract, so that contract fixes the remainder the tests' `x % 2 == 0` sees. |
| Semantics.Apply | src/lib.rs:430-443 | `+`, `-`, `*`, `<` and `%` apply to integers only, and `%` by zero is refused. `==` compares integers, booleans, characters and the tuples, structs, `Option`s and `Result`s built from them structurally, and refuses a comparison between two such values of different shapes. Sequences compare by their elements. |
| Laws.BoundPat | src/lib.rs:9-25 | The parameter that `Chain` and `Paths` bind is the one the rules emit. |
| Laws.ExpandFlatten | src/lib.rs:21-49 | Each rule hands a sentence's expressions to the output as they are, so an invocation whose nested invocations all expand has the same expansion as the invocation with those nested invocations expanded first. This brings every accepted invocation into the form the other laws are stated for. |
| Laws.ExpandPrefix | src/lib.rs:21-49 | For accepted sentences `pre` without nested invocations (any accepted sentences, through `Laws.ExpandFlatten`), the expansion of `pre + rest` is the rules for `pre` folded around the expansion of `rest`. Each sentence wraps exactly one recursive expansion of what follows it. |
| Laws.ChainCompose | src/lib.rs:21-25 | `option!`/`result!` of `pre + rest` evaluates to `pre`'s chain resumed with the expansion of `rest`. A continuation is exactly the expansion of the sentences after its bind. |
| Laws.ChainAppend | src/lib.rs:21-49 | Running `pre + post` runs `pre` first. `post` runs only if `pre` neither stopped nor got stuck, and then in the environment `pre` left. |
| Laws.StoppedChain | src/lib.rs:21-25 | Once the chain has stopped at a `None` or `Err` value, that value is the result, whatever sentences follow. |
| Laws.OptionShortCircuit | src/lib.rs:21-25 | If the binds before one succeed and its source is `None`, the whole `option!` is `None`. Neither the later sentences nor the tail are evaluated. |
| Laws.OptionNoneIff | src/lib.rs:21-61 | `option!` is `None` if and only if the chain stopped at a `None`. If no bind failed, it is `Some` of the tail evaluated with every binding in scope. |
| Laws.ResultFirstError | src/lib.rs:88-92 | `result!` is `Err(e)` when the first failing bind's source is `Err(e)`. The payload is unchanged, whatever errors later binds would give. |
| Laws.ResultErrIff | src/lib.rs:88-128 | `result!` is `Err(e)` if and only if the chain stopped at that `Err(e)`. If no bind failed, it is `Ok` of the tail. |
| Laws.MismatchedSourceRefused | src/lib.rs:21-25 | In `option!` or `result!`, a bind reached with a source that is not of the table's own type (`Option` for `option!`, `Result` for `result!`) makes the invocation ill-typed, whatever follows. |
| Laws.ChainUnit | src/lib.rs:5-7 | Binds and statements with no tail evaluate to `Some(())` or `Ok(())` once every bind succeeded. |
| Laws.EmptyInvocation | src/lib.rs:5-7 | The empty invocation is `Some(())` in `option!` and `iter!`, and `Ok(())` in `result!` (lines 72-74, 139-141). In `iter!` it iterates as the single element `()`. |
| Laws.MutBindAssignable | src/lib.rs:9-13 | After `let mut x <- src;`, the assignment `x = rhs;` leaves `x` holding the value of `rhs`. Without `mut` the assignment is refused. |
| Laws.IterCompose | src/lib.rs:155-159 | `iter!` of `pre + rest` yields what the expansion of `rest` yields in each iteration of `pre`'s loops, concatenated in nested-loop order with the first bind outermost. |
| Laws.IterUnit | src/lib.rs:139-141 | `iter!` with no tail yields one `()` per iteration of its loops. |
| Laws.FilterOverConst | src/lib.rs:179-183 | `filter(move \|_\| c)` ignores the element. It keeps everything or nothing, depending on `c` in the captured bindings, and evaluates `c` only when there is an element. |
| Laws.GuardFilters | src/lib.rs:179-189 | `if c; rest` evaluates the expansion of `rest` first, as the receiver of `filter`. It then keeps all of its elements when `c` holds and none when `c` does not, with `c` read in the bindings `rest`'s leading statements leave. `c` is not evaluated when there is no element, and a `c` that is not a boolean is refused. |
| Laws.GuardBeforeBind | src/lib.rs:155-183 | When the sentences after a guard start with a bind, `c` is read in the bindings from before the guard. It filters the whole of the bind's loop: everything or nothing. |
| Laws.StatementThenRest | src/lib.rs:45-49 | `s; rest` runs `s` for its effect on the environment and then the expansion of `rest`. The value of an expression statement is discarded. |
| Laws.TailWrappedOnce | src/lib.rs:57-61 | A trailing expression is wrapped exactly once, in `Some` or `Ok` (lines 124-128, 197-201). In `iter!` it is a single element. |
| Laws.NestedOptionTail | src/lib.rs:197-201 | An `option!` used as the trailing expression of `iter!` contributes its own value as one element. |
| Laws.AcceptedIff | src/lib.rs:138-208 | An invocation whose nested invocations expand has a rule for each of its sentences if and only if it expands. The conditions are: `mut` only on a plain identifier, a guard only in `iter!`, a trailing expression only in last position. |
| Laws.GuardRejected | src/lib.rs:4-68 | `option!` and `result!` have no guard rule, so any invocation containing `if c;` is rejected. |
| Vectors.OptionTwoSomeUnit | src/lib.rs:221-225 | `option! { let a <- Some(1); let b <- Some(2); }` is `Some(())`. |
| Vectors.OptionTwoSome | src/lib.rs:227-232 | The two binds with tail `(a, b)` give `Some((1, 'a'))`. |
| Vectors.OptionSecondNone | src/lib.rs:234-239 | A second bind on `None` gives `None`. |
| Vectors.OptionFirstNone | src/lib.rs:241-246 | A first bind on `None` gives `None`. |
| Vectors.ResultTwoOkUnit | src/lib.rs:248-252 | `result! { let a <- ok(1); let b <- ok(2); }` is `Ok(())`. |
| Vectors.ResultTwoOk | src/lib.rs:254-259 | The two `Ok` binds with tail `(a, b)` give `Ok((1, 'a'))`. |
| Vectors.ResultFirstErr | src/lib.rs:261-266 | `let a <- Err(1); let b <- Ok('a'); (a, b)` is `Err(1)`. |
| Vectors.ResultSecondErr | src/lib.rs:268-273 | `let a <- Ok('a'); let b <- Err(2); (a, b)` is `Err(2)`. |
| Vectors.ResultOfOptionRefused | src/lib.rs:88-92 | `result! { let a <- Some(1); a }` is refused: the source `Some(1)` selects `Option::and_then`, and the closure's `Ok(a)` does not fit it. |
| Vectors.OptionOfResultRefused | src/lib.rs:21-25 | `option! { let a <- Ok(1); a }` is refused in the same way. |
| Vectors.IterTenPairs | src/lib.rs:275-282 | `let x <- vec![0, 1, 2, 3]; let y <- x..4; (x, y)` yields exactly the ten listed pairs, in order. |
| Vectors.IterGuardedPairs | src/lib.rs:299-308 | With the guard `if x * 2 == y;`, only `(0, 0)` and `(1, 2)` remain. |
| Vectors.IterGuardAfterAssign | src/lib.rs:179-189 | `iter! { let mut a <- 1..2; if a < 2; a = a * 2; a }` yields nothing: the doubling runs as part of the receiver of `filter`, before `a < 2` is read. |
| PatternVectors.OptionTriple | src/lib.rs:323-327 | `let (x, y, z) <- Some((1, 2, 3)); (x, y, z)` gives `Some((1, 2, 3))`. |
| PatternVectors.OptionNestedTuple | src/lib.rs:329-333 | The nested pattern `(x, (y, z))` against `(1, (2, 3))` gives `Some((1, 2, 3))`. |
| PatternVectors.OptionEmptyTupleStruct | src/lib.rs:335-343 | Binding the pattern `TupleStruct0()` with no tail gives `Some(())`. |
| PatternVectors.OptionTupleStruct | src/lib.rs:345-349 | `TupleStruct(x)` against `TupleStruct(9)` with tail `x` gives `Some(9)`. |
| PatternVectors.OptionTupleStruct2 | src/lib.rs:351-355 | `TupleStruct2(x, y)` against `TupleStruct2(9, 10)` gives `Some((9, 10))`. |
| PatternVectors.OptionStruct | src/lib.rs:357-361 | `Struct { x }` against `Struct { x: 8 }` gives `Some(8)`. |
| PatternVectors.OptionStructPattern | src/lib.rs:363-367 | The pattern `Struct2 { x, y }` against `Struct2 { x: 9, y: 10 }` gives `Some((9, 10))`. |
| PatternVectors.OptionIgnoreUnit | src/lib.rs:382-385 | `let _ <- Some(0);` gives `Some(())`. |
| PatternVectors.OptionIgnoreInTuple | src/lib.rs:393-397 | `(_, y, _)` against `(1, 2, 3)` with tail `y` gives `Some(2)`. |
| PatternVectors.OptionIgnoreInNestedTuple | src/lib.rs:399-403 | `(_, (y, _))` against `(1, (2, 3))` with tail `y` gives `Some(2)`: `_` is ignored at any depth. |
| PatternVectors.OptionTupleStructIgnoreUnit | src/lib.rs:405-408 | `TupleStruct(_)` against `TupleStruct(9)` with no tail gives `Some(())`. |
| PatternVectors.OptionTupleStructIgnore | src/lib.rs:410-414 | `TupleStruct2(x, _)` against `TupleStruct2(9, 10)` with tail `x` gives `Some(9)`. |
| PatternVectors.OptionStructFieldIgnoreUnit | src/lib.rs:416-419 | `Struct { x: _ }` against `Struct { x: 8 }` with no tail gives `Some(())`. |
| PatternVectors.OptionStructIgnore | src/lib.rs:421-425 | `Struct2 { x, y: _ }` against `Struct2 { x: 9, y: 10 }` with tail `x` gives `Some(9)`. |
| Vectors.IterIgnoreSum | src/lib.rs:387-391 | `let _ <- 0..10; 1` yields ten ones, whose sum is 10. |
| Vectors.IterIfSource | src/lib.rs:430-436 | An `if` whose branches give `Some(x + 1)` or `None` is iterated as 0 or 1 elements, yielding `[1, 3, 5]`. |
| Vectors.IterIfTail | src/lib.rs:438-443 | A trailing `if` expression yields one element per iteration: `[0, 0, 1, 1, 1]`. |
| Vectors.IterStatements | src/lib.rs:447-459 | `let start = 5; let end; end = start * 3;` followed by `let x <- start..end; x` yields `5..15`. |
| Vectors.IterBlock | src/lib.rs:463-470 | The block statement `{ let tmp = a * 2; a = tmp; }` after `let mut a <- 0..5;` doubles `a` in every iteration, yielding `[0, 2, 4, 6, 8]`. |
| Vectors.OptionMut | src/lib.rs:489-498 | `let mut a <- Some(2); a = a + 10; let (mut b,) <- Some((3,)); b = b + 10; (a, b)` is `Some((12, 13))`. |
| Vectors.ResultMut | src/lib.rs:500-509 | The same with `Ok` and the pattern `TupleStruct2(mut b, _)` is `Ok((12, 13))`. |
| Vectors.IterMut | src/lib.rs:511-517 | `let mut a <- 2..3; a = a + 10; a` yields `[12]`. |
| Vectors.AssignNeedsMut | src/lib.rs:21-25 | Without `mut`, the closure parameter of `let a <- Some(2);` cannot be assigned, so `a = a + 10;` is refused. |
| Vectors.OptionBranchAssign | src/lib.rs:45-49 | `option! { let mut a <- Some(0); if true { a = 1 } else { }; a }` is `Some(1)`: an assignment inside a branch's block reaches the closure parameter. |
| Vectors.IterNested | src/lib.rs:534-545 | `let a <- 0..2;` with the nested tail `option! { let b <- Some(a); (b,) }` yields `[Some((0,)), Some((1,))]`. |

## Left out

- Token-tree matching and fragment parsing (`tt`, `expr`, `stmt`, `block`, `ident`, `ty`) are not modelled. Neither is comment stripping (`test_comments`, `src/lib.rs:521-531`). The input is a list of already classified sentences.
- The `$e: expr ;` and `$b: block ;` rules (`src/lib.rs:51-55`, 63-67, 118-122, 130-134, 191-195, 203-207) have no separate model. The earlier `$stmt: stmt ;` rule shadows them, so an expression or block with `;` is a `Stmt` sentence.
- Type annotations on binds (`: $ty`, `src/lib.rs:15-19`, 39-43 and their copies in the other tables) are accepted and ignored. There is no static type checker: the model refuses an ill-typed program (`Stuck`) only when evaluation reaches the offending operation. Examples are a bind whose source has the other table's type, `==` between values of different types, an arithmetic operator on a non-integer, and a value that does not fit a pattern. An ill-typed branch that is never taken, or a closure that is never called because its source is `None`, `Err` or empty, is not refused.
- The following are not modelled: macro hygiene, `move` capture, ownership and borrowing, and references. This includes `test_array` (`src/lib.rs:286-296`), which binds `&i32` elements and dereferences them with `*x`.
- Patterns cover identifiers, `mut` identifiers, `_`, tuples, tuple structs and structs with named fields. Rest patterns (`..`), literal patterns, references and bindings with `@` are not modelled.
- Evaluation is eager and iterators are finite sequences. The laziness of `flat_map` and `filter` is not modelled, and neither is re-running a source.
- A closure passed to `flat_map` starts each iteration from the captured environment. State a closure would carry from one call to the next is not modelled. This covers the `unsafe` `static mut` counter in `test_block` (`src/lib.rs:472-477`).
- Vectors.IterBlock: states only the `a` component of the pairs `test_block` expects, because the call counter is not modelled.
- Item definitions inside blocks are not modelled. In `test_block`, `fn double` is inlined as `a * 2`.
- Semantics.Apply: vectors, ranges and iterator adaptors are all one sequence value, and `==` compares any two of them by their elements. So `(0..0) == (1..1)` is `true` in the model, where Rust compares a range's bounds and gives `false`. `vec![0] == (0..1)` is accepted, where rustc has no such comparison, and `flat_map` or `filter` results, which are not comparable in Rust, are compared too. `<` is limited to integers, where Rust also orders characters, booleans and tuples. Neither the macro rules nor the tests compare sequences or use `<` on anything but integers.
- Integers are unbounded. The `u8` and `usize` widths used in the tests never overflow in these vectors, so wrap-around is not modelled.
- The crate attributes are not modelled: `#![cfg_attr(not(test), no_std)]` at line 1 and `#[macro_exports]` at lines 3, 70 and 137.
- Laws.OptionShortCircuit: states that the later sentences do not influence the result. The side-effect counter that would show they are never run is not modelled, because evaluation has no observable effects.
