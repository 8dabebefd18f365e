# js.rs interpreter core in Dafny

This project models the core of js.rs, a small JavaScript interpreter written in Rust, and proves
properties of the model. The core has these layers:

- **Value coercions.** There are two value representations. The `JsType` structs of
  `src/js_value.rs` are module `JsTypes`. The backend variable (`JsVar`, a binding plus a scalar
  tag) with its `as_bool` of `src/coerce/mod.rs` is in modules `Types` and `Coerce`. The rendered
  value of `src/value.rs` is module `Value`.
- **Operator tables.** `eval_binop` of `src/number.rs` is module `BinaryOps`. The operator macros
  of `src/eval/macros.rs` are `EvalMacros`. The older `Float`-expression macros of `src/macros.rs`
  are `FloatMacros`.
- **Evaluators.** The integer/float arithmetic evaluator of `src/eval.rs` is `Arith`. The
  statement and expression evaluator of `src/eval/mod.rs` comes in two parts. `Semantics` holds
  functions from a syntax tree and a scope store to a value and the new store. `Eval` holds
  imperative methods over a `ScopeManager` object, each proved to compute exactly the matching
  `Semantics` function.
- **Stores.** `StateManager` of `src/state/mod.rs` is a class with a map field (module `State`).
  The scope manager the evaluator calls (an external library) is module `Scopes`. It is a stack
  of frames with `alloc`, `load`, `push_scope` and `pop_scope`.
- **Built-ins.** `Object`, `Boolean`, `Number`, `String` and `isNaN` of `src/native/types.rs` and
  `src/native/stdlib.rs` are `NativeTypes` and `NativeStdlib`. The array `length` setter of
  `src/native/array.rs` is `NativeArray`. Its two loops add and remove index keys in the object's
  dictionary.
- **Input driver.** `clean_string` of `src/preprocess.rs` is `Preprocess`. The error rendering of
  `src/js_error.rs` is `JsErrors`. The bracket-balancing loop and the negative-test error policy
  of `eval_file` in `src/main.rs` are `Driver`.

Numbers are an abstract f64 (module `F64`): `NaN`, `+inf`, `-inf`, `-0` and finite reals
(`Finite(0.0)` is `+0`). Arithmetic is exact real arithmetic with the IEEE special cases for
NaN, infinities and signed zeros.

The evaluator of `src/eval/mod.rs` need not terminate. So every `Semantics` function takes a step
bound `fuel`, which loop iterations and function calls consume. Running out of it is the fault
`OutOfFuel`. A Rust `panic!` or `.expect` failure is the fault `Panic(message)`, carrying the
source's message.

Three facts about the code shape the model:

- The two value representations disagree on truthiness. `JsString::as_bool` in
  `src/js_value.rs` makes the empty string false. `JsVar::as_bool` in `src/coerce/mod.rs` makes
  every `JsPtr` true. Each module follows its own file. The payload coercions used by the
  built-ins follow `src/js_value.rs`.
- The evaluator aborts the host with `panic!` or `.expect` in many places. Each abort is a
  `Panic` fault with the source's message.
- `clean_string` returns `Option<String>`, but `src/main.rs` uses its result as a `String`. The
  driver reads it as the cleaned text, or `""` where `clean_string` answers `None`
  (`Driver.CleanOrEmpty`).

A property of the code as written: `Seq` and `While` drop the return signal of their first part.
So the body `if (i < 2) { return 1; } return i * factorial(i - 1);` of the sample factorial
function always reaches the recursive call, and every call of it runs out of every step bound
(`Semantics.FactorialDiverges`, `Semantics.FactorialProgramDiverges`).

## Model

| member | source | states |
|---|---|---|
| JsTypes.AsBool | src/js_value.rs:45-159 | ToBoolean always gives a boolean, false exactly for false, null, undefined, +0, -0, NaN and the empty string |
| JsTypes.AsNumber | src/js_value.rs:45-159 | ToNumber always gives a number struct |
| JsTypes.BoolCoercions | src/js_value.rs:47-58 | a boolean coerces to itself, and to the number 1 or 0 |
| JsTypes.BoolNumberRoundTrip | src/js_value.rs:47-93 | a boolean converted to a number and back is the same boolean |
| JsTypes.NumberTruthiness | src/js_value.rs:87-93 | a number is false exactly when it is +0, -0 or NaN |
| JsTypes.PointerLikeTruthiness | src/js_value.rs:61-147 | a string is true exactly when non-empty; symbols, objects and errors are true whatever their contents |
| JsTypes.NullishFalse | src/js_value.rs:73-159 | null and undefined are both false |
| JsTypes.NumberIdentity | src/js_value.rs:96-98 | a number's numeric coercion is itself |
| JsTypes.NonNumericKinds | src/js_value.rs:61-159 | null is 0; undefined, objects, symbols and errors are NaN |
| JsTypes.StringToNumber | src/js_value.rs:124-134 | the empty string is 0, a parseable string its parsed value, anything else NaN |
| Coerce.AsBool | src/coerce/mod.rs:8-31 | the truthiness of a variable: its statements are Coerce.ScalarTruthiness, Coerce.NumberTruthiness, Coerce.PointerAlwaysTrue and Coerce.AgreesWithJsValue |
| Coerce.AsNumber | src/number.rs:25-28 | the numeric coercion of a variable: its statements are Coerce.AgreesWithJsValue and BinaryOps.ArithmeticOperators |
| Coerce.ScalarTruthiness | src/coerce/mod.rs:11-13 | a boolean variable is its own value; undefined and null are false, whatever the binding |
| Coerce.NumberTruthiness | src/coerce/mod.rs:14-19 | a number variable is false exactly when it is +0, -0 or NaN |
| Coerce.PointerAlwaysTrue | src/coerce/mod.rs:20 | every pointer variable is true whatever it points to, even though an empty-string payload is false |
| Coerce.AgreesWithJsValue | src/coerce/mod.rs:8-31 | on scalars the variable coercions agree with the js_value.rs struct coercions, for booleans and for numbers |
| Value.Display | src/value.rs:22-38 | the rendering of a value: its statements are Value.KeywordText, Value.VerbatimText, Value.ObjectAndErrorText, Value.IntegerText and Value.SpecialNumberText |
| Value.KeywordText | src/value.rs:25-30 | true, false, undefined and null render as their keywords |
| Value.VerbatimText | src/value.rs:32-33 | strings and symbols render as their text, the empty one included |
| Value.ObjectAndErrorText | src/value.rs:34-35 | an object renders as "{}", an error as its message |
| Value.IntegerText | src/value.rs:31 | an integer renders as decimal text that reads back as the same integer, with a leading '-' exactly when it is negative |
| Value.SpecialNumberText | src/value.rs:31 | NaN, +inf and -inf render as "NaN", "inf" and "-inf"; -0 renders like +0 |
| BinaryOps.EvalBinop | src/number.rs:8-30 | `eval_binop`: its statements are BinaryOps.ResultKinds, LogicalOperators, ComparisonsUseTruthiness, NegatedEqualities, EqualitySemantics and ArithmeticOperators |
| BinaryOps.ResultKinds | src/number.rs:8-30 | comparison, logical and equality operators yield a boolean; arithmetic operators yield a number |
| BinaryOps.LogicalOperators | src/number.rs:10-11 | And and Or are the conjunction and disjunction of both operands' truthiness, hence symmetric, and never return an operand |
| BinaryOps.ComparisonsUseTruthiness | src/number.rs:13-16 | Lt, Gt, Le and Ge compare truthiness with false below true; Le negates Gt, Ge negates Lt, and Lt is Gt swapped |
| BinaryOps.NumbersAreNotOrdered | src/number.rs:13-16 | 2 < 3 is false and 0 < 5 is true, since only truthiness is compared |
| BinaryOps.NegatedEqualities | src/number.rs:19-23 | Neq is the negation of Eql and NeqStrict of EqlStrict |
| BinaryOps.EqualitySemantics | src/number.rs:19-22 | Eql compares truthiness only; EqlStrict is structural equality of the variables, so NaN is not strictly equal to itself and 1 == true |
| BinaryOps.ArithmeticOperators | src/number.rs:25-28 | the four arithmetic operators apply f64 arithmetic to both operands' numeric coercions; undefined + x is NaN |
| BinaryOps.ArithmeticPoisonedByNonNumbers | src/number.rs:25-28 | an undefined or pointer operand on either side makes each of the four arithmetic operators NaN |
| BinaryOps.BooleansAndNullAsNumbers | src/number.rs:26 | in `+` booleans count as 1 and 0, and null plus a finite number is that number |
| BinaryOps.ArithmeticOnFiniteNumbers | src/number.rs:25-28 | on finite numbers `+`, `-` and `*` are the real sum, difference and product, and `/` the real quotient for a non-zero divisor |
| F64.Neg | src/eval/mod.rs:190 | negation is NaN exactly on NaN, flips the sign of every other number, keeps infinities infinite and negates a finite magnitude |
| F64.NegInvolution | src/eval/mod.rs:190 | negating twice gives back the number, signed zeros and infinities included |
| F64.Add | src/number.rs:26 | IEEE addition: NaN exactly from a NaN operand or opposite infinities; the real sum on finite operands; an infinite operand wins otherwise |
| F64.Sub | src/number.rs:25 | IEEE subtraction: NaN exactly from a NaN operand or equal infinities; the real difference on finite operands |
| F64.Mul | src/number.rs:28 | IEEE multiplication: NaN exactly from a NaN operand or zero times infinity; the real product on finite operands; the sign is the exclusive-or of the operands' signs |
| F64.Div | src/number.rs:27 | IEEE division: NaN exactly from a NaN operand, two infinities or two zeros; the real quotient for a non-zero finite divisor; a non-zero over a zero is infinite; the sign is the exclusive-or of the operands' signs |
| F64.ToText | src/value.rs:31 | Rust's f64 Display: the statements are F64.IntRoundTrip, F64.IntToStringInjective and Value.SpecialNumberText |
| F64.EqReflexiveExceptNaN | src/number.rs:22 | f64 equality is reflexive on every number except NaN |
| F64.NaNPropagates | src/number.rs:25-28 | an arithmetic operation with a NaN operand yields NaN |
| F64.FiniteArithmetic | src/number.rs:25-28 | on non-zero finite operands the operations are real arithmetic |
| F64.IntRoundTrip | src/value.rs:31 | an integer's decimal text reads back as that integer |
| F64.IntToStringInjective | src/value.rs:31 | distinct integers render differently |
| F64.AsI32 | src/native/array.rs:29-30 | `as i32` stays in the i32 range, is exact on an integral number within it, truncates toward zero inside the range, saturates to the nearer bound beyond it and on the infinities, and maps NaN to 0 |
| Arith.Combine | src/eval.rs:20-47 | combining two evaluated operands always yields an Int or a Float |
| Arith.Eval | src/eval.rs:13-51 | evaluation yields an Int or a Float, leaves literals unchanged, and never meets the NaN fallback arm |
| Arith.EvalIdempotent | src/eval.rs:15-16 | evaluating an evaluated expression changes nothing |
| Arith.AllIntEvaluatesToInt | src/eval.rs:13-51 | an expression with only Int leaves evaluates to the Int computed with the integer operators |
| Arith.FloatIffFloatLeaf | src/eval.rs:13-51 | the result is a Float exactly when some leaf is a Float, so a mixed pair promotes to Float |
| Arith.FallbackUnreachable | src/eval.rs:17-47 | both operands are evaluated before combining, and the NaN fallback arms are never taken |
| Arith.FloatOpCongruent | src/eval.rs:24-26 | the float operators give equal results (NaN counted equal to NaN) on equal operands |
| Arith.AgreesWithFloatReading | src/eval.rs:13-51 | the result, read as a float, equals the expression computed entirely in floats with each Int promoted |
| Arith.IntOpIsFloatOp | src/eval.rs:23-26 | an integer operation promoted to float equals the float operation on the promoted operands |
| Arith.Example | src/eval.rs:21-35 | 3 * 4 + 2.5 evaluates to Float 14.5 |
| JsErrors.IsMeta | src/main.rs:125 | the meta-error test the negative-test policy consults; Driver.Policy states its use |
| JsErrors.Render | src/js_error.rs:14-23 | each variant renders as its own prefix followed by its message |
| JsErrors.ParseRendered | src/js_error.rs:14-23 | a recovered error renders back to the text it was read from |
| JsErrors.RenderRoundTrip | src/js_error.rs:17-20 | every error is recovered from its rendering, so the variant is known from the prefix |
| JsErrors.RenderInjective | src/js_error.rs:17-20 | two errors with the same rendering are the same error |
| Preprocess.CleanString | src/preprocess.rs:1-17 | None exactly for the empty string and for text starting with "//"; otherwise the input unchanged |
| Preprocess.CleanIdempotent | src/preprocess.rs:1-17 | cleaning a cleaned string gives it back |
| State.StateManager.constructor | src/state/mod.rs:10-12 | a new manager has no entries and length 0 |
| State.StateManager.Get | src/state/mod.rs:18-20 | get finds exactly the names that have an entry, with their values |
| State.StateManager.Len | src/state/mod.rs:23-25 | len is the number of entries |
| State.StateManager.Insert | src/state/mod.rs:14-16 | insert returns the previous value, afterwards get finds the new one, every other name is unchanged, and len grows exactly when the name was absent |
| Scopes.Innermost | src/eval/mod.rs:211-214 | finds the innermost frame binding a name, or -1 when none does |
| Scopes.Lookup | src/eval/mod.rs:211-214 | a named binding is found exactly when some frame binds it, and its slot comes from the innermost frame that binds it, so inner frames shadow outer ones; anonymous bindings are never found |
| Scopes.Get | src/eval/macros.rs:25 | the type stored for a name, present exactly when the name is bound |
| Scopes.InnermostAfterUpdate | src/eval/mod.rs:44 | updating a frame without changing whether it binds a name keeps the innermost frame for that name |
| Scopes.LookupAfterUpdate | src/eval/mod.rs:44 | storing one name leaves the lookup of every other name unchanged |
| Scopes.AllocF | src/eval/mod.rs:44 | after alloc the name finds the new slot, other names find what they found, and only the innermost frame changes |
| Scopes.InsertF | src/eval/macros.rs:27 | after insert the name finds the new slot and other names find what they found |
| Scopes.PushPreservesLookup | src/eval/mod.rs:151 | pushing an empty scope changes no lookup |
| Scopes.ScopedAllocDiscarded | src/eval/mod.rs:151-168 | what is allocated in a pushed scope is gone once that scope is popped |
| Scopes.ScopeManager.constructor | src/main.rs:238 | a new manager holds one empty global frame |
| Scopes.ScopeManager.Alloc | src/eval/mod.rs:44 | alloc performs AllocF on the frames and keeps at least one frame |
| Scopes.ScopeManager.Load | src/eval/mod.rs:149 | the loop over frames returns the Lookup of the binding |
| Scopes.ScopeManager.PushScope | src/eval/mod.rs:151 | appends one empty frame |
| Scopes.ScopeManager.PopScope | src/eval/mod.rs:168 | removes the innermost frame and reports success exactly when one would remain |
| Scopes.ScopeManager.GetType | src/eval/macros.rs:25 | returns the Get of the name |
| Scopes.ScopeManager.Insert | src/eval/macros.rs:27 | the loop over frames performs InsertF |
| EvalMacros.AsNumberType | src/eval/macros.rs:4 | the numeric coercion of a variable is always a number |
| EvalMacros.Cmp | src/eval/macros.rs:1-9 | the comparison macro: its statements are EvalMacros.CmpDecides and EvalMacros.CmpLessThan |
| EvalMacros.CmpDecides | src/eval/macros.rs:1-9 | the comparison macro yields the boolean of the comparison on both numeric coercions |
| EvalMacros.CmpLessThan | src/eval/macros.rs:1-9 | with f64 `<`, the result is the ordering of the numbers; undefined < x is false and 2 < 3 is true |
| EvalMacros.FloatSign | src/eval/macros.rs:11-19 | a number maps to the operation on it; any other result maps to NaN |
| EvalMacros.PostOp | src/eval/macros.rs:22-35 | succeeds exactly on a variable holding a number: stores step(f) under it and yields the old f, other names unchanged; a non-variable is the postfix left-hand-side error; otherwise the undefined-variable error |
| EvalMacros.PreOp | src/eval/macros.rs:37-50 | succeeds exactly on a variable holding a number: stores step(f) and yields step(f); a non-variable is the prefix left-hand-side error; otherwise the undefined-variable error |
| EvalMacros.PostAndPreAgreeOnStore | src/eval/macros.rs:22-50 | postfix and prefix succeed together, leave the same store, and prefix yields step of what postfix yields |
| EvalMacros.IncrementExample | src/eval/mod.rs:193-196 | with a = 1: a++ yields 1 and stores 2, ++a then yields 3, a-- then yields 3 and stores 2 |
| EvalMacros.PostOpM | src/eval/macros.rs:22-35 | the in-place postfix update on a scope manager computes PostOp, and leaves the store alone on error |
| EvalMacros.PreOpM | src/eval/macros.rs:37-50 | the in-place prefix update on a scope manager computes PreOp, and leaves the store alone on error |
| FloatMacros.FloatBinop | src/macros.rs:1-8 | the result is a Float: out(f1, f2) when both operands are Floats, NaN otherwise |
| FloatMacros.BinopPoisonedByNonNumbers | src/macros.rs:1-8 | a non-Float or NaN operand makes every arithmetic result NaN |
| FloatMacros.FloatSign | src/macros.rs:10-25 | Float(f) maps to Float(op(f)) and Undefined to NaN; every other form is an error naming that form |
| FloatMacros.SignPanicsOnlyOnUnevaluatedForms | src/macros.rs:10-25 | the sign macro fails exactly on forms other than Float and Undefined |
| FloatMacros.PostOp | src/macros.rs:27-40 | succeeds exactly on a variable holding a Float: stores the new value and yields the old; otherwise the given error or the undefined-variable error |
| FloatMacros.PreOp | src/macros.rs:42-55 | succeeds exactly on a variable holding a Float: stores and yields the new value; otherwise the given error or the undefined-variable error |
| FloatMacros.PostAndPreAgree | src/macros.rs:27-55 | postfix and prefix succeed together, leave the same store, and differ only in the value they yield |
| FloatMacros.PostOpM | src/macros.rs:27-40 | the in-place postfix update on a StateManager computes PostOp, and inserts nothing on error |
| FloatMacros.PreOpM | src/macros.rs:42-55 | the in-place prefix update on a StateManager computes PreOp, and inserts nothing on error |
| Semantics.BinValue | src/eval/mod.rs:120-135 | the operator table inside eval_exp: Semantics.InlineTableAgrees proves it is eval_binop |
| Semantics.InlineTableAgrees | src/eval/mod.rs:120-135 | the operator table written inside eval_exp is eval_binop of number.rs, for every operator both have |
| Semantics.BindParams | src/eval/mod.rs:153-163 | binding parameters keeps the number of frames and touches only the innermost one |
| Semantics.EvalExp | src/eval/mod.rs:113-216 | a successful expression leaves as many frames as it found |
| Semantics.EvalExps | src/eval/mod.rs:144-147 | the argument values are one per argument, and the number of frames is kept |
| Semantics.EvalFields | src/eval/mod.rs:199-208 | evaluating an object literal's fields keeps the number of frames |
| Semantics.CallFunction | src/eval/mod.rs:151-169 | a call pops the scope it pushed, so the number of frames is unchanged |
| Semantics.EvalStmt | src/eval/mod.rs:35-110 | a successful statement leaves as many frames as it found |
| Semantics.EvalWhile | src/eval/mod.rs:96-108 | a successful loop leaves as many frames as it found, and its value is always undefined |
| Semantics.WhileEntryFalse | src/eval/mod.rs:96-106 | a false condition on entry runs no iteration: undefined, the signal the loop had, and the store the condition left |
| Semantics.WhileBodyRunReplacesSignal | src/eval/mod.rs:96-107 | once the condition holds the entry signal does not matter: the loop ends with the signal of its last body run |
| Semantics.WhileNeverRan | src/eval/mod.rs:96-106 | a `while` statement whose condition is false at once yields undefined with no return signal |
| Semantics.IfTrueRunsThen | src/eval/mod.rs:67-71 | a true condition runs the `then` block alone on the store the condition left |
| Semantics.IfFalseRunsElse | src/eval/mod.rs:67-76 | a false condition runs the `else` block alone on the store the condition left |
| Semantics.IfFalseNoElse | src/eval/mod.rs:67-81 | a false condition with no `else` yields undefined with no return signal and runs no block |
| Semantics.IfConditionFails | src/eval/mod.rs:67-68 | a failing condition fails the whole `if` with the same fault |
| Semantics.AssignAndDeclBind | src/eval/mod.rs:38-64 | `x = e` and `var x = e` act alike: they succeed exactly when e does, yield e's value renamed to x with no return signal, make x look up to that value, and leave every other name and every outer frame as e left them |
| Semantics.CallResult | src/eval/mod.rs:151-169 | a call succeeds exactly when its body does, yields the body's return signal or undefined when there is none, and pops the scope it pushed |
| Semantics.CallWithoutReturnIsUndefined | src/eval/mod.rs:165-169 | a function whose body has no `return` yields undefined |
| Semantics.CallOfReturn | src/eval/mod.rs:151-169 | a function whose body is `return e` yields e's value with the parameters bound |
| Semantics.BinExpEvaluatesBoth | src/eval/mod.rs:116-135 | a binary expression evaluates its left operand, then its right one on the store the left one left, then applies the operator table; it fails with the first failing operand's fault |
| Semantics.NoShortCircuit | src/eval/mod.rs:116-122 | `&&` with a falsy left operand and `||` with a truthy one still evaluate the right operand: its fault is the expression's fault, and otherwise the result is false (true) with the right operand's store changes kept |
| Semantics.LiteralsEvaluate | src/eval/mod.rs:137-210 | every boolean, number and undefined literal evaluates to a fresh value of that scalar and leaves the store as it was |
| Semantics.NoReturnNoSignal | src/eval/mod.rs:84-93 | a statement without `return` never sets the return signal |
| Semantics.NoReturnLoopNoSignal | src/eval/mod.rs:96-108 | a loop whose body has no `return` never sets the return signal |
| Semantics.SeqDiscardsReturn | src/eval/mod.rs:90-93 | in `Seq(return e, s2)` the return signal is lost when s2 has no `return` |
| Semantics.ReturnSignalsItsValue | src/eval/mod.rs:84-87 | `return e` succeeds exactly when e does, and yields e's value both as value and as return signal |
| Semantics.LoopIgnoresReturn | src/eval/mod.rs:96-108 | `while (true) { return; }` never stops, for every step bound |
| Semantics.LoopWithFalseCondition | src/eval/mod.rs:96-106 | a loop whose condition is false yields undefined, no return signal and the store unchanged |
| Semantics.BindParamsBinds | src/eval/mod.rs:153-163 | the i-th distinct parameter is bound to the i-th argument, or undefined when arguments run out; surplus arguments are dropped and other names are unchanged |
| Semantics.CallFailsWithBody | src/eval/mod.rs:165 | a call fails with the fault of its body |
| Semantics.LiteralExamples | src/eval/mod.rs:189-210 | the literals 5, 0 and undefined evaluate to themselves with no return signal |
| Semantics.ArithmeticExamples | src/eval/mod.rs:131-134 | 2 + 4 is 6, 2 / 4 is 0.5, 2 - 4 is -2 and 2 * 4 is 8 |
| Semantics.DeclarationExample | src/eval/mod.rs:56-64 | `var a = 1; a++; a` yields 2 bound to a, and stores 2 under a |
| Semantics.CallThrough | src/eval/mod.rs:140-174 | a callee and arguments that reach a stored function run that function one step down |
| Semantics.CallExample | src/eval/mod.rs:140-174 | `function id(x) { return x; }; id(5)` is 5 and leaves the single global frame |
| Semantics.FactorialDiverges | src/eval/mod.rs:84-93 | every call of the sample factorial runs out of steps, whatever the argument and bound |
| Semantics.FactorialProgramDiverges | examples/factorial.js:1-9 | declaring factorial and calling factorial(1) runs out of every step bound |
| Semantics.AnonymousFunctionsPanic | src/eval/mod.rs:185-187 | a function expression without a name is the "not yet supported" panic |
| Eval.EvalString | src/eval/mod.rs:23-30 | a statement that does not parse is the "parse error" panic; otherwise the value and store of EvalStmt |
| Eval.EvalStmtM | src/eval/mod.rs:35-110 | running a statement on the scope manager computes EvalStmt: same value, return signal and frames, or the same fault |
| Eval.AssignM | src/eval/mod.rs:38-64 | assignment and declaration both compute the value renamed to the target and allocate it |
| Eval.WhileM | src/eval/mod.rs:96-108 | the loop computes EvalWhile |
| Eval.IterationM | src/eval/mod.rs:98-106 | one test of the condition and one body run: either the loop's final answer or the state the rest of the loop continues from |
| Eval.EvalExpM | src/eval/mod.rs:113-216 | running an expression on the scope manager computes EvalExp: same value and frames, or the same fault |
| Eval.BinExpM | src/eval/mod.rs:116-136 | both operands are evaluated left to right and then combined, as EvalExp says |
| Eval.CallM | src/eval/mod.rs:140-174 | a call evaluates callee, then arguments, then invokes the loaded function, as EvalExp says |
| Eval.InvokeM | src/eval/mod.rs:149-173 | a loaded function is called; a non-function is "Invalid call object" and an unbound name "not defined" |
| Eval.EvalExpsM | src/eval/mod.rs:144-147 | the argument loop computes EvalExps |
| Eval.EvalFieldsM | src/eval/mod.rs:199-208 | the field loop computes EvalFields |
| Eval.CallFunctionM | src/eval/mod.rs:151-169 | push a scope, bind parameters, run the body, pop: computes CallFunction |
| NativeTypes.Object | src/native/types.rs:13-23 | the first argument unchanged, or a fresh empty object of kind "Object" when there is none |
| NativeTypes.Boolean | src/native/types.rs:25-29 | a boolean with no payload: false with no arguments, else the payload's truthiness when there is one, else the variable's |
| NativeTypes.ArrayToStringHelper | src/native/types.rs:46-50 | the array printer's error, or its result's payload text when there is one, else its scalar text |
| NativeTypes.Number | src/native/types.rs:31-44 | a fresh number with no payload: 0 with no arguments, the payload's numeric coercion for a non-array pointer, the variable's coercion for a scalar; it fails exactly on an array argument whose printing fails |
| NativeTypes.String | src/native/types.rs:52-64 | always a string-tagged pointer with a string payload, "" with no arguments; it fails only on an array argument |
| NativeTypes.ArraysConvertThroughText | src/native/types.rs:34-36 | an array argument converts through its printed text: "" is 0, parseable text its value, else NaN |
| NativeTypes.BooleanMatchesNumber | src/native/types.rs:25-44 | for a non-pointer argument, Boolean is false exactly when Number is a zero or NaN |
| NativeTypes.BarePointerDisagrees | src/native/types.rs:25-44 | a pointer variable without payload is true for Boolean but NaN for Number |
| NativeTypes.BooleanOfStringPayload | src/native/types.rs:27 | Boolean of a string payload is true exactly when the string is non-empty |
| NativeTypes.StringAndObjectPassThrough | src/native/types.rs:52-64 | String of a string payload gives a fresh string holding the host's text for it, which is that same string whenever the host prints a string as itself; Object gives its argument back |
| NativeStdlib.IsNaN | src/native/stdlib.rs:12-25 | a boolean with no payload, false with no arguments |
| NativeStdlib.IsNaNIsNumberIsNaN | src/native/stdlib.rs:14-24 | isNaN(args) is "Number(args) is NaN", failing exactly when Number fails and with the same error |
| NativeArray.RejectedLengthMeans | src/native/array.rs:16-19 | a length is accepted exactly when it is +0 or a positive integer; NaN, both infinities and -0 are rejected |
| NativeArray.IndexKeyIsNumberText | src/native/array.rs:34 | an index key is the number's own text |
| NativeArray.SetLength | src/native/array.rs:12-47 | a rejected length is the length panic; then a missing or non-object `this` is its panic; otherwise the result is the new length with no payload and the object keeps its prototype and kind |
| NativeArray.ArrayLengthSetter | src/native/array.rs:12-47 | the setter with its two loops computes SetLength |
| NativeArray.AddIndexKeys | src/native/array.rs:32-37 | the growing loop binds each key from the old to the new length to undefined |
| NativeArray.RemoveIndexKeys | src/native/array.rs:39-44 | the shrinking loop removes each key from the new to the old length |
| NativeArray.SetterEffect | src/native/array.rs:32-44 | growing binds the new index keys to undefined, shrinking removes those at or above the new length, equal lengths change nothing, and no other key changes |
| NativeArray.NonIndexKeysUntouched | src/native/array.rs:32-44 | keys that are not an integer's text, such as "length", are never touched |
| NativeArray.ResizeExample | src/native/array.rs:32-44 | setting a two-element array's length to 4 adds "2" and "3" as undefined, and setting it back to 2 restores the keys |
| Driver.CleanOrEmpty | src/main.rs:76 | empty exactly for empty or "//" lines; any other line is kept as it is |
| Driver.Scan | src/main.rs:83-104 | the bracket scan fails only with "Unexpected token" on a ')', '}' or '/' of the line |
| Driver.ScanKeepsOpeners | src/main.rs:84-101 | the bracket stack only ever holds '(', '{' and '/' |
| Driver.PlainTextKeepsStack | src/main.rs:83-104 | a line without bracket or comment characters leaves the stack unchanged |
| Driver.MatchingPairs | src/main.rs:84-101 | "()", "{}" and a comment leave the stack as they found it; an unmatched ')' or a '}' closing '(' is the "Unexpected token" error |
| Driver.LastResetPerLine | src/main.rs:81-103 | a '/' and a '*' on separate lines open no comment, but "/*" on one line does |
| Driver.ScanLine | src/main.rs:83-104 | the character loop computes Scan |
| Driver.Run | src/main.rs:68-143 | the line loop's specification: the statements about it are Driver.CommentLinesSkipped, Driver.OpenLinesBuffered, Driver.JoinedUnit, Driver.UnbalancedTailDroppedAll and Driver.ErrorPolicyOnUnit |
| Driver.Policy | src/main.rs:119-134 | no error continues; outside a negative test every error aborts; in a negative test exactly non-meta errors continue |
| Driver.EvalFile | src/main.rs:68-143 | the line loop computes Run from the start state |
| Driver.CommentLinesSkipped | src/main.rs:106-113 | a comment line between units is never evaluated |
| Driver.OpenLinesBuffered | src/main.rs:73-108 | any run of lines that each scan cleanly and leave a bracket open is only buffered: nothing is evaluated, the cleaned lines are appended to the buffer, the open brackets carried on, and a `@negative` among them marks the test negative |
| Driver.JoinedUnit | src/main.rs:106-134 | for any lines that leave a bracket open followed by a line that closes the last one, the run is one evaluation of the cleaned concatenation of all of them (skipped when it cleans to nothing), under the error policy, and then the rest of the file |
| Driver.UnbalancedTailDroppedAll | src/main.rs:73-142 | for any lines that leave a bracket open to the end of the file, the run ends with the state it had and nothing of them is evaluated |
| Driver.MultiLineUnit | src/main.rs:106-113 | one instance: `f(a,` then `b);` are joined and `f(a,b);` is evaluated once |
| Driver.UnbalancedTailDropped | src/main.rs:140-142 | one instance: a file whose only line is `{` ends with the state it started with |
| Driver.ErrorPolicyOnUnit | src/main.rs:119-134 | in a negative test a failing unit with a non-meta error moves on with the state it left; a meta error, or any error outside a negative test, ends the run with it |

## Left out

- The parsers `parse_Stmt` and `parse_Exp` are foreign calls. The evaluators take the syntax tree; `Eval.EvalString` takes the parser's verdict as an `Option`.
- File reading, the REPL, `.history` files, the directory test runner, argument parsing and `println!` debugging in `src/main.rs` are I/O. `Driver.EvalFile` takes the lines and an evaluator function as parameters.
- The scope manager and garbage collector are an external library and are not part of this model. `Scopes` is an abstract stack of frames with the operations the evaluator calls. Allocation never fails in the model, so the printed error of `Assign` and the panic of `Decl` on a failed `alloc` are not modelled.
- Semantics.EvalExp, Semantics.EvalStmt, Semantics.EvalWhile, Semantics.CallFunction: their own contracts state the frame count they keep, and `EvalWhile`'s that its value is undefined. The per-construct promises are separate lemmas: `LiteralsEvaluate`, `BinExpEvaluatesBoth`, `NoShortCircuit`, `CallResult`, `AnonymousFunctionsPanic`, `IfTrueRunsThen`, `IfFalseRunsElse`, `IfFalseNoElse`, `AssignAndDeclBind`, `ReturnSignalsItsValue`, `SeqDiscardsReturn`, `WhileEntryFalse`, `WhileBodyRunReplacesSignal`.
- Semantics.EvalExp: a loop iteration and a call consume one unit of `fuel`, and running out is the fault `OutOfFuel`. The model says nothing about runs longer than the bound; the source would loop or recurse until the host stack ends.
- After a panic the model's scope manager is not specified, since the Rust process aborts there. `Eval`'s methods promise the same fault as `Semantics`, not a store.
- F64: f64 rounding, overflow to infinity and subnormals are left out. Finite arithmetic is exact over the reals; only NaN, the infinities and the signed zeros follow IEEE 754.
- Arith.Eval: the `Int` of `src/eval.rs` is unbounded, so the model does not capture i64 overflow.
- `str::parse::<f64>` and the text of non-integral numbers are parameters (`parse`, `fracText`). So are `as_string` on payloads, the type text of scalars used by `String`, and the array printer `array_to_string`, which is not part of this model (`NativeTypes.Host`).
- NativeArray.IndexKey: the index keys of `src/native/array.rs` are `JsNum(i as f64).as_string()`. The model fixes that text as the decimal digits of the integer `i` (`IntToString`), which is what Rust's f64 `Display` gives for an integral value; `NativeArray.IndexKeyIsNumberText` ties it to `F64.ToText`.
- F64.ToText: -0 renders as "0" and NaN and the infinities as "NaN", "inf" and "-inf". This follows Rust's `Display` for f64 of the toolchain this crate targets.
- F64.AsI32: `as i32` saturates and maps NaN to 0, which is Rust's behaviour since 1.45; older compilers left out-of-range casts undefined.
- The numeric coercion of a backend variable and the payload coercions (including `js_var_value_as_number!`) come from a backend revision that is not part of this model. They follow the per-kind rules of `src/js_value.rs`. A pointer variable seen without its payload is NaN.
- NativeArray.SetLength: `add_key` is modelled as a dictionary insert, ignoring the allocator. The panic message omits the debug dump of the offending variable.
- NativeArray.SetLength: the setter receives `this` by value (`src/native/array.rs:12`, `23`) and returns only the new length (line 46). The updated `ObjStruct` the model returns beside the length is that local copy, which the source drops; no caller sees the added or removed keys.
- NativeTypes.Object: `unwrap_or` at `src/native/types.rs:17-20` builds its empty-object default eagerly, so the source allocates an empty object even when an argument is given. The model has no allocator and returns only the argument.
- Types.NewVar: the backend's `JsVar::new` is not part of this model, and the model gives every fresh value the same anonymous binding `Anon`. So two fresh values with equal scalars are the same `JsVar`, and `===` between them is true in the model (`BinaryOps.EvalBinop` on `EqlStrict` and `NeqStrict`, `BinaryOps.EqualitySemantics`). If the backend names each fresh value uniquely, the source's derived `==` on `JsVar` tells them apart and the model does not capture that.
- The object literal of `src/eval/mod.rs` builds a throwaway object. The model evaluates its fields for their effect and returns a bare object pointer with no payload.
- `NewObject` is `unimplemented!()` in the source, and is the `Panic("not yet implemented")` fault in the model.
- JsErrors.IsMeta: `is_meta_error` is called at `src/main.rs:125` and defined outside the files of this model. The model assumes a meta error is a `ParseError` or a `GcError`, the two failures of the interpreter itself rather than of the program it runs.
- `GcError`'s own text is a field of the model's `GcError`, not derived from the garbage collector's error type.
- StateManager is generic in its value type, so the older macros of `src/macros.rs` can run on a store of `Float` expressions and the original `JsVar` store is one instance.
- The console functions `log` and `error`, the `add_pervasive` registration macros and `default_getter` are output and wiring.
- `src/error.rs`, `src/var.rs`, `src/bench/mod.rs`, `parse.py` and the JavaScript test inputs are outside the core.
