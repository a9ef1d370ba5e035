# cadenza core, modelled in Dafny

cadenza is a small typed functional language. Its runtime has two halves:
- a tree of Truffle nodes (`Code`) that evaluates closures over frames and
  raises a "stuck" signal when a neutral term from normalisation-by-evaluation
  gets in the way;
- a plain substitution interpreter over de Bruijn terms.

In front of the runtime sit:
- a type checker over named terms;
- a combinator parser library in two versions (src/parser.kt and
  parsing/main/parsing.kt);
- the concrete grammar;
- a width- and ribbon-bounded pretty printer with backtracking groups.

This project models those parts and proves what they promise.

Each source file is one module.

| module | file | source |
|---|---|---|
| `Wrappers` | wrappers.dfy | Option/Result |
| `Types` | types.dfy | src/cadenza/types.kt: types, arity, `after`, `match`, `rep` |
| `Values` | values.dfy | runtime values, `Closure.type`, and `validate` of every type |
| `BigInts` | bigint.dfy | src/cadenza/data/BigInt.kt: bit length, the `fitsIn*` and `as*` conversions, comparison |
| `Nbe` | nbe.dfy | src/cadenza/data/nbe.kt: neutral terms, the stuck signal and `NeutralValue` |
| `Closures` | closure.dfy | src/cadenza/data/Closure.kt: the array helpers as array methods; `call`, `pap` and `execute` |
| `Code` | code.dfy | src/cadenza/jit/code.kt: one evaluator for every `execute*` variant of the node tree; the `lam` factory |
| `Envs` | env.dfy | src/cadenza/semantics/env.kt |
| `Terms` | terms.dfy | src/cadenza/semantics/terms.kt: free variables, inference and checking, lambda slot planning |
| `Builtins` | builtins.dfy | src/cadenza/jit/builtin.kt: arithmetic with its exact overflow rules, argument routing, the fixpoint, the initial context |
| `FrameBuilders` | frame_builder.dfy | src/cadenza/jit/frame_builder.kt: a class whose slot kinds are updated in place |
| `ArrayMappedFrames` | array_mapped_frame.dfy | src/cadenza/frame/ArrayMappedDataFrame.kt: 64-bit masks as `bv64` |
| `SimpleFrames` | simple_frame.dfy | src/cadenza/frame/SimpleDataFrame.kt |
| `FieldInfos` | field_info.dfy | src/cadenza/frame/FieldInfo.kt |
| `Interpreter` | interpreter.dfy | src/cadenza/interpreter.kt |
| `Parsers`, `ParseObjects` | parser.dfy | src/parser.kt (see below) |
| `Parsing` | parsing.dfy | parsing/main/parsing.kt: error texts, expectation lists, `Source.parse` |
| `Grammar`, `GrammarFacts` | grammar.dfy | src/cadenza/syntax/parser.kt |
| `Layout`, `PrettyObjects` | pretty.dfy | src/pretty.kt (see below) |

Two modules come in a pure and an object form:
- **Parsers.** `Parsers` gives each parser as a pure function from the input
  and a state (position and expectation chain) to an outcome and the next
  state. The class `ParseObjects.Parse` holds the same state in fields that
  its methods update in place, and each method is proved to do what the pure
  function says.
- **Pretty printer.** `Layout.Exec` gives the effect of running a document on
  the printer's fields. The class `PrettyObjects.Pretty` runs documents by
  updating those fields in place, and each method is proved against `Exec`.

Several boundaries become parameters:
- A Truffle call target is an `invoke` parameter, a function from the target
  and the argument list to an outcome.
- Exceptions are outcomes: a value, a stuck signal with a type and a neutral
  term, an unexpected-result signal carrying a value, or a fault.
- Recursion that the source leaves unbounded (evaluation, over-application
  chains) is bounded by a `fuel` parameter. Running out is an outcome of its
  own.

Where the source has a defect listed under "## Findings", the code as
written is kept in its own member (named `…AsWritten` or shown by a
counterexample lemma). The evaluators and the class forms are built on the
corrected definition:
- `Closures.Execute` validates its arguments with `Closures.ValidateArgs`,
  which folds the corrected `Values.Validate`, not
  `Closures.ValidateArgsAsWritten` (src/cadenza/types.kt:47). The two differ
  only on a parameter of arrow type, which as written is compared with the
  arrow's argument type and so refuses a closure of the right type
  (`Closures.ExecuteAcceptsWhatSourceRefuses`).
- `Closures.Execute`, `Closures.Apply` and the `App` case of `Code.Exec` call
  through `Closures.Call`, not `Closures.CallAsWritten`
  (src/cadenza/data/Closure.kt:87-92). The two differ only when a PAP is
  over-applied.
- `Code.Exec` enters the target of an exact-arity `App` with the environment
  and `papArgs` as well, as `Closure.call` does. As written, src/cadenza/jit/code.kt:99
  passes the operands alone (`Code.AppAsWritten`).
- `Interpreter.Eval` and `Interpreter.CallValue` under-apply with
  `Interpreter.Pap`, not `Interpreter.PapAsWritten` (src/cadenza/interpreter.kt:41).
- `Interpreter.Elab` brings parameters into scope with `Interpreter.Params`,
  not `Interpreter.ParamsAsWritten` (src/cadenza/interpreter.kt:92).
- `Layout.Exec`, and so `PrettyObjects.Pretty`, runs groups with `Layout.Grouped`,
  not `Layout.GroupedAsWritten` (src/pretty.kt:159-173). It runs `italic` with
  the delta of `Layout.ItalicAnn`, not that of `Layout.ItalicAsWritten`
  (src/pretty.kt:381).
- The grammar's `tok` runs the corrected `Parsers.String`, so a token may end
  the input. `Grammar.TokAsWritten` runs the `string` of src/parser.kt:71.
  It agrees with `tok` while input follows the token and refuses a token that
  ends the input, so as written the type `Nat` alone is not read
  (`GrammarFacts.TokAsWrittenRefusesFinalNat`).

Type inference is modelled as written. In `TApp.infer`
(src/cadenza/semantics/terms.kt:82) the cast `as Type.Arr?` of a type that is
not an arrow throws ClassCastException before its `?: throw TypeError("not a
fun type")` fallback can run. `Terms.InferRands` therefore fails with a
failed cast.

## Model

| member | source | states |
|---|---|---|
| Types.Arity | src/cadenza/types.kt:25-43 | the arity is zero exactly for non-arrows, and one more than the result's arity for an arrow |
| Types.Rep | src/cadenza/types.kt:42-75 | the slot-kind hint is Boolean exactly for `Bool`, Int exactly for `Nat`, and Object for every other type |
| Types.PeelArity | src/cadenza/types.kt:88-95 | stripping n result layers is defined exactly when n is at most the arity, and leaves arity minus n |
| Types.PeelAdd | src/cadenza/types.kt:90-95 | stripping a layers and then b layers is stripping a+b layers |
| Types.PeelStep | src/cadenza/types.kt:92-93 | one more turn of the loop strips one more arrow, or fails on a non-arrow |
| Types.NoPeelBeyond | src/cadenza/types.kt:92-93 | once the cast fails, every longer strip fails too |
| Types.After | src/cadenza/types.kt:88-95 | the loop of `after` returns the type with n arrows stripped when n is at most the arity, and a failed cast otherwise |
| Types.ArgumentAt | src/cadenza/types.kt:42-43 | the k-th curried argument type exists exactly when k is below the arity |
| Types.Match | src/cadenza/types.kt:31-35 | `match` succeeds iff the two types are equal, and otherwise raises `TypeError("type mismatch", actual, expected)` |
| Types.Arrows | src/cadenza/semantics/terms.kt:109-111 | the curried arrow over a list of argument types has their count added to the arity, takes them as its arguments in order, and strips back to the body type |
| Values.ClosureType | src/cadenza/data/Closure.kt:31 | a closure's type is its target type with one arrow stripped per partial argument, defined iff there are at most arity many |
| Values.ValidateArrowAsWritten | src/cadenza/types.kt:45-48 | as written: an arrow accepts exactly the closures whose whole type equals the arrow's argument type |
| Values.ValidateArrowAsWrittenRejectsExact | src/cadenza/types.kt:47 | as written, a closure whose type is exactly the arrow is always rejected |
| Values.ValidateArrowAsWrittenCounterexample | src/cadenza/types.kt:45-48 | the identity on `Nat` fails the as-written `Nat -> Nat` check and passes the corrected one |
| Values.Validate | src/cadenza/types.kt:45-80 | corrected: per type: `Obj` accepts everything; `Bool` only booleans; `UnitTy` only unit; `Nat` an Int ≥ 0 or a natural BigInt; `IO` is a todo error; an arrow accepts a closure whose type is that arrow |
| Values.ValidateAsWritten | src/cadenza/types.kt:45-80 | as the source dispatches `validate`: an arrow accepts exactly the closures whose type is the arrow's argument type; every other type checks as `Values.Validate` |
| Nbe.NApply | src/cadenza/data/nbe.kt:37-44 | applying a non-application wraps it in `NApp(n, args)`; applying an `NApp` keeps its operator and appends to its operands |
| Nbe.NApplyFlatten | src/cadenza/data/nbe.kt:44 | applying twice equals applying once to both operand lists, one after the other |
| Nbe.NAppEquality | src/cadenza/data/nbe.kt:45-50 | two applications are equal iff the operators are equal and the operand lists agree element by element |
| Nbe.Get | src/cadenza/data/nbe.kt:15 | `get` gives a `NeutralValue` with exactly the signal's type and term |
| Nbe.Raise | src/cadenza/data/nbe.kt:88 | `raise` gives the stuck signal with exactly the value's type and term |
| Nbe.RaiseGet | src/cadenza/data/nbe.kt:15-88 | `raise` and `get` are inverse to each other |
| Nbe.ThrowIfNeutralValue | src/cadenza/data/nbe.kt:91 | identity on non-neutral values; a neutral value is raised |
| Nbe.StuckApply | src/cadenza/data/nbe.kt:17-22 | applying a stuck signal to k operands is stuck again iff k is at most the arity: k arrows come off the type, and the operands are appended to the term; otherwise it is a failed cast |
| Nbe.ApplyStuck | src/cadenza/data/nbe.kt:17-22 | the cast loop of `NeutralException.apply` meets that specification |
| Nbe.ExecuteNeutral | src/cadenza/data/nbe.kt:68-77 | with at most arity arguments the loop returns a `NeutralValue` of the stripped type and applied term; otherwise `ArityException(arity, k)` |
| Nbe.ApplyNeutralValue | src/cadenza/data/nbe.kt:79-86 | `NeutralValue.apply` is `get` of the applied signal when the call is legal, and a failed cast otherwise |
| Closures.ArrayCopy | src/cadenza/data/Closure.kt:108-109 | the copy writes exactly the target range from the source and leaves the rest of the target alone |
| Closures.AppendL | src/cadenza/data/Closure.kt:106-111 | a fresh array of length xsSize+ysSize holding the two prefixes in order |
| Closures.Append | src/cadenza/data/Closure.kt:104 | a fresh array holding xs then ys |
| Closures.ConsAppendL | src/cadenza/data/Closure.kt:115-121 | a fresh array of length 1+xsSize+ysSize: x at index 0, then the two prefixes |
| Closures.ConsAppend | src/cadenza/data/Closure.kt:113 | x, then xs, then ys |
| Closures.Cons | src/cadenza/data/Closure.kt:123-129 | x followed by all of xs |
| Closures.ConsTake | src/cadenza/data/Closure.kt:132-137 | x followed by the first n elements of xs |
| Closures.Drop | src/cadenza/data/Closure.kt:140-144 | xs without its first k elements |
| Closures.EnvPrefix | src/cadenza/data/Closure.kt:84 | the environment is passed as one leading argument exactly when present |
| Closures.Pap | src/cadenza/data/Closure.kt:98-101 | a PAP keeps env, target and target type, appends the new arguments to `papArgs` in order, lowers the arity by their count, and keeps the construction invariants |
| Closures.PapType | src/cadenza/data/Closure.kt:31-101 | a PAP's type is the closure's type with one more arrow stripped per new argument |
| Closures.CallAsWritten | src/cadenza/data/Closure.kt:80-94 | as written: below the arity the PAP of the new arguments; at the arity one call of the target with env, papArgs and ys; above it a call of the target with env and the first `arity` elements of papArgs ++ ys, the rest of papArgs ++ ys left over |
| Closures.CallDirectWith | src/cadenza/data/Closure.kt:63-77 | `callDirectWith` through a node on the closure's own target follows the same three-way rule as `call` |
| Closures.Call | src/cadenza/data/Closure.kt:80-94 | corrected call: a PAP below the arity; at the arity one call with env, papArgs, ys; above it one call with env, papArgs and the first arity new arguments, whose result is applied to the rest |
| Closures.CallLaysOutRootArguments | src/cadenza/data/Closure.kt:33-94 | a saturating call of a well-formed closure passes the env iff the body is a super-combinator, then exactly the body's arity in arguments, losing and reordering none |
| Closures.CallAgreesWithAsWritten | src/cadenza/data/Closure.kt:80-94 | the corrected and the as-written call rules give the same step at or below the arity, and for a closure holding no PAP arguments |
| Closures.CallAsWrittenCounterexample | src/cadenza/data/Closure.kt:88-91 | over-applying a PAP of a 2-ary closure hands the body one argument instead of two as written, and the right two when corrected |
| Closures.PapThenCall | src/cadenza/data/Closure.kt:80-101 | calling a PAP of c with b is calling c with the PAP's arguments followed by b, in every one of the three cases |
| Closures.ValidateArgs | src/cadenza/data/Closure.kt:57 | corrected: the fold succeeds iff every argument validates against its successive arrow argument type, and ends at the stripped type |
| Closures.ValidateArgsAsWritten | src/cadenza/data/Closure.kt:57 | as written: the fold succeeds iff every argument passes the source's `validate` against its successive argument type, and ends at the stripped type |
| Closures.ValidateArgsAgreeOffArrows | src/cadenza/data/Closure.kt:57 | when no parameter has an arrow type, the corrected and the as-written folds accept the same arguments |
| Closures.ExecuteAcceptsWhatSourceRefuses | src/cadenza/data/Closure.kt:53-60 | `f : (Nat -> Nat) -> Nat` executed with the identity on Nat succeeds in the model, while the fold as written refuses it as a wrong closure type |
| Closures.Execute | src/cadenza/data/Closure.kt:53-60 | corrected validation and call: more arguments than the closure type's arity is `ArityException(maxArity, len)`; otherwise it succeeds iff every argument passes the corrected `validate`, and then it is the corrected call, which is the call as written unless a PAP is over-applied |
| Closures.Apply | src/cadenza/data/Closure.kt:80-94 | a whole call: below the arity the PAP as a value; at the arity exactly the one target invocation |
| Closures.OverApplication | src/cadenza/data/Closure.kt:87-92 | over-application is the exact call on the first arity arguments, and then applying its result to the rest |
| Closures.ApplyPap | src/cadenza/data/Closure.kt:80-101 | calling a PAP with b is calling the closure with a ++ b |
| Closures.ApplyNoTagMiss | src/cadenza/data/Closure.kt:87-92 | if no target ever raises an unexpected-result signal, then no whole call does either, over-application chains included |
| BigInts.BitLengthRange | src/cadenza/data/BigInt.kt:45-57 | `bitLength < k` holds exactly on the signed k-bit range from -2^(k-1) up to, not including, 2^(k-1) |
| BigInts.FitsInByte | src/cadenza/data/BigInt.kt:45 | true exactly on [-128, 128) |
| BigInts.FitsInShort | src/cadenza/data/BigInt.kt:49 | true exactly on [-2^15, 2^15), and implied by fitting in a byte |
| BigInts.FitsInInt | src/cadenza/data/BigInt.kt:53 | true exactly on [-2^31, 2^31), and implied by fitting in a short |
| BigInts.FitsInLong | src/cadenza/data/BigInt.kt:57 | true exactly on [-2^63, 2^63), and implied by fitting in an int |
| BigInts.FitsInFloat | src/cadenza/data/BigInt.kt:13-61 | true exactly on [-(2^24-1), 2^24-1]; it implies fitting in an int |
| BigInts.FitsInDouble | src/cadenza/data/BigInt.kt:12-65 | true exactly on [-(2^53-1), 2^53-1]; it implies fitting in a long |
| BigInts.AsByte | src/cadenza/data/BigInt.kt:70 | returns the value exactly when it fits in a byte, and `UnsupportedMessageException` otherwise |
| BigInts.AsShort | src/cadenza/data/BigInt.kt:75 | returns the value exactly when it fits in a short, and `UnsupportedMessageException` otherwise |
| BigInts.AsInt | src/cadenza/data/BigInt.kt:80 | returns the value exactly when it fits in an int, and `UnsupportedMessageException` otherwise |
| BigInts.AsLong | src/cadenza/data/BigInt.kt:85 | returns the value exactly when it fits in a long, and `UnsupportedMessageException` otherwise |
| BigInts.IsNatural | src/cadenza/data/BigInt.kt:30 | true exactly for values ≥ 0 |
| BigInts.IsNumber | src/cadenza/data/BigInt.kt:28 | interop `isNumber` is true exactly on the 64-bit signed range |
| BigInts.CompareTo | src/cadenza/data/BigInt.kt:33 | the result is -1, 0 or 1; negative iff less; zero iff the two values are equal |
| BigInts.CompareToOrder | src/cadenza/data/BigInt.kt:23-33 | the order is antisymmetric and transitive, as `Comparable` requires |
| Code.Expect | src/cadenza/jit/code.kt:39-57 | `executeAny` turns a stuck signal into its NeutralValue and is never stuck; a typed variant passes a value of its tag and signals a tag miss for any other value; a returned value always carries the requested tag; failures pass through |
| Code.Exec | src/cadenza/jit/code.kt:31-309 | one evaluator for every `execute*` variant of every node, with closure calls through the corrected call rule; what it computes is stated node by node by `Code.AppOfClosure`, `Code.AppOfStuck`, `Code.AppOfNonClosure`, `Code.IfSelects`, `Code.IfPanics`, `Code.IfStuck`, `Code.ArgVariants`, `Code.AnnTransparent`, `Code.Literals` and `Code.CallBuiltinStuck`, and across variants by `Code.AnyIsExecute` and `Code.TypedAgrees` |
| Code.Branch | src/cadenza/jit/code.kt:143-150 | `If.branch`: the condition's `executeBoolean`; a tag miss panics with "non-boolean branch", and a stuck condition is stuck on `NIf` over both branches (`Code.BranchSignals`, `Code.IfSelects`, `Code.IfPanics`, `Code.IfStuck`) |
| Code.ExecAll | src/cadenza/jit/code.kt:87 | on success, one value per operand |
| Code.ExecArgs | src/cadenza/jit/code.kt:232-249 | on success, one value per argument of the builtin call |
| Code.CaptureEnv | src/cadenza/jit/code.kt:187-192 | no frame without a descriptor; otherwise a frame with exactly that descriptor |
| Code.BuildSteps | src/cadenza/jit/code.kt:190 | the capture steps keep every slot already written and write each step's slot |
| Code.ExecSignals | src/cadenza/jit/code.kt:36-57 | when no call target signals a tag miss: `execute` never does either, `executeAny` only returns or fails, and every returned value carries the requested tag |
| Code.ExecAllSignals | src/cadenza/jit/code.kt:87 | evaluating operands with `executeAny` can only fail, never get stuck or miss a tag |
| Code.ExecArgsSignals | src/cadenza/jit/code.kt:232-249 | evaluating a builtin's arguments stops only on a stuck signal or a failure |
| Code.BranchSignals | src/cadenza/jit/code.kt:143-150 | the branch decision stops only on a stuck signal or a failure |
| Code.CaptureEnvSignals | src/cadenza/jit/code.kt:187-192 | environment capture can only fail |
| Code.BuildStepsSignals | src/cadenza/jit/code.kt:190 | the capture steps can only fail |
| Code.AnyIsExecute | src/cadenza/jit/code.kt:39-45 | `executeAny` of every node is `execute` with a stuck signal turned into its NeutralValue |
| Code.TypedAgrees | src/cadenza/jit/code.kt:47-54 | the typed variants agree with `execute` whenever they are stuck or fail, and `executeBoolean`/`executeClosure` also when they return |
| Code.ExecAllPointwise | src/cadenza/jit/code.kt:87 | operand evaluation succeeds with `vals` iff every operand's `executeAny` returns the value at its index |
| Code.AppOfClosure | src/cadenza/jit/code.kt:89-107 | with a closure operator and returning operands: a PAP below the arity; at the arity the target entered with env, PAP arguments and operands; above it the exact call and then applying its result to the rest |
| Code.AppOfStuck | src/cadenza/jit/code.kt:95-96 | a stuck operator makes the application stuck on `NApp` with one arrow peeled per operand while the type has arrows left, and a failed cast beyond them |
| Code.AppOfNonClosure | src/cadenza/jit/code.kt:93-94 | an operator that is neither a closure nor stuck panics with "closure expected" |
| Code.AppAsWritten | src/cadenza/jit/code.kt:98-99 | as written, the exact-arity branch enters the target with only the operands |
| Code.AppAsWrittenAgreesOnPlainClosures | src/cadenza/jit/code.kt:98-99 | for a closure without env or PAP arguments the as-written branch agrees with the calling convention |
| Code.AppAsWrittenCounterexample | src/cadenza/jit/code.kt:98-100 | a PAP of a two-argument body applied to its last argument enters the body with one argument as written and with two under the calling convention |
| Code.IfSelects | src/cadenza/jit/code.kt:152-165 | a boolean condition selects the branch, run in the same variant |
| Code.IfPanics | src/cadenza/jit/code.kt:146-147 | a non-boolean condition panics with "non-boolean branch" in every variant |
| Code.IfStuck | src/cadenza/jit/code.kt:148-149 | a stuck condition makes the `if` stuck on `NIf` over both branches' `executeAny` values at the `if`'s own type; `executeAny` returns that as a NeutralValue |
| Code.ArgVariants | src/cadenza/jit/code.kt:115-129 | an index past the arguments fails with "insufficient arguments"; `executeAny` returns the argument; `execute` raises a NeutralValue argument and returns any other |
| Code.UnitDiscards | src/cadenza/jit/code.kt:57 | `executeUnit` is `execute` with the value dropped |
| Code.AnnTransparent | src/cadenza/jit/code.kt:217-226 | every variant of an annotation node is that variant of its body |
| Code.Literals | src/cadenza/jit/code.kt:279-309 | `executeInteger` of a big literal returns its Int exactly when it fits in an int; integer and boolean literals return their value in their own variant and signal a tag miss in the other |
| Code.CallBuiltinStuck | src/cadenza/jit/code.kt:236-249 | a builtin call that gets stuck, in its arguments or in the builtin, is stuck on `NCallBuiltin` at the call's type, and `executeAny` returns that as a NeutralValue |
| Code.MakeLamAsWritten | src/cadenza/jit/code.kt:337-347 | as written, the factory accepts exactly a positive arity with capture steps iff the target is a super-combinator, and gives a frame descriptor iff there are no capture steps |
| Code.MakeLam | src/cadenza/jit/code.kt:337-347 | the same acceptance; the node keeps its steps, arity, target and type, and has a frame descriptor iff the target is a super-combinator |
| Code.MakeLamBuildsWellFormed | src/cadenza/jit/code.kt:183-192 | a node from the corrected factory builds a well-formed closure with no PAP arguments and the given arity |
| Code.MakeLamAsWrittenCounterexample | src/cadenza/jit/code.kt:341-342 | as written, a non-capturing body gets a frame, so its closure carries an env it must not have |
| Envs.FindFirstMatch | src/cadenza/semantics/env.kt:10-17 | lookup succeeds exactly for bound names, returns the value of the first (head-most) cell with that name, and otherwise raises "unknown variable" |
| Envs.FindShadow | src/cadenza/semantics/env.kt:13 | a cell binding the name hides every cell behind it |
| Envs.FindSkip | src/cadenza/semantics/env.kt:12-14 | a head cell with another name is skipped |
| Envs.Lookup | src/cadenza/semantics/env.kt:10-17 | the loop of `lookup` returns the first match, and the error otherwise |
| Envs.Find | src/cadenza/semantics/env.kt:10-17 | what `lookup` computes: the head-most cell with the name, or `TypeError` (`Envs.FindFirstMatch`, `Envs.FindShadow`, `Envs.FindSkip`, and `Envs.Lookup` for the loop) |
| Terms.Union | src/cadenza/semantics/terms.kt:61 | set union in insertion order: the elements of both, the left operand kept as a prefix, no duplicates introduced |
| Terms.Minus | src/cadenza/semantics/terms.kt:107 | set difference: the elements not removed, order kept, no duplicates introduced |
| Terms.Fvs | src/cadenza/semantics/terms.kt:25-183 | the free-variable list never lists a name twice |
| Terms.FvsAll | src/cadenza/semantics/terms.kt:77 | the flattened operand variables are exactly those free in some operand from index i on |
| Terms.FvsCases | src/cadenza/semantics/terms.kt:39-183 | per term: a variable is free in itself; `if` and application take the union; a lambda removes its parameters; `let` removes its name from value and body; a literal has none |
| Terms.Check | src/cadenza/semantics/terms.kt:26-35 | `check` succeeds iff inference gives exactly the expected type, and otherwise reports the mismatch or the inference error |
| Terms.Infer | src/cadenza/semantics/terms.kt:38-187 | `infer` of each kind of term; stated per kind by `Terms.IfTyping`, `Terms.AppTyping`, `Terms.LamTyping`, `Terms.LitNatTyping`, `Terms.LetIgnoresDeclaredType` and `Terms.NonFunctionApplied` |
| Terms.InferRands | src/cadenza/semantics/terms.kt:81-86 | the operand loop of `TApp.infer`, failing with a failed cast on an operator type that is not an arrow (`Terms.InferRandsTyping`, `Terms.NonFunctionApplied`) |
| Terms.NonFunctionApplied | src/cadenza/semantics/terms.kt:79-83 | applying an operator whose type is not an arrow to an operand is a ClassCastException, never `TypeError("not a fun type")`; `1 2` is such a term |
| Terms.Extend | src/cadenza/semantics/terms.kt:109 | the fold consing each parameter onto the context (`Terms.ExtendShadows`, `Terms.ExtendMisses`) |
| Terms.IfTyping | src/cadenza/semantics/terms.kt:63-67 | an `if` has type ty iff its condition is `Bool` and both branches have type ty |
| Terms.InferRandsTyping | src/cadenza/semantics/terms.kt:81-87 | the operands from index i on type-check iff each fits the successive arrow argument, and the result is what remains after one arrow per operand |
| Terms.AppTyping | src/cadenza/semantics/terms.kt:79-88 | an application is typed iff the operator is, each operand fits its arrow argument, and there are no more operands than arrows; its type is the rest |
| Terms.ExtendShadows | src/cadenza/semantics/terms.kt:109 | in the lambda's context a parameter name resolves to its last occurrence |
| Terms.ExtendMisses | src/cadenza/semantics/terms.kt:109 | a name that is not a parameter resolves as in the enclosing context |
| Terms.LamTyping | src/cadenza/semantics/terms.kt:108-111 | a lambda is typed iff its body is under the extended context; its type takes the parameter types in order and returns the body's type |
| Terms.LetIgnoresDeclaredType | src/cadenza/semantics/terms.kt:167-170 | `let x: Bool = 1 in x` is typed `Bool` although the value is a `Nat`: the declared type is never compared with the value's |
| Terms.LitNatTyping | src/cadenza/semantics/terms.kt:184-186 | a literal ≥ 0 has type `Nat`; a negative one is refused with "expected nat" |
| Terms.LastIndex | src/cadenza/semantics/terms.kt:125 | `indexOfLast`: the last index holding x, or -1 iff x is absent |
| Terms.StepsFollowPlan | src/cadenza/semantics/terms.kt:124-135 | each loop step writes exactly one preamble entry for its body slot, either from the environment or from an argument, as the plan says |
| Terms.PreambleLengths | src/cadenza/semantics/terms.kt:124-135 | after k steps the env preamble has one entry per captured name, and the two preambles together have k entries |
| Terms.EnvPreambleFollows | src/cadenza/semantics/terms.kt:127-131 | every env-preamble entry fills a visited body slot from the closure slot the plan assigns |
| Terms.ArgPreambleFollows | src/cadenza/semantics/terms.kt:132-133 | every argument-preamble entry fills a visited body slot from the parameter's last index, shifted by one when the closure captures |
| Terms.PreamblesFollowPlan | src/cadenza/semantics/terms.kt:124-135 | every body slot is filled exactly once: a captured name from the next closure slot, a parameter from its last argument index |
| Terms.CapturesIffEnvPreamble | src/cadenza/semantics/terms.kt:122-139 | the closure captures iff some free variable is not a parameter |
| Terms.PlanAdvance | src/cadenza/semantics/terms.kt:124-133 | one more free variable extends the capture list and exactly one of the two preambles, by the entry the plan gives it |
| Terms.PlanStep | src/cadenza/semantics/terms.kt:125-133 | one turn of the loop takes the plan for the first k free variables to the plan for the first k+1 |
| Terms.PlanSlots | src/cadenza/semantics/terms.kt:123-134 | the loop over the free variables builds the capture list and both preambles the plan describes |
| Terms.CompileLam | src/cadenza/semantics/terms.kt:114-139 | `compile` plans the slots: the closure captures iff a free variable is not a parameter, iff the environment preamble is non-empty; the capture list and both preambles are as planned |
| Builtins.BuiltinType | src/cadenza/jit/builtin.kt:76-163 | each builtin's declared type has exactly the builtin's own arity in arrows |
| Builtins.Wrap32 | src/cadenza/jit/builtin.kt:106 | 32-bit two's-complement wrap-around: congruent to its input modulo 2^32, and the identity inside the Int range |
| Builtins.TruncRem | src/cadenza/jit/builtin.kt:96 | Kotlin `rem`: quotient times divisor plus remainder is the dividend, the remainder is smaller than the divisor in magnitude, and a non-zero remainder has the dividend's sign |
| Builtins.TruncDiv | src/cadenza/jit/builtin.kt:101 | Kotlin `div`, truncating toward zero (`Builtins.TruncDivInRange`, `Builtins.DivModTruncate`) |
| Builtins.ExactOrBig | src/cadenza/jit/builtin.kt:87-92 | an exact operation returns the mathematical result, as an Int exactly when both operands are Ints and the result fits, and as a BigInt otherwise |
| Builtins.Binary | src/cadenza/jit/builtin.kt:76-121 | a two-argument builtin either returns a primitive, or refuses operands that are not primitives with an unsupported-specialization error |
| Builtins.PlusMinusExact | src/cadenza/jit/builtin.kt:87-121 | `plus` and `minus` return the exact sum and difference, staying Int exactly when both operands are Ints and the result fits |
| Builtins.MinusLeavesNat | src/cadenza/jit/builtin.kt:110-115 | `minus 1 2` is -1: the result is never checked to be natural |
| Builtins.TruncDivInRange | src/cadenza/jit/builtin.kt:101 | the truncated quotient of two Ints is an Int, except for MinInt / -1 |
| Builtins.MultWraps | src/cadenza/jit/builtin.kt:106 | `mult` on Ints always returns, congruent to the product modulo 2^32 |
| Builtins.DivModTruncate | src/cadenza/jit/builtin.kt:94-102 | `div` and `mod` raise on a zero divisor, and otherwise satisfy q*y + r == x (MinInt / -1 aside) |
| Builtins.SelfClosure | src/cadenza/jit/builtin.kt:148-151 | the fixpoint's self closure is a well-formed 1-ary `Nat -> Nat` closure, without env or PAP arguments, over the `FixNatF1` builtin for the same f |
| Builtins.Run | src/cadenza/jit/builtin.kt:18-74 | running a builtin on fewer arguments than its arity is an index error |
| Builtins.RunNoTagMiss | src/cadenza/jit/builtin.kt:36-62 | when no call target signals a tag miss, running a builtin does not either |
| Builtins.RunRoutes | src/cadenza/jit/builtin.kt:43-51 | a two-argument builtin reads only `args[0]` and `args[1]` |
| Builtins.FixUnfolds | src/cadenza/jit/builtin.kt:136-159 | `fixNatF f x` is f applied to the self closure and x, and `FixNatF1(f) x` is `fixNatF f x` |
| Builtins.PrintIdIdentity | src/cadenza/jit/builtin.kt:163-167 | `printId` returns its argument unchanged |
| Builtins.InitialCtxCells | src/cadenza/jit/builtin.kt:170-182 | the fold leaves the last listed builtin at the head: the initial context, cell by cell |
| Builtins.FoldAbsent | src/cadenza/jit/builtin.kt:180-182 | names that no binding uses resolve as in the starting context |
| Builtins.FoldFind | src/cadenza/jit/builtin.kt:180-182 | with distinct names, each binding resolves to its own builtin |
| Builtins.InitialCtxBindings | src/cadenza/jit/builtin.kt:170-182 | every builtin name in the initial context resolves to its own type and builtin |
| Builtins.InitialCtx | src/cadenza/jit/builtin.kt:170-182 | `initialCtx`, the fold over the nine bindings (`Builtins.InitialCtxCells`, `Builtins.InitialCtxBindings`) |
| FrameBuilders.FrameDescriptor.constructor | src/cadenza/jit/frame_builder.kt:31 | a fresh descriptor has no slot kinds set: every slot is Illegal |
| FrameBuilders.BuildFrame.constructor | src/cadenza/jit/frame_builder.kt:24 | a fresh frame has no slots written |
| FrameBuilders.FrameBuilder.constructor | src/cadenza/jit/frame_builder.kt:18-21 | a builder keeps its slot and right-hand side, with both specializations still in place |
| FrameBuilders.FrameBuilder.AllowsSlotKind | src/cadenza/jit/frame_builder.kt:30-37 | an Illegal slot is promoted to the kind and passes; any other slot passes iff it already has that kind and is left alone |
| FrameBuilders.FrameBuilder.BuildBoolean | src/cadenza/jit/frame_builder.kt:47-61 | a boolean result is stored and returned; a stuck one stores its NeutralValue and returns false; a tag miss stores the exception object and asks for a rewrite; a failure stores nothing |
| FrameBuilders.FrameBuilder.BuildInteger | src/cadenza/jit/frame_builder.kt:66-80 | the same protocol with `executeInteger`, returning 0 when stuck |
| FrameBuilders.FrameBuilder.BuildObject | src/cadenza/jit/frame_builder.kt:84-88 | the fallback stores and returns what `executeAny` returns; a failure stores nothing |
| FrameBuilders.FrameBuilder.TryBoolean | src/cadenza/jit/frame_builder.kt:44-61 | the Boolean specialization runs iff its guard passes; a tag miss removes it and leaves the exception in the slot |
| FrameBuilders.FrameBuilder.TryInteger | src/cadenza/jit/frame_builder.kt:63-80 | the Int specialization runs iff its guard passes; a tag miss removes it and leaves the exception in the slot |
| FrameBuilders.FrameBuilder.Execute | src/cadenza/jit/frame_builder.kt:24-88 | the dispatch never ends in a rewrite; it fixes the slot kind as its first passing guard does; it writes only its own slot; what it stores agrees with `executeAny`, except for an Int slot whose Int specialization is still in place, which holds the `executeInteger` value; an Int slot whose Int specialization was dropped holds the `executeAny` value the fallback stores |
| FrameBuilders.FrameBuilder.DispatchAfterBoolean | src/cadenza/jit/frame_builder.kt:63-88 | the rest of the dispatch, Int then the fallback, has the same guarantees, including the `executeAny` value in an Int slot once the Int specialization is dropped |
| FrameBuilders.SpecializedAgreesWithAny | src/cadenza/jit/frame_builder.kt:47-88 | what the Boolean and Int specializations store agrees with `executeAny`: the same value, or the NeutralValue for a stuck one |
| FrameBuilders.FreshSlotBecomesBoolean | src/cadenza/jit/frame_builder.kt:30-47 | a fresh builder on a fresh slot always takes the Boolean guard first: the slot becomes Boolean whatever the value turns out to be, and the value is stored |
| ArrayMappedFrames.PrefixCountsBelow | src/cadenza/frame/ArrayMappedDataFrame.kt:10 | `prefix` counts exactly the set bits of the mask below the slot's bit |
| ArrayMappedFrames.IsaBit | src/cadenza/frame/ArrayMappedDataFrame.kt:8-9 | `mask isa m` tests the slot's bit of m |
| ArrayMappedFrames.IntObjectComplement | src/cadenza/frame/ArrayMappedDataFrame.kt:26-28 | every slot is an int slot or an object slot, never both |
| ArrayMappedFrames.IsInteger | src/cadenza/frame/ArrayMappedDataFrame.kt:27 | `isInteger`: the slot's bit of the int mask (`ArrayMappedFrames.IntObjectComplement`) |
| ArrayMappedFrames.IsObject | src/cadenza/frame/ArrayMappedDataFrame.kt:28 | `isObject`: the slot's bit of the object mask (`ArrayMappedFrames.IntObjectComplement`) |
| ArrayMappedFrames.GetValue | src/cadenza/frame/ArrayMappedDataFrame.kt:29-32 | `getValue`: `adata` or `idata` at the slot's rank (`ArrayMappedFrames.GetValueRank`, `ArrayMappedFrames.DenseReadsSucceed`) |
| ArrayMappedFrames.GetValueRank | src/cadenza/frame/ArrayMappedDataFrame.kt:29-32 | an object slot is read from `adata` at the number of object slots below it; any other slot from `idata` at the number of int slots below it |
| ArrayMappedFrames.GetInteger | src/cadenza/frame/ArrayMappedDataFrame.kt:34-37 | object slots are refused; other slots read what `getValue` reads |
| ArrayMappedFrames.GetObjectAsWritten | src/cadenza/frame/ArrayMappedDataFrame.kt:39-42 | as written, int slots are refused |
| ArrayMappedFrames.GetObjectAsWrittenRank | src/cadenza/frame/ArrayMappedDataFrame.kt:41 | as written, an object slot is read from `idata` at its rank among object slots |
| ArrayMappedFrames.GetObject | src/cadenza/frame/ArrayMappedDataFrame.kt:39-42 | corrected: int slots are refused; object slots read what `getValue` reads |
| ArrayMappedFrames.GetWide | src/cadenza/frame/ArrayMappedDataFrame.kt:44-48 | the Double, Float and Long getters always refuse |
| ArrayMappedFrames.IsWide | src/cadenza/frame/ArrayMappedDataFrame.kt:45-49 | `isDouble`, `isFloat` and `isLong` are always false |
| ArrayMappedFrames.DenseReadsSucceed | src/cadenza/frame/ArrayMappedDataFrame.kt:21-42 | in a frame whose arrays hold exactly the slots of each kind, every read succeeds, and the typed getters agree with `getValue` |
| ArrayMappedFrames.DenseHolds64 | src/cadenza/frame/ArrayMappedDataFrame.kt:21-26 | such a frame stores the 64 slots exactly once across its two arrays |
| ArrayMappedFrames.GetObjectAsWrittenCounterexample | src/cadenza/frame/ArrayMappedDataFrame.kt:41 | with slot 0 the only object slot, `getObject(0)` as written answers an int from `idata`, while `getValue` and the corrected getter answer the object |
| SimpleFrames.Size | src/cadenza/frame/SimpleDataFrame.kt:7 | the size is the number of slots |
| SimpleFrames.GetValue | src/cadenza/frame/SimpleDataFrame.kt:6 | defined exactly for indices inside the array, and then the slot's contents |
| SimpleFrames.GetInteger | src/cadenza/frame/SimpleDataFrame.kt:15 | `getInteger`, the tagged getter for Int (`SimpleFrames.GetTaggedMeaning`) |
| SimpleFrames.GetLong | src/cadenza/frame/SimpleDataFrame.kt:18 | `getLong`, the tagged getter for Long (`SimpleFrames.GetTaggedMeaning`) |
| SimpleFrames.GetFloat | src/cadenza/frame/SimpleDataFrame.kt:12 | `getFloat`, the tagged getter for Float (`SimpleFrames.GetTaggedMeaning`) |
| SimpleFrames.GetDouble | src/cadenza/frame/SimpleDataFrame.kt:9 | `getDouble`, the tagged getter for Double (`SimpleFrames.GetTaggedMeaning`) |
| SimpleFrames.GetObject | src/cadenza/frame/SimpleDataFrame.kt:20 | `getObject` (`SimpleFrames.GetObjectMeaning`) |
| SimpleFrames.IsObject | src/cadenza/frame/SimpleDataFrame.kt:21 | `isObject` (`SimpleFrames.IsObjectAgreesWithGet`) |
| SimpleFrames.GetTaggedMeaning | src/cadenza/frame/SimpleDataFrame.kt:9-18 | a typed getter returns the slot exactly when it holds that class; other slots are a slot-type error, and indices outside the array an index error |
| SimpleFrames.IsAgreesWithGet | src/cadenza/frame/SimpleDataFrame.kt:10-16 | `isInteger`, `isFloat` and `isDouble` are true exactly when the matching getter succeeds |
| SimpleFrames.GetObjectMeaning | src/cadenza/frame/SimpleDataFrame.kt:20-23 | `getObject` succeeds iff the slot is non-null and not an Int, Long, Float or Double |
| SimpleFrames.IsObjectAgreesWithGet | src/cadenza/frame/SimpleDataFrame.kt:20-23 | `isObject` is true exactly when `getObject` would succeed |
| SimpleFrames.AtMostOneHolds | src/cadenza/frame/SimpleDataFrame.kt:10-23 | no slot answers true to two of the `is*` tests, and a null or Long slot answers false to all four |
| FieldInfos.Signature | src/cadenza/frame/FieldInfo.kt:8-54 | the signature is the one-character code, except the object class descriptor for objects |
| FieldInfos.Of | src/cadenza/frame/FieldInfo.kt:18-25 | `of` decodes exactly the codes I, F, O, L and D, to the field with that code, and panics with "unknown field type" otherwise |
| FieldInfos.From | src/cadenza/frame/FieldInfo.kt:26-32 | Int, Float, Long and Double values get their own field; everything else is an object field |
| FieldInfos.OfSig | src/cadenza/frame/FieldInfo.kt:18-25 | decoding a field's own code gives the field back |
| FieldInfos.ExactlyOneFlag | src/cadenza/frame/FieldInfo.kt:12-69 | every field has exactly one `is*` flag, the one of its own kind |
| Interpreter.Captures | src/cadenza/interpreter.kt:26 | the captured values are `env` at each capture index, in order; an index outside the environment fails |
| Interpreter.Eval | src/cadenza/interpreter.kt:25-31 | `Expr.eval`, bounded by fuel, with the corrected `Pap`; stated by `Interpreter.EvalLam`, `Interpreter.EvalIf`, `Interpreter.EvalAllPointwise`, `Interpreter.ElabVarEval` and `Interpreter.EvalBinaryApp` |
| Interpreter.EvalAll | src/cadenza/interpreter.kt:28 | the arguments evaluated left to right, the first failure winning (`Interpreter.EvalAllPointwise`) |
| Interpreter.CallValue | src/cadenza/interpreter.kt:38-74 | `call` and both `Callable.call`s: under-, exact and over-application, with the corrected `Pap` (`Interpreter.PapThenCall`, `Interpreter.OverApplication`, `Interpreter.BuiltinPapThenCall`, `Interpreter.BuiltinOverApplication`) |
| Interpreter.CallBuiltin | src/cadenza/interpreter.kt:65-84 | `callBuiltin` and `FixNatF1.execute` (`Interpreter.FixUnfolds`, `Interpreter.BinaryRefusesClosures`) |
| Interpreter.Lower | src/cadenza/interpreter.kt:83 | what a builtin sees of an argument: a primitive as itself, anything else as an object it refuses (`Interpreter.BinaryRefusesClosures`) |
| Interpreter.PapAsWritten | src/cadenza/interpreter.kt:41 | as written, an under-applied closure waits for the remaining arity with the new arguments put in front of its environment |
| Interpreter.Pap | src/cadenza/interpreter.kt:41 | corrected: the under-applied closure waits for the remaining arity, keeping the arguments in the order given |
| Interpreter.PapAsWrittenSwapsArguments | src/cadenza/interpreter.kt:40-41 | a two-argument closure returning its first parameter gives 1 when applied to 1 and 2 at once, 2 when applied to 1 and then 2 as written, and 1 when corrected |
| Interpreter.EvalAllPointwise | src/cadenza/interpreter.kt:28 | the arguments evaluate exactly when each does, to their values in order |
| Interpreter.EvalIf | src/cadenza/interpreter.kt:29 | `If` runs exactly the branch its boolean condition picks; a non-primitive condition is a cast failure |
| Interpreter.EvalLam | src/cadenza/interpreter.kt:26 | a lambda evaluates to a closure of its arity over the captured values, with nothing applied |
| Interpreter.PapThenCall | src/cadenza/interpreter.kt:38-46 | applying a partial application to more arguments is applying the closure to all of them at once |
| Interpreter.BuiltinPapThenCall | src/cadenza/interpreter.kt:50-56 | an under-applied builtin keeps its arguments, and adding more later is one call with all of them |
| Interpreter.OverApplication | src/cadenza/interpreter.kt:42-45 | over-application applies the result of the exact call to the remaining arguments |
| Interpreter.BuiltinOverApplication | src/cadenza/interpreter.kt:57-60 | the same for builtins once the collected arguments exceed the arity |
| Interpreter.FixUnfolds | src/cadenza/interpreter.kt:65-82 | `fixNatF f x` calls f with the step `fix f` and x, and the step applied to y does the same with y |
| Interpreter.BinaryRefusesClosures | src/cadenza/interpreter.kt:78-84 | the arithmetic builtins refuse closure arguments |
| Interpreter.Fvs | src/cadenza/interpreter.kt:125-131 | the free indices are listed without repeats |
| Interpreter.FvsExact | src/cadenza/interpreter.kt:125-131 | `fvs` lists exactly the indices free in the expression, a lambda's being its captures |
| Interpreter.FvsAllExact | src/cadenza/interpreter.kt:128 | the flattened argument indices are exactly those free in some argument |
| Interpreter.IndexOfFirst | src/cadenza/interpreter.kt:88 | `indexOfFirst` gives the first position holding x, and -1 exactly when x is absent |
| Interpreter.AtLeast | src/cadenza/interpreter.kt:134 | the filter keeps exactly the indices ≥ n, without introducing repeats |
| Interpreter.Shift | src/cadenza/interpreter.kt:135 | every index is lowered by n, position by position, without introducing repeats |
| Interpreter.Subst | src/cadenza/interpreter.kt:138-146 | a successful renaming keeps the size of the expression; the only failure is an index outside a captures array |
| Interpreter.SubstAll | src/cadenza/interpreter.kt:143 | the same for an argument list, which keeps its length |
| Interpreter.MkLam | src/cadenza/interpreter.kt:133-136 | `lam` gives a lambda of arity n, one node larger than the body, whose captures are the body's free indices ≥ n shifted down by n |
| Interpreter.MkLamCaptures | src/cadenza/interpreter.kt:133-136 | the captures are exactly the body's free indices beyond the parameters, shifted down, each once, and they are the lambda's own free indices |
| Interpreter.ShiftAtLeast | src/cadenza/interpreter.kt:134-135 | shifting the indices ≥ n down by n gives exactly the x ≥ 0 with x+n free, each once |
| Interpreter.SubstScoped | src/cadenza/interpreter.kt:138-146 | renaming a well-scoped expression with a renaming defined on its free indices succeeds, stays well scoped, and frees only images of free indices |
| Interpreter.SubstLamScoped | src/cadenza/interpreter.kt:139-141 | the lambda case: the body renamed under the lambda and converted again keeps these guarantees |
| Interpreter.UnderDefinedOnBody | src/cadenza/interpreter.kt:140 | under a well-scoped lambda, the inner renaming is defined on every free index of the body |
| Interpreter.FreeThroughUnder | src/cadenza/interpreter.kt:140 | a free index of the renamed body beyond the parameters comes from a capture that the outer renaming maps |
| Interpreter.SubstAllScoped | src/cadenza/interpreter.kt:143 | the argument-list case of the renaming guarantees |
| Interpreter.MkLamScoped | src/cadenza/interpreter.kt:133-136 | converting a well-scoped body succeeds and gives a well-scoped lambda whose free indices are the body's beyond the parameters, shifted down |
| Interpreter.ParamsAsWritten | src/cadenza/interpreter.kt:92 | as written, every parameter is visible under its name, in order |
| Interpreter.Params | src/cadenza/interpreter.kt:92 | corrected: a parameter repeated later in the list is hidden |
| Interpreter.ElabAll | src/cadenza/interpreter.kt:90 | elaborated operands keep their count |
| Interpreter.Elab | src/cadenza/interpreter.kt:87-97 | `elab`, with the corrected parameter scope (`Interpreter.ElabScoped`, `Interpreter.ElabVarEval`, `Interpreter.ParamResolvesLast`) |
| Interpreter.Resolve | src/cadenza/interpreter.kt:88 | `indexOfFirst { it.first == name }` over the elaboration context (`Interpreter.IndexOfFirst`, `Interpreter.CellsFind`) |
| Interpreter.ElabScoped | src/cadenza/interpreter.kt:87-97 | elaboration fails exactly on terms containing `let`, and otherwise gives a well-scoped expression |
| Interpreter.ElabAllScoped | src/cadenza/interpreter.kt:90 | the operand list elaborates to well-scoped expressions iff no operand contains `let` |
| Interpreter.CollectCells | src/cadenza/interpreter.kt:100-106 | the loop collects the context's cells from the head, in order |
| Interpreter.InitialCtxElab | src/cadenza/interpreter.kt:99-107 | the elaboration context is the initial context's cells, each naming a builtin |
| Interpreter.InitialEnv | src/cadenza/interpreter.kt:109-111 | one builtin closure with nothing applied per cell, in the same order |
| Interpreter.ElabVarEval | src/cadenza/interpreter.kt:27-88 | a name elaborates to the index of its innermost binding and evaluates to the value there; an unbound name fails with an index error |
| Interpreter.ParamResolvesLast | src/cadenza/interpreter.kt:91-93 | under the corrected list a parameter name resolves to its last occurrence, which is the binding type checking gives it |
| Interpreter.NonParamResolves | src/cadenza/interpreter.kt:92 | a name that is not a parameter skips the parameters and resolves in the enclosing context |
| Interpreter.ParamsAsWrittenPicksFirst | src/cadenza/interpreter.kt:88-92 | as written `\(x: Nat) (x: Bool) -> x` refers to the first parameter, a Nat, though its type is checked as Bool; the corrected list refers to the second |
| Interpreter.FoldCellsBuiltins | src/cadenza/interpreter.kt:109-111 | every cell of the initial context's fold names a builtin, so `initialEnv` is defined |
| Interpreter.CellsFind | src/cadenza/interpreter.kt:88-107 | elaboration resolves a name to the cell `lookup` finds, the head-most one |
| Interpreter.NameResolvesToBuiltin | src/cadenza/interpreter.kt:99-111 | a name bound to a builtin evaluates, through its index, to that builtin with nothing applied |
| Interpreter.InitialNamesResolve | src/cadenza/interpreter.kt:99-111 | in the initial context every builtin name resolves to its own builtin |
| Interpreter.PlusAdds | src/cadenza/interpreter.kt:25-111 | `plus m n`, elaborated against the initial cells and evaluated in the initial environment, is m + n |
| Interpreter.EvalBinaryApp | src/cadenza/interpreter.kt:28-56 | a saturated call of a two-argument builtin evaluates to the builtin's result on the two arguments |
| Parsers.ToList | src/parser.kt:24-32 | the loop that inserts each expectation at the front lists the chain oldest first |
| Parsers.PushItems | src/parser.kt:47-50 | expectations recorded one after another are listed in the order they were recorded |
| Parsers.MoveTo | src/parser.kt:14-20 | assigning `pos`: a move to another position forgets the expectations (`ParseObjects.Parse.SetPos`) |
| Parsers.Expect | src/parser.kt:47-50 | `expected(what)`: record `what` and throw at the current position (`Parsers.PushItems`, `ParseObjects.Parse.Expect`) |
| Parsers.Fail | src/parser.kt:44 | `fail(message)`: throw at the current position (`ParseObjects.Parse.Fail`) |
| Parsers.Eof | src/parser.kt:54-60 | succeeds without moving exactly at the end of the input, and otherwise expects "EOF" |
| Parsers.Char | src/parser.kt:62-67 | consumes the next character exactly when it is c, forgetting the expectations; otherwise expects c without moving |
| Parsers.String | src/parser.kt:69-74 | corrected: consumes the text exactly when the input continues with it, and otherwise expects the text without moving |
| Parsers.StringAsWritten | src/parser.kt:69-74 | `string` as written (`Parsers.StringAsWrittenNeedsMoreInput`, `Parsers.StringAsWrittenRefusesFinalToken`) |
| Parsers.StringAsWrittenNeedsMoreInput | src/parser.kt:71 | as written, `string` agrees with the corrected one except when the text would reach the end of the input, where it always refuses |
| Parsers.StringAsWrittenRefusesFinalToken | src/parser.kt:71 | the closing parenthesis of "(x)" is refused as written and accepted when corrected |
| Parsers.Satisfy | src/parser.kt:76-83 | consumes the next character exactly when it satisfies the predicate, and otherwise fails without moving or message |
| Parsers.Next | src/parser.kt:85-90 | consumes any character, and at the end of the input expects "any character" |
| Parsers.Trying | src/parser.kt:92-101 | a failed action goes back to the start, records `what` over the expectations held before, and throws a plain error there; otherwise the action's result stands |
| Parsers.Named | src/parser.kt:103-111 | the action's outcome and position stand; a failure at the start has its expectations replaced by `what` over those held before |
| Parsers.Choice | src/parser.kt:122-133 | `choice` (`Parsers.ChoiceCommits`, `Parsers.ChoiceSkips`, `Parsers.ChoiceFailsPlainly`, `ParseObjects.Parse.Choice`) |
| Parsers.Many | src/parser.kt:135-147 | `many` (`Parsers.ManyKeepsPrefix`, `Parsers.ManySatisfy`, `Parsers.ManyChar`, `ParseObjects.Parse.Many`) |
| Parsers.SomeOf | src/parser.kt:149-162 | `some` (`Parsers.SomeOfLeads`, `Parsers.SomeSatisfy`, `ParseObjects.Parse.SomeOf`) |
| Parsers.ManyTillPair | src/parser.kt:178-186 | `manyTillPair` (`ParseObjects.Parse.ManyTillPair`) |
| Parsers.ManyTill | src/parser.kt:188-196 | `manyTill` (`Parsers.ManyTillNextChar`, `ParseObjects.Parse.ManyTill`) |
| Parsers.ChoiceCommits | src/parser.kt:123-131 | an alternative that succeeds, or fails after moving, is the choice's result |
| Parsers.ChoiceSkips | src/parser.kt:128-130 | an alternative that fails at the start hands over, with the state it left, to the next |
| Parsers.ChoiceFailsPlainly | src/parser.kt:132 | a choice failing at its start throws a plain error: the messages of the alternatives are dropped |
| Parsers.ManyKeepsPrefix | src/parser.kt:136-147 | repetition only ever adds to what it has already collected |
| Parsers.SomeOfLeads | src/parser.kt:150-152 | what `some` collects is non-empty and begins with the value of its first, required, item |
| Parsers.Optional | src/parser.kt:165-173 | no value exactly when the item fails without moving; a value when it succeeds; any other failure propagates unchanged |
| Parsers.Spanned | src/parser.kt:199-204 | the value together with the start and length of the input the parser moved over; other outcomes pass through |
| Parsers.Span | src/parser.kt:136-147 | the length of the longest run of characters satisfying the predicate from a position |
| Parsers.ManySatisfy | src/parser.kt:76-83 | repeating `satisfy` collects exactly the longest matching run and stops after it |
| Parsers.SomeSatisfy | src/parser.kt:150-162 | `some(satisfy(p))` fails without moving where nothing matches, and otherwise takes the run |
| Parsers.Copies | src/parser.kt:62-67 | the length of the run of c from a position |
| Parsers.ManyChar | src/parser.kt:136-147 | repeating `char(c)` takes the run of c, and leaves c as the expectation where the run ends |
| Parsers.FindChar | src/parser.kt:189-196 | the first c at or after a position, or none |
| Parsers.ManyTillNextChar | src/parser.kt:189-196 | `manyTill(next, char(c))` collects every character before the first c and consumes it; with no c left it fails at the end of the input |
| Parsers.ParseSource | src/cadenza/syntax/source.kt:10-17 | a success exactly when the parser returns from the start of the input; a failure reports the position where the parser stopped |
| Parsers.ManyTest | test/parser.kt:11-18 | example: `many { char('x') }` over "xxx" gives three x's |
| Parsers.SomeTest | test/parser.kt:20-30 | example: `some { char('y') }` over "xxx" fails and `some { char('x') }` gives three x's |
| Parsers.ChoiceTest | test/parser.kt:32-40 | example: a choice of two alternatives expecting "a" and "b" fails listing both, in that order |
| ParseObjects.Parse.constructor | src/parser.kt:7-14 | a new parse starts at position 0 with no expectations |
| ParseObjects.Parse.SetPos | src/parser.kt:14-20 | moving the position forgets the expectations; assigning the same position keeps them |
| ParseObjects.Parse.Expectations | src/parser.kt:21 | `expected` lists the recorded expectations oldest first |
| ParseObjects.Parse.Resume | src/parser.kt:41 | the parse takes over a given state (`release`) |
| ParseObjects.Parse.Expect | src/parser.kt:47-50 | records the expectation and throws at the current position, as `Parsers.Expect` |
| ParseObjects.Parse.Fail | src/parser.kt:44 | throws at the current position with the message, as `Parsers.Fail` |
| ParseObjects.Parse.Eof | src/parser.kt:54-58 | updates the fields and returns the outcome `Parsers.Eof` gives |
| ParseObjects.Parse.Char | src/parser.kt:62-67 | updates the fields and returns the outcome `Parsers.Char` gives |
| ParseObjects.Parse.String | src/parser.kt:69-74 | updates the fields and returns the outcome `Parsers.String` gives |
| ParseObjects.Parse.Satisfy | src/parser.kt:76-83 | updates the fields and returns the outcome `Parsers.Satisfy` gives |
| ParseObjects.Parse.Next | src/parser.kt:85-90 | updates the fields and returns the outcome `Parsers.Next` gives |
| ParseObjects.Parse.Trying | src/parser.kt:92-101 | updates the fields and returns the outcome `Parsers.Trying` gives |
| ParseObjects.Parse.Named | src/parser.kt:103-111 | updates the fields and returns the outcome `Parsers.Named` gives |
| ParseObjects.Parse.Choice | src/parser.kt:122-133 | the loop over the alternatives ends in the state and outcome `Parsers.Choice` gives |
| ParseObjects.Parse.Many | src/parser.kt:135-147 | the loop ends in the state and outcome `Parsers.Many` gives |
| ParseObjects.Parse.SomeOf | src/parser.kt:149-162 | the loop ends in the state and outcome `Parsers.SomeOf` gives |
| ParseObjects.Parse.Optional | src/parser.kt:164-173 | updates the fields and returns the outcome `Parsers.Optional` gives |
| ParseObjects.Parse.ManyTillPair | src/parser.kt:178-186 | the loop ends in the state and outcome `Parsers.ManyTillPair` gives |
| ParseObjects.Parse.ManyTill | src/parser.kt:188-196 | the loop ends in the state and outcome `Parsers.ManyTill` gives |
| ParseObjects.Parse.Spanned | src/parser.kt:198-204 | updates the fields and returns the outcome `Parsers.Spanned` gives |
| Parsing.Numeral | parsing/main/parsing.kt:14 | a count is written as a non-empty run of decimal digits with no leading zero |
| Parsing.OxfordOnto | parsing/main/parsing.kt:12-35 | `oxford(builder)` appends the header and the items to what the builder already holds |
| Parsing.Oxford | parsing/main/parsing.kt:11-35 | `oxford()`: the header, then the items (`Parsing.OxfordOnto`, `Parsing.OxfordNone`, `Parsing.OxfordOne`, `Parsing.OxfordTwo`, `Parsing.OxfordComma`) |
| Parsing.CommasOnto | parsing/main/parsing.kt:27-30 | the loop appends each item but the last followed by ", " |
| Parsing.CommasJoin | parsing/main/parsing.kt:27-30 | that is the items joined by ", ", plus one more ", " |
| Parsing.OxfordComma | parsing/main/parsing.kt:26-33 | three or more items are joined by ", " with ", or " before the last: the Oxford comma |
| Parsing.OxfordNone | parsing/main/parsing.kt:13-19 | example: no items: "0 items: " |
| Parsing.OxfordOne | parsing/main/parsing.kt:13-20 | example: one item: "1 item: a", the only singular header |
| Parsing.OxfordTwo | parsing/main/parsing.kt:21-25 | example: two items: "2 items: a or b", without a comma |
| Parsing.OxfordThree | parsing/main/parsing.kt:26-33 | example: three items: "3 items: a, b, or c" |
| Parsing.ToList | parsing/main/parsing.kt:48-56 | the loop lists the chain newest first |
| Parsing.NewestFirstReversed | parsing/main/parsing.kt:48-56 | this file lists the chain in the reverse of the order src/parser.kt does |
| Parsing.ErrorText | parsing/main/parsing.kt:257-268 | with no expectations the message or "expected nothing"; with no message "expected " and the list; otherwise the message first and the list last |
| Parsing.EmitMessage | parsing/main/parsing.kt:257-268 | the `when` appends exactly that text to the builder |
| Parsing.Emit | parsing/main/parsing.kt:247-277 | `emit` appends "name:line:col error: ", the message part, a blank line, the source line, a caret under the column, and a blank line |
| Parsing.Report | parsing/main/parsing.kt:247-277 | the whole report `emit` writes, given the line, column and line text (`Parsing.Emit`) |
| Parsing.CaretOnto | parsing/main/parsing.kt:272-275 | the tail appends the source line, col-1 blanks, then the caret |
| Parsing.SourceParse | parsing/main/parsing.kt:282-289 | a success exactly when the parser returns from a fresh state; a failure keeps the error's message, the final position and the expectations |
| Parsing.SourceParseAgrees | parsing/main/parsing.kt:282-289 | this `Source.parse` and the one of src/cadenza/syntax/source.kt agree, except that they list the expectations in opposite orders |
| Grammar.Tele | src/cadenza/syntax/parser.kt:38-40 | a telescope has at least one binder |
| Grammar.Applied | src/cadenza/syntax/parser.kt:81-85 | a single operand stands for itself; several are the application of the first to the rest |
| Grammar.Space | src/cadenza/syntax/parser.kt:22 | `space` (`GrammarFacts.SpaceSkips`) |
| Grammar.Token | src/cadenza/syntax/parser.kt:27 | `token(f)`: f, then the whitespace after it (`GrammarFacts.TokMatches`) |
| Grammar.Tok | src/cadenza/syntax/parser.kt:29 | `tok(x)` over the corrected `string` (`GrammarFacts.TokMatches`) |
| Grammar.TokAsWritten | src/cadenza/syntax/parser.kt:29 | `tok(x)` over the `string` of src/parser.kt:71 (`GrammarFacts.TokAsWrittenNeedsMoreInput`) |
| Grammar.Parens | src/cadenza/syntax/parser.kt:31-36 | `parens(f)`: f between "(" and ")" tokens |
| Grammar.Ident | src/cadenza/syntax/parser.kt:17-21 | `ident` (`GrammarFacts.IdentWord`) |
| Grammar.Lit | src/cadenza/syntax/parser.kt:23-26 | `lit` (`GrammarFacts.LitNoDigits`, `GrammarFacts.LitDigits`, `GrammarFacts.LitNumeral`) |
| Grammar.TypeRule | src/cadenza/syntax/parser.kt:13-16 | `type` (`GrammarFacts.TypeRuleSteps`, `GrammarFacts.TypeNatEnd`, `GrammarFacts.TypeChain`) |
| Grammar.Binder | src/cadenza/syntax/parser.kt:39 | one binder `(x : type)` of a telescope, as `Grammar.Tele` repeats it |
| Grammar.Term | src/cadenza/syntax/parser.kt:42-86 | `grammar`: lambda, `if`, `let` and application (`GrammarFacts.LamShape`, `GrammarFacts.IfShape`, `GrammarFacts.LetShape`, `GrammarFacts.LetKeyword`) |
| Grammar.Atom | src/cadenza/syntax/parser.kt:72-79 | a parenthesised term, a variable or a literal |
| Grammar.AppAlt | src/cadenza/syntax/parser.kt:70-85 | one or more atoms, combined by `Grammar.Applied` |
| GrammarFacts.SpaceSkips | src/cadenza/syntax/parser.kt:22 | `space` takes exactly the run of whitespace |
| GrammarFacts.TokMatches | src/cadenza/syntax/parser.kt:27-29 | over the corrected `string`: `tok(x)` consumes x and the whitespace after it when the input continues with x, and otherwise expects x without moving |
| GrammarFacts.TokAsWrittenNeedsMoreInput | src/parser.kt:71 | `tok` over `string` as written agrees with the grammar's `tok` while input follows the token, and otherwise expects the token without moving |
| GrammarFacts.TokAsWrittenRefusesFinalNat | src/parser.kt:71 | as written, `tok("Nat")` refuses "Nat" at the end of the input, which the grammar reads as the type `Nat` |
| GrammarFacts.IdentWord | src/cadenza/syntax/parser.kt:10-21 | `ident` takes the longest run of letters, unless it is empty or reserved; then it fails at the start, recording that an identifier was expected |
| GrammarFacts.LitNoDigits | src/cadenza/syntax/parser.kt:23-24 | `lit` fails without moving where no digit follows |
| GrammarFacts.LitDigits | src/cadenza/syntax/parser.kt:23-26 | `lit` takes the longest run of digits: a number below 2^31 is a literal, and a larger one makes `toInt` throw |
| GrammarFacts.DecimalNumeral | src/cadenza/syntax/parser.kt:24 | reading a numeral gives back the number it was written from |
| GrammarFacts.NumeralSpan | src/cadenza/syntax/parser.kt:24 | the digits of a numeral followed by a non-digit are exactly the run `lit` takes |
| GrammarFacts.LitNumeral | src/cadenza/syntax/parser.kt:23-26 | the numeral of a number below 2^31, followed by a non-digit, is read back as that literal, ending right after it |
| GrammarFacts.ShowChainEnds | src/cadenza/syntax/parser.kt:13-16 | a written chain type begins and ends with "Nat" |
| GrammarFacts.TypeRuleSteps | src/cadenza/syntax/parser.kt:13-16 | after "Nat", an arrow that parses gives its result, and one that fails where it began gives back `Nat` |
| GrammarFacts.NatWord | src/cadenza/syntax/parser.kt:14 | over the corrected `string`: "Nat" followed by blanks is read as `Nat`, stopping after the blanks |
| GrammarFacts.ArrowWord | src/cadenza/syntax/parser.kt:15 | "-> " before a type is read as the arrow token, stopping at the type |
| GrammarFacts.TypeNatEnd | src/cadenza/syntax/parser.kt:13-16 | over the corrected `string`: "Nat" not followed by blanks or an arrow is the type `Nat` |
| GrammarFacts.NatBlank | src/cadenza/syntax/parser.kt:14 | "Nat -> " is read as `Nat` up to the arrow |
| GrammarFacts.TypeArrowStep | src/cadenza/syntax/parser.kt:15 | "Nat -> " followed by a type r is the type `Nat -> r`, ending where r ends |
| GrammarFacts.TypeChain | src/cadenza/syntax/parser.kt:13-16 | over the corrected `string`: a written chain type not followed by whitespace or '-' is read back as that type, and reading stops right after it |
| GrammarFacts.ChainSplits | src/cadenza/syntax/parser.kt:15 | a written arrow chain is "Nat -> " followed by the rest of the chain |
| GrammarFacts.LamShape | src/cadenza/syntax/parser.kt:43-50 | a lambda starts with a backslash and binds one or more names |
| GrammarFacts.IfShape | src/cadenza/syntax/parser.kt:51-58 | a conditional starts with the keyword `if` and gives `TIf` |
| GrammarFacts.IfParts | src/cadenza/syntax/parser.kt:51-58 | a parsed conditional is `TIf` of the terms parsed after `if`, `then` and `else`, and parsing ends where the last of them ends |
| GrammarFacts.LamParts | src/cadenza/syntax/parser.kt:43-50 | a parsed lambda is `TLam` of the telescope read after the backslash and the term parsed after `->`, and parsing ends where the body ends |
| GrammarFacts.LetShape | src/cadenza/syntax/parser.kt:59-69 | a `let` starts with the keyword `let` and gives `TLet` |
| GrammarFacts.LetKeyword | src/cadenza/syntax/parser.kt:59-69 | a `let` that parses has read the `let` token and gives `TLet` |
| Layout.DeltaMonoid | src/pretty.kt:79-84 | adding deltas is associative, with the empty delta as identity on both sides |
| Layout.FormatAction | src/pretty.kt:86-91 | applying two deltas one after the other is applying their sum; the empty delta changes nothing |
| Layout.FullDeltaOverrides | src/pretty.kt:86-91 | a delta setting every field gives the same format whatever it is applied to |
| Layout.TextOfSnoc | src/pretty.kt:23-24 | output added at the end shows after what was there |
| Layout.Chunk | src/pretty.kt:141-146 | while failure is allowed, a chunk that makes the line too wide or its ribbon too long throws `Bad` and changes nothing; otherwise it is added and the line grows by its length |
| Layout.HardLine | src/pretty.kt:139 | `hardLine` adds a line break and the new line is empty |
| Layout.Gutter | src/pretty.kt:260-273 | `guttered(t)` (`Layout.FlatGutter`, `PrettyObjects.Pretty.Guttered`) |
| Layout.Exec | src/pretty.kt:135-386 | running a block on the printer's fields, with the corrected `grouped` and `italic` (`Layout.ExecKeeps`, `Layout.OutputGrows`, `Layout.FlatLayout`, `Layout.GroupFits`, `Layout.GroupBreaks`, `Layout.NestIndents`, `Layout.AnnotateWraps`, `PrettyObjects.Pretty.Run`) |
| Layout.Grouped | src/pretty.kt:159-173 | corrected `grouped` (`Layout.GroupFits`, `Layout.GroupBreaks`) |
| Layout.GroupedAsWritten | src/pretty.kt:159-173 | `grouped` as written (`Layout.GroupedAsWrittenRepeats`) |
| Layout.Nested | src/pretty.kt:176-188 | `nest` and `align` (`Layout.NestIndents`) |
| Layout.Annotated | src/pretty.kt:191-203 | `annotate` (`Layout.AnnotateWraps`, `Layout.FlatAnnotated`) |
| Layout.ItalicAsWritten | src/pretty.kt:377-386 | `italic` as written (`Layout.ItalicAsWrittenDropsBold`) |
| Layout.Prep | src/pretty.kt:117-121 | `prep` (`Layout.PrepNeverFails`, `PrettyObjects.Prep`) |
| Layout.Interleave | src/pretty.kt:206-216 | `intersperse` (`Layout.InterleaveFlat`, `PrettyObjects.Pretty.Intersperse`) |
| Layout.Hsep | src/pretty.kt:219 | `hsep`: `intersperse` with one blank (`Layout.InterleaveFlat`) |
| Layout.Vsep | src/pretty.kt:225 | `vsep`: `intersperse` with line breaks |
| Layout.Hvsep | src/pretty.kt:231-235 | `hvsep`: a group of blocks separated by a blank when flat and a line break otherwise |
| Layout.OxfordBy | src/pretty.kt:277-302 | `oxfordBy` (`Layout.OxfordFlat`, `Layout.OxfordFits`) |
| Layout.Collection | src/pretty.kt:306-315 | `collection` (`Layout.CollectionFlat`) |
| Layout.ExecKeeps | src/pretty.kt:159-203 | every `finally` puts back what it saved: a block, whether it throws or not, changes only the output and the current line length |
| Layout.OutputGrows | src/pretty.kt:159-203 | a block only adds to the output, whether it throws or not |
| Layout.BreakModeNeverFails | src/pretty.kt:111 | outside a flat attempt nothing throws `Bad` |
| Layout.PrepNeverFails | src/pretty.kt:117-121 | a fresh printer runs every document to the end |
| Layout.FitsRibbon | src/pretty.kt:141-146 | while failure is allowed, a block that finishes leaves the current line within the ribbon |
| Layout.NewlineIndents | src/pretty.kt:140 | `newline` throws exactly when failure is allowed and the indentation is too long; otherwise it writes a line break and the indentation as blanks |
| Layout.NestIndents | src/pretty.kt:176-188 | in break mode, `nest(w)` indents a broken line by w more, and `align` indents it to the current column; the indentation comes back afterwards |
| Layout.AnnotateWraps | src/pretty.kt:191-203 | `annotate` wraps what the body outputs once, after the old output, with the same text, and puts the format back |
| Layout.FlatLayout | src/pretty.kt:135-203 | in flat mode a flattenable block that finishes outputs exactly its flat text, on the current line |
| Layout.FlatGutter | src/pretty.kt:260-273 | in flat mode `guttered(t)` writes t between two blanks on the current line |
| Layout.FlatAnnotated | src/pretty.kt:191-203 | in flat mode an annotated block shows its body's flat text |
| Layout.FlatNoFail | src/pretty.kt:141-146 | in flat mode a flattenable block whose text fits a bound that also holds the indentation, and is within half the width and within the ribbon, never throws |
| Layout.GroupFits | src/pretty.kt:159-173 | a group whose flat text fits is laid out flat on the current line, and the printer returns to break mode |
| Layout.GroupBreaks | src/pretty.kt:159-173 | corrected: a group whose flat text overruns the ribbon is laid out in break mode from where it started, as if it were not grouped |
| Layout.GroupedAsWrittenRepeats | src/pretty.kt:159-173 | as written, the failed flat attempt's output is kept: a group of "aaaa" and "bbbb" over a ribbon of 6 shows "aaaa" twice and counts a 12-column line; corrected, it shows each once on an 8-column line |
| Layout.FlatAttemptStops | src/pretty.kt:141-146 | in that example the flat attempt writes "aaaa" and throws on "bbbb" |
| Layout.BreakRun | src/pretty.kt:135 | in break mode both texts are output after what is there |
| Layout.BoldWraps | src/pretty.kt:366-375 | `bold` outside bold text wraps what its body outputs under a format with bold on |
| Layout.ItalicAsWrittenDropsBold | src/pretty.kt:377-386 | as written, `italic`'s delta turns bold on, so a `bold` inside it adds no annotation of its own |
| Layout.ItalicKeepsBold | src/pretty.kt:377-386 | corrected, `italic` turns only italics on, so a `bold` inside still annotates |
| Layout.InterleaveFlat | src/pretty.kt:206-216 | flat, `intersperse` shows the blocks' texts joined by the delimiter's text, between neighbours only |
| Layout.OxfordListFlat | src/pretty.kt:277-302 | flat, the blocks of a list of three or more before the last two show each followed by ", " |
| Layout.OxfordTwoFlat | src/pretty.kt:277-302 | flat, two blocks show around the conjunction |
| Layout.OxfordListStep | src/pretty.kt:277-302 | flat, one more block of the list adds its text and what follows it |
| Layout.OxfordLastTwo | src/pretty.kt:277-302 | flat, the last two blocks of a list of three or more show with a comma and the conjunction between them |
| Layout.OxfordManyFlattenable | src/pretty.kt:277-302 | a list of three or more flattenable blocks is flattenable |
| Layout.OxfordManyFlat | src/pretty.kt:277-302 | flat, three or more blocks show with the Oxford comma |
| Layout.OxfordFlat | src/pretty.kt:277-304 | flat, `oxfordBy` shows "nothing", the one item, two items around the conjunction, or the list with the Oxford comma |
| Layout.OxfordAgrees | src/pretty.kt:304 | with "or", the flat list is the one the parser's error messages write after their header |
| Layout.OxfordFits | src/pretty.kt:277-304 | a list that fits is written on the current line as the parser writes it |
| Layout.Led | src/pretty.kt:306-315 | each block after the first is led by the separator and a blank |
| Layout.LedConcat | src/pretty.kt:306-315 | the first text prefixed, then every later one led by the separator, is the texts joined by the separator after the prefix |
| Layout.HeadFlat | src/pretty.kt:306-315 | flat, the first entry is the open bracket right before the first block |
| Layout.LedFlat | src/pretty.kt:306-315 | flat, each later entry is the separator, a blank and the block |
| Layout.EntriesFlat | src/pretty.kt:306-315 | flat, the entries of a non-empty collection are the open bracket with the first text, each later text led by the separator, and the close bracket |
| Layout.HvsepTightFlat | src/pretty.kt:255 | flat, `hvsepTight` runs its blocks' texts together |
| Layout.CollectionFlat | src/pretty.kt:306-315 | flat, a collection is the open bracket, the texts joined by the separator and a blank, and the close bracket |
| PrettyObjects.Pretty.constructor | src/pretty.kt:98-107 | a new printer is in break mode, unable to fail, at column 0, with nothing output, the default format and the given width and ribbon |
| PrettyObjects.Pretty.Chunk | src/pretty.kt:141-146 | updates the fields as `Layout.Chunk` says and reports `Bad` exactly when it does |
| PrettyObjects.Pretty.Text | src/pretty.kt:135 | a text chunk of its length |
| PrettyObjects.Pretty.Space | src/pretty.kt:137 | a space chunk of its width |
| PrettyObjects.Pretty.HardLine | src/pretty.kt:139 | a line break that empties the line |
| PrettyObjects.Pretty.Newline | src/pretty.kt:140 | a line break, then the indentation |
| PrettyObjects.Pretty.Run | src/pretty.kt:155 | running any block leaves the fields as `Layout.Exec` says |
| PrettyObjects.Pretty.Grouped | src/pretty.kt:159-173 | the corrected group: a flat attempt that throws is undone, output and line length included, before the break-mode run |
| PrettyObjects.Pretty.Nest | src/pretty.kt:176-184 | the body runs with the indentation raised by w, which comes back afterwards |
| PrettyObjects.Pretty.Align | src/pretty.kt:187-188 | the body runs indented to the current column |
| PrettyObjects.Pretty.Annotate | src/pretty.kt:191-203 | the body's output is collected apart and added as one annotated node, and the format comes back |
| PrettyObjects.Pretty.Guttered | src/pretty.kt:260-273 | a blank in flat mode, otherwise a line break and the label's indent; then the label and a blank |
| PrettyObjects.Pretty.Bold | src/pretty.kt:366-375 | bold on for the body, unless it is already on |
| PrettyObjects.Pretty.Italic | src/pretty.kt:377-386 | corrected: italics on for the body, unless they are already on; the fields end as `Layout.Exec` of `italic` says |
| PrettyObjects.Pretty.Intersperse | src/pretty.kt:206-216 | the loop runs each block with the delimiter before every block but the first, stopping at the first `Bad` |
| PrettyObjects.InterleaveStopped | src/pretty.kt:209-216 | once the first i blocks have thrown `Bad`, running them all throws it with the same fields |
| PrettyObjects.Prep | src/pretty.kt:117-121 | `prep` runs the document on a fresh printer and returns what it output |

## Left out

- Host embedding: Truffle language registration, contexts, instrumentation, source sections and the single-thread assumptions. These are host plumbing and concurrency.
- Truffle call machinery: inline caches, trampolines and root-node frame setup. A call target is an `invoke` parameter. A builtin's root reserves argument 0 (src/cadenza/jit/nodes.kt:138-152), which `Closure.call` does not supply. The model takes the convention of Closure.kt and keeps that clash as an assumption.
- Bytecode generation: the ASM emitters of `FieldInfo` (`load`, `box`, `ret`) and the generated frame classes. They wrap a foreign library.
- `App` node self-rewriting (src/cadenza/jit/code.kt:102-104): an over-applied `App` replaces itself with nested `App` nodes. The model computes the value that replacement yields, but does not keep a rewritten tree.
- `Var` node specializations: the node is modelled by its generic read of the frame slot only.
- Floating point: `asFloat`/`asDouble` of BigInt, and the Double/Float slots' values. Only their tags and the refusals are modelled.
- Printing: the `print` builtin's output, the `println` debug lines of parsing/main/parsing.kt:62 and :169, and ANSI emission (`Out.emit`, `Color`, `fg`/`bg`, `Format.set`, `pp`). Formats and colours are kept as data in the output tree.
- Regular expressions: `match` in src/parser.kt:113-120 and its counterpart in parsing/main/parsing.kt. They rely on `java.util.regex`.
- Character classes: `Char.isLetter`, `isDigit` and `isWhitespace` are limited to ASCII. Unicode classes are not modelled.
- Source positions: `Failure`'s line and column lookup is left out. Terms do not keep their `Loc`/`Range`, though `spanned` ranges are computed.
- `interpreter.kt`'s `parse` (src/cadenza/interpreter.kt:113-122) is left out. It is the grammar followed by `elab`, and both are modelled.
- Unbounded recursion: evaluation, over-application chains and parser rules that re-enter themselves are bounded by `fuel` or by a check that input was consumed. Running out is reported as an outcome (`OutOfFuel`, `EndlessLoop`), where the source would loop or overflow its stack.
- Layout.FitsRibbon: states only that a finished block keeps the line within the ribbon, not the width bound `nesting + lineLen <= maxWidth`.
- Builtins.MinusLeavesNat: `minus` is modelled as written. Nothing keeps its result natural, and the lemma shows 1 - 2 = -1.
- Terms.LetIgnoresDeclaredType: `let` is modelled as written. It never compares the value's type with the declared one.
- FrameBuilders: the tag-miss path is modelled as written (src/cadenza/jit/frame_builder.kt:51-53). It stores the exception object in the slot before the `Object` fallback overwrites it.
- Closures.Execute: validates arrow-typed arguments with the corrected `validate` (`Closures.ValidateArgs`). As written (src/cadenza/types.kt:47) the source refuses a closure whose type is the parameter's arrow type, so `Execute` accepts some arguments the source refuses (`Closures.ExecuteAcceptsWhatSourceRefuses`). It also returns the corrected call. For an over-applied PAP, src/cadenza/data/Closure.kt:53-60 reaches the call as written (Closure.kt:87-92), which passes fewer arguments; the contract states the agreement with `Closures.CallAsWritten` only where the two rules agree.
- Closures.ValidateArgs: folds the corrected `Values.Validate`. The fold of src/cadenza/data/Closure.kt:57 reaches `Arr.validate` as written (src/cadenza/types.kt:47), which `Closures.ValidateArgsAsWritten` models. The two agree when no parameter has an arrow type (`Closures.ValidateArgsAgreeOffArrows`).
- PrettyObjects.Pretty.Italic: runs the corrected `italic`, which records italics in the format. As written, src/pretty.kt:381 records bold instead (`Layout.ItalicAsWritten`).
- Builtins.ExactOrBig: the `rewriteOn = [ArithmeticException]` specialization state (src/cadenza/jit/builtin.kt:88 and :112) is not modelled. After one overflow the source node keeps to its BigInt specialization, so later results that fit an Int come back as BigInts. The model decides Int or BigInt from each call's operands alone.
- Builtins.PlusMinusExact: the same specialization state is left out, so the Int-or-BigInt part holds for a node that has not yet overflowed.
- GrammarFacts.TokMatches: stated over the corrected `string`. With the `string` of src/parser.kt:71 it holds only while input follows the token (`GrammarFacts.TokAsWrittenNeedsMoreInput`).
- GrammarFacts.NatWord: over the corrected `string`; as written the word "Nat" must not end the input.
- GrammarFacts.TypeNatEnd: over the corrected `string`; as written "Nat" at the end of the input is refused (`GrammarFacts.TokAsWrittenRefusesFinalNat`).
- GrammarFacts.TypeChain: over the corrected `string`; as written a chain that ends the input is refused at its last "Nat".

## Findings

| source | as written | input that shows it | evidently intended | confidence | as-written member | corrected member |
|---|---|---|---|---|---|---|
| src/cadenza/interpreter.kt:41 | under-application builds the new environment as `args ++ env`, so later arguments come before earlier ones | a two-argument closure returning its first parameter, applied to 1 and then to 2, returns 2; applied to both at once it returns 1 | a partial application keeps earlier arguments first, so both ways return 1 | high, not executed | Interpreter.PapAsWrittenSwapsArguments | Interpreter.PapThenCall |
| src/cadenza/data/Closure.kt:87-92 | over-application passes only `arity` elements of `papArgs ++ args` to the target | a PAP holding 1 of a two-argument body, called with 2 and 3, enters the body with one argument | the target gets `papArgs` plus the first `arity` new arguments | high, not executed | Closures.CallAsWrittenCounterexample | Closures.CallLaysOutRootArguments |
| src/cadenza/jit/code.kt:342 | `lam` keeps the frame descriptor exactly when there are no capture steps | a non-capturing lambda gets a frame, so its closure carries an environment its body does not expect | a descriptor exactly for super-combinators, which capture | high, not executed | Code.MakeLamAsWrittenCounterexample | Code.MakeLamBuildsWellFormed |
| src/parser.kt:71 | `string` demands `pos + length < input length` | ")" at position 2 of "(x)" is refused | `<=`, so a text ending the input matches | high, not executed | Parsers.StringAsWrittenRefusesFinalToken | Parsers.String |
| src/cadenza/frame/ArrayMappedDataFrame.kt:41 | `getObject` reads `idata` at the object rank | slot 0 the only object slot holding true, every int slot holding 7: `getObject(0)` answers 7 | read `adata`, as `getValue` does | high, not executed | ArrayMappedFrames.GetObjectAsWrittenCounterexample | ArrayMappedFrames.DenseReadsSucceed |
| src/pretty.kt:159-173 | `grouped` keeps what a failed flat attempt output, and its line length | the group "aaaa" "bbbb" with ribbon 6 outputs "aaaa" twice and counts 12 columns | undo the flat attempt before the break-mode run | medium, not executed | Layout.GroupedAsWrittenRepeats | Layout.GroupBreaks |
| src/cadenza/types.kt:47 | `Arr.validate` compares the closure's type with the arrow's argument type | the identity of type `Nat -> Nat` is refused as a `Nat -> Nat` value | compare with the whole arrow | high, not executed | Values.ValidateArrowAsWrittenCounterexample | Values.Validate |
| src/cadenza/jit/code.kt:99 | an `App` whose operand count equals the arity calls the target with the operands alone | a PAP holding 1 of a two-argument body, applied to 2, enters the body with one argument | the target gets the environment and `papArgs` as well, as `Closure.call` passes them | high, not executed | Code.AppAsWrittenCounterexample | Code.AppOfClosure |
| src/cadenza/interpreter.kt:92 | `elab` puts the parameter names in front of the context and resolves a name to its first occurrence | in `\(x: Nat) (x: Bool) -> x` the body refers to the Nat parameter, while type checking gives it Bool | the last parameter of a name shadows earlier ones, as in type checking | medium, not executed | Interpreter.ParamsAsWrittenPicksFirst | Interpreter.ParamResolvesLast |
| src/pretty.kt:381 | `italic`'s annotation sets bold | `bold` inside `italic` adds no annotation of its own | `italic` sets italics only | high, not executed | Layout.ItalicAsWrittenDropsBold | Layout.ItalicKeepsBold |
