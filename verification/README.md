# Verified model of simtgo

simtgo compiles a subset of Go to CUDA C, under the contract "refuse, never mistranslate", and runs the
same kernels on the host with one goroutine per thread. This project models the parts of it where that
contract is hard to keep, and proves for all inputs, all runs and all interleavings that it is kept, or
exactly when it is not. Nothing was executed; every statement below is a theorem of the `.dfy` files.

| modules | subject |
|---|---|
| `DivergeLang`, `DivergeCheck`, `DivergeText`, `DivergeSound`, `DivergeLimits` | the barrier-divergence check, what of a kernel's text it refuses, and its two-run soundness theorem |
| `ExprText`, `ExprGrammar`, `Decimal`, `ExprEmit`, `TwosComplement`, `ExprEval`, `GoText` | the expression printers, against the grammars of C++ (ISO/IEC 14882:2017, clause 8) and of Go: parentheses, token fusion, the unsigned regions that give wrapping arithmetic a meaning in C |
| `StmtLang`, `StmtLower`, `StmtRefusal`, `StmtWriter`, `StmtSound`, `StmtScope`, `StmtLimits` | the lowering of loops, labels, switches and parallel assignment, what it refuses, its meaning against a big-step semantics of Go, and the scopes its jumps stay out of |
| `NameScope`, `NameLimits`, `CppWords` | shadow renaming, range clauses and name collisions under C++'s point of declaration, and the words C++ keeps |
| `ReadOnly`, `Aliasing` | which parameters a function may write, `const`, and `__restrict__` over whole runs |
| `StructLayout` | padding that pins every field to Go's offset |
| `TileGraph`, `TileKernel`, `TileRun`, `TileEnd`, `TileStep` | the tile graph, the fused kernel, its runs in any interleaving, their end, the one-kernel-per-operation path |
| `Barrier`, `WarpExchange`, `Grid` | the emulator's generation barriers and the warp exchange built on them |
| `WarpReduce`, `WarpLaunch`, `Histogram` | two kernels proved on top of that protocol |
| `BlockWait`, `TileWait`, `HistogramWait` | kernels whose block barrier is a guard, run over the generation barrier itself |
| `Basics` | what several modules share |

Code that changes fields step by step is a class whose methods are proved against a specification
function (`DivergeWalk`, the two `Transpiler`s, `Namer`, `Analysis`, `Graph`, `Generator`, `Stepwise`, the
two barriers); the theorems are about those functions. Concurrency is a transition system over the
critical sections, with any thread moving next.

## Findings

Where the code and its documentation part, the model follows the code.

- The divergence check judges a loop inside a loop by its condition alone (`internal/lower/diverge.go:463-466`),
  and a nested range not at all: a `return` two loops deep that only some threads take is accepted.
  `DivergeLimits.DeepReturnSlipsThrough` and `DivergeLimits.DeepRangeUnseen` give the kernels, and two threads
  of each that execute different barriers. `DivergeLimits.ShortCircuitSlipsThrough` does the same for a barrier
  right of `&&`. The soundness theorem holds of the rest; `Covered` says which kernels those are, and `Shallow`
  is a shape a reader can check by eye (no return or labelled branch two loops deep, nothing collective right
  of `&&` or `||`).
- An integer-range limit is evaluated again before every round (`internal/lower/stmt.go:1110`), although Go
  evaluates it once. `StmtLimits.LimitIsReadAgain` gives a loop that runs twice in Go and once in C.
- Names. `NameScope.NamesDenote` is the exact condition under which every emitted name denotes what its Go
  name denotes; `NameLimits` has the inputs at which it fails:
  - `var x, y = e, x` is emitted as two declarations one after the other, so `y` reads the new `x`
    (`internal/lower/stmt.go:733-778`; `NameLimits.VarListReadsTooLate`).
  - `for i, x := range x` declares the element under the name it is read from, unrenamed
    (`internal/lower/stmt.go:1097-1105`; `NameLimits.RangeValueReadsItself`).
  - `for n := range n` compares the counter with itself, unless the body writes the key, which is then a copy
    (`NameLimits.KeyHidesLimit`). Over a slice the limit is its length and nothing is wrong
    (`NameLimits.SliceKeyIsFine`).
  - The generated length of a tile sized by the launch is compared with the parameters only
    (`internal/lower/stmt.go:553-558`): a variable of an inner block spelled `tile_len` hides it
    (`NameLimits.TileLengthIsHidden`). For a slice parameter the same kernel is refused.
  - The names the emitter reads from the device (`internal/lower/expr.go:85-100`) are not among the refused ones:
    in `threadIdx := ctx.ThreadIdx()` the initialiser reads the variable it initialises
    (`NameLimits.IndexNameIsHidden`).
  - Only 35 of the words that C++ keeps are escaped (`internal/lower/expr.go:991-1007`). `while`, `do`, `enum`,
    `catch`, `and`, `not` and others are identifiers in Go, pass every refusal and are emitted as they are
    (`CppWords.WhileIsNotEscaped`; `CppWords.NameIsReserved` says exactly which).
- The least `int32` is written `-2147483648`, which has a wider type in C, and what is computed from it outside
  an unsigned region keeps that type. The emitted value is still right on every safe input
  (`ExprEval.EmittedValue`), but `MinInt32 / x` with `x == -1`, undefined in 32 bits, has a value there
  (`ExprEval.LeastConstantHasNoFault`). `ExprEval.EmittedMeaning` says what C computes on every input, and
  `ExprEval.DefinedWhereSafe` exactly when C is defined where Go's evaluation is safe.

## Model

| member | source | states |
|---|---|---|
| DivergeSound.DivergenceSound | internal/lower/diverge.go:155-249 | if the check reports nothing, any two threads of a block that agree on the uniform variables at entry and both terminate execute the same sequence of barriers and warp operations, those in device functions included, whatever their coordinates, shuffles and atomics answer, every time they ask |
| DivergeSound.UniformAtExit | internal/lower/diverge.go:526-588 | under the same check, and without returns, the two threads leave the kernel agreeing on every variable the fixpoint calls uniform |
| DivergeSound.AlikeRun | internal/lower/diverge.go:155-249 | the induction behind it, for any statement on the common path: equal traces, equal uniform variables, and equal ways out unless the walk set its flag for an early return |
| DivergeSound.QuietStmt | internal/lower/diverge.go:361-377 | a walk that stands under divergence and reports nothing has met no barrier, warp operation or call that reaches one |
| DivergeSound.SilentRun | internal/lower/diverge.go:288-331 | a statement that holds nothing collective leaves the barrier trace alone in every execution, through any depth of calls |
| DivergeSound.DivergedRun | internal/lower/diverge.go:526-588 | code marked under divergence changes no variable outside the varying set, in any execution |
| DivergeSound.NoExitNoBranch | internal/lower/diverge.go:437-480 | a statement under divergence in which the strict exit walk, the one that judges nested loops as a whole, sees nothing holds no return and no branch out of it |
| DivergeSound.NoExitNoReturn | internal/lower/diverge.go:437-480 | where the strict exit walk sees nothing the check never sets its early-return flag |
| DivergeSound.CoveredNoReturn | internal/lower/diverge.go:437-480 | nor does it where exitsVarying itself sees nothing, in any loop it is trusted on |
| DivergeSound.NoReturnNoFlag | internal/lower/diverge.go:155-249 | without a return in a statement the check never sets that flag |
| DivergeSound.ReturnSetsFlag | internal/lower/diverge.go:155-249 | a return anywhere in a statement walked under divergence sets that flag |
| DivergeSound.ShallowIsCovered | internal/lower/diverge.go:437-480 | every body of the simple shape is one the soundness theorem speaks of |
| DivergeLimits.DeepReturnSlipsThrough | internal/lower/diverge.go:463-466 | a kernel that is accepted although two threads that start alike execute one barrier and two |
| DivergeLimits.DeepRangeUnseen | internal/lower/diverge.go:437-480 | a varying return inside a nested range is not seen by the exit walk: the kernel is accepted, although two threads that start alike execute two barriers and one |
| DivergeLimits.ShortCircuitSlipsThrough | internal/lower/diverge.go:274-331 | a kernel that is accepted although a barrier right of && is executed by one thread only |
| DivergeLang.BranchIsTarget | internal/fuzz/closure_stmt.go:451-467 | an execution leaves a statement by a branch or a return only if the statement holds one to that label that is not caught inside |
| DivergeCheck.Fixpoint | internal/lower/diverge.go:495-517 | marking pass after pass terminates in a set that contains the start and that one more pass does not change |
| DivergeCheck.FixpointIsLeast | internal/lower/diverge.go:495-517 | that set is the least one that contains the start and is closed under marking |
| DivergeCheck.MarkMonotone | internal/lower/diverge.go:526-588 | a pass is monotone in the varying set and in the divergence it stands under |
| DivergeCheck.Mark | internal/lower/diverge.go:526-588 | a pass takes nothing back |
| DivergeCheck.VariesMore | internal/lower/diverge.go:658-707 | an expression that varies keeps varying as more variables do |
| DivergeCheck.ExitsMore | internal/lower/diverge.go:437-480 | a varying exit of a loop stays one as more variables vary and as the walk stands under divergence |
| DivergeCheck.ForVariesMore | internal/lower/diverge.go:388-393 | so does a loop some threads leave early |
| DivergeCheck.TableIsSummary | internal/lower/diverge.go:122-151 | the memo built callees first holds, for every device function, its summary against the finished memo |
| DivergeText.RefusedExactly | internal/lower/diverge.go:110-249 | exactness, over the text alone: a kernel is refused if and only if in it, or in a device function one of its calls leads to, a barrier, a warp operation or a call that reaches one stands under a condition, limit or early exit that depends on the thread, or after a return that some threads may take |
| DivergeText.VariesIsDepends | internal/lower/diverge.go:658-707 | an expression is taken to vary if and only if it holds a per-thread value, a warp operation or a call, or reads a variable to which a chain of assignments and conditions leads from one |
| DivergeText.ReachedIsFixpoint | internal/lower/diverge.go:495-517 | the variables the passes end with are exactly those such a chain leads to |
| DivergeText.BlockConditionIsFine | internal/lower/diverge.go:58-70 | a barrier under a condition on the block alone is accepted |
| DivergeCheck.DivergeWalk.MarkStmt | internal/lower/diverge.go:526-588 | the in-place pass leaves the set of a whole pass in the vary field |
| DivergeCheck.DivergeWalk.VaryingObjects | internal/lower/diverge.go:495-517 | the loop that stops when the set stops growing computes the least fixpoint over the parameters taken to vary |
| DivergeCheck.DivergeWalk.WalkExpr | internal/lower/diverge.go:274-331 | the walk over an expression updates the use record as the specification folds it, and keeps the memo sound |
| DivergeCheck.DivergeWalk.Found | internal/lower/diverge.go:361-377 | a finding is reported exactly where not every thread of the block arrives |
| DivergeCheck.DivergeWalk.Walk | internal/lower/diverge.go:155-249 | the walk over a statement, its recursion into callees included, computes the specified record and changes neither the varying set nor any memo entry |
| DivergeCheck.DivergeWalk.BarrierUse | internal/lower/diverge.go:122-151 | the memoised summary of a device function is that of the finished table, and the walk of the caller is restored |
| DivergeCheck.DivergeWalk.CheckDivergence | internal/lower/diverge.go:110-112 | the mutable check refuses a kernel exactly if its walk against the finished table reports, which `DivergeText.RefusedExactly` puts in terms of the text |
| ExprEval.EmittedValue | internal/lower/expr.go:120-191 | arithmetic preservation: the emitted text, split by C's lexer and derived in C++'s grammar as one tree and no other, and evaluated under C's rules, never overflows and yields Go's wrapped value, for every expression and every input whose shifts and divisions are defined |
| ExprEval.EmittedMeaning | internal/lower/expr.go:201-322 | for every expression and every input, what the emitted text computes as the grammar reads it: Go's operators, each in the type C computes it in, with a value exactly where each is defined there |
| ExprEval.SafeIsSafe | internal/lower/expr.go:201-322 | where Go's evaluation is safe so is that one, and it has the same value |
| ExprEval.SafeUnlessSlips | internal/lower/expr.go:871-925 | where C has a value, Go's evaluation is safe if and only if no operation that Go's contract leaves out was computed in a wider type |
| ExprEval.DefinedWhereSafe | internal/lower/expr.go:871-925 | so C is defined exactly where Go's evaluation is safe if and only if no such operation is got past, input by input |
| ExprEval.DefinedWhereSafeAlways | internal/lower/expr.go:871-925 | and over all inputs of an expression |
| ExprEval.TightMeaning | internal/lower/expr.go:201-322 | an expression without a division, remainder or right shift in a wider type has Go's value on the safe inputs and none elsewhere |
| ExprEval.PlainMeaning | internal/lower/expr.go:201-322 | without a least-int32 constant it has the Go type, too |
| ExprEval.ValueFits | internal/lower/expr.go:120-191 | what C computes outside a region is in the range of the type it has there |
| ExprEval.HeldHolds | internal/lower/expr.go:871-925 | that type is Go's, or 64 bits for an int32 |
| ExprEval.LeastConstantHasNoFault | internal/lower/expr.go:871-925 | a least-int32 dividend under -1 is an input that gets past one: it has the value 2147483648 in C |
| ExprEval.EvalOutside | internal/lower/expr.go:120-191 | outside a region every subexpression has in C exactly that value, in exactly that type, or none |
| ExprEval.EvalInside | internal/lower/expr.go:201-322 | inside a region every subexpression has the unsigned carrier of it, or none |
| ExprEval.TermInside | internal/lower/expr.go:201-322 | unsigned + - * on carriers is the carrier of Go's wrapped result |
| ExprEval.ShiftInside | internal/lower/expr.go:397-415 | an unsigned left shift of a carrier has a value exactly for counts below the width, and it is the carrier of Go's |
| ExprEval.NegateInside | internal/lower/expr.go:418-421 | unsigned negation of a carrier is the carrier of Go's |
| ExprEval.BinaryOutside | internal/lower/expr.go:397-415 | the operators left outside regions agree with Go under the usual arithmetic conversions, and fail exactly where the division or shift is unsafe |
| ExprEval.AndNotOutside | internal/lower/expr.go:407-412 | a & ~b is Go's a &^ b for both signednesses |
| ExprEval.ConstantValue | internal/lower/expr.go:871-925 | every constant, the least int64 included, is emitted as text whose C value is the constant |
| ExprEval.GoFits | internal/lower/expr.go:120-191 | Go's value of a safe expression is in the range of its type |
| ExprEmit.EmittedTree | internal/lower/expr.go:22-55 | round trip: the emitted text, split by maximal munch, is derived in the grammar of C++ as exactly the tree that was meant, and as no other |
| ExprEmit.EmittedGoTree | internal/lower/expr.go:120-191 | the tree the grammar gives the emitted text is, without the casts the emitter put in, the Go tree, with a & ~b for a &^ b |
| ExprEmit.EmitRenders | internal/lower/expr.go:120-191 | the emitter's string and precedence are those of a rendering with a parenthesis wherever C's table, the grammar's by `ExprGrammar.TableInGrammar`, needs one |
| ExprEmit.ConstantRenders | internal/lower/expr.go:871-925 | so are those of constants, whose minus sign binds as a prefix operator |
| ExprEmit.NoSpareParenthesis | internal/lower/expr.go:20-56 | it writes no other parenthesis: each is around an operand that binds more loosely than its place allows, is a conversion's, or is the one around the least int64 |
| ExprEmit.CNameIsName | internal/lower/expr.go:1002-1007 | an escaped identifier is an identifier and no word of a C type |
| ExprEmit.Transpiler.RenderExpr | internal/lower/expr.go:120-191 | rendering with the region kept in a field gives the specified text and puts the field back |
| ExprEmit.Transpiler.OpenWrap | internal/lower/expr.go:289-295 | opening a region converts the result back to the signed type and closes the region |
| ExprEmit.Transpiler.OutsideWrap | internal/lower/expr.go:299-305 | rendering outside hides the region from the operand and restores it after |
| ExprEmit.Transpiler.EnterWrapAs | internal/lower/expr.go:314-322 | a value carried into a region is rendered outside it and converted |
| ExprEmit.Transpiler.Plain | internal/lower/expr.go:418-421 | the operator itself, signs kept apart |
| ExprEmit.Transpiler.BinaryPlain | internal/lower/expr.go:397-415 | a shift count is rendered outside the region, the other operands inside |
| ExprGrammar.RoundTrip | internal/lower/expr.go:22-55 | for C's grammar and for Go's: the text of any rendering that parenthesises what binds more loosely, and separates signs, is derived as its tree and as nothing else |
| ExprGrammar.TableInGrammar | internal/lower/expr.go:22-36 | every operator the emitter's table knows, C's or Go's, is in the one production of the grammar that names it, at that production's level |
| ExprGrammar.GrammarInTable | internal/lower/expr.go:22-36 | and every operator a production names is in the table, at that level |
| ExprGrammar.ParserIsGrammar | internal/lower/expr.go:22-55 | precedence climbing over the table ends in a tree if and only if the productions, one for each level, derive the tokens as that tree; so no text has two |
| ExprGrammar.ReadIsGrammar | internal/lower/expr.go:22-55 | so reading a text finds the tree it denotes, and fails if it denotes none |
| ExprGrammar.LeftNeedsParenthesis | internal/lower/expr.go:46-55 | a parenthesis is needed wherever one is written: without it a left operand that binds more loosely than its operator denotes another tree |
| ExprGrammar.RightNeedsParenthesis | internal/lower/expr.go:46-55 | so does a right operand that binds no more tightly |
| ExprGrammar.PrefixNeedsParenthesis | internal/lower/expr.go:46-55 | and a binary expression under a prefix operator |
| ExprText.LexText | internal/lower/expr.go:351-366 | maximal munch splits such a text into exactly the tokens meant: no two signs fuse |
| ExprText.ParsesExpr | internal/lower/expr.go:22-55 | at every level, reading a rendering leaves the parser where the finished tree on the left would |
| Decimal.NumDec | internal/lower/expr.go:974-979 | decimal digits read back as the number |
| TwosComplement.BitsFit | internal/lower/expr.go:397-415 | bitwise operations stay inside the width of their operands |
| TwosComplement.BitsAre | internal/lower/expr.go:397-415 | and, or, exclusive or and and-not set exactly the bits they should, negative numbers included |
| TwosComplement.RemainderBound | internal/lower/expr.go:397-415 | division truncates towards zero: what it leaves is smaller than the divisor and has the dividend's sign |
| ExprEval.WrapFits | internal/lower/expr.go:289-295 | wrapping gives the one number of the type that differs by a multiple of its size |
| TwosComplement.AndMask | internal/lower/expr.go:407-412 | clearing bits under the mask of a width is clearing them in two's complement |
| GoText.PrintedTree | internal/fuzz/source.go:340-387 | round trip of the fuzzer's Go printer: what it writes is derived in Go's grammar as exactly the expression |
| GoText.PrintFaithful | internal/fuzz/source.go:340-387 | for every context precedence the printer adds a parenthesis where, and as, Go's table needs one |
| GoText.NoSpareParenthesis | internal/fuzz/source.go:340-387 | and nowhere else, but around a sign that could meet another |
| GoText.LiteralFaithful | internal/fuzz/source.go:415-444 | a negative literal is written so that no sign before it can fuse with its own |
| StmtSound.LoweringSound | internal/lower/stmt.go:28-68 | control-flow lowering preserves meaning: from one state the C of an accepted body ends in the same way, with the same returned value, memory, trace and variables in scope as the Go, for any nesting, and loops on exactly when the Go does |
| StmtSound.Simulates | internal/lower/stmt.go:893-929 | the simulation behind it, with labelled branches as gotos and the temporaries of enclosing statements kept |
| StmtSound.ForSim | internal/lower/stmt.go:978-993 | a for loop with labelled break and continue as gotos to labels after the loop and at the end of the body |
| StmtSound.RangeSim | internal/lower/stmt.go:997-1112 | a range loop, whether the counter is the key, a reserved name, or a copy because the body writes the key |
| StmtSound.BodyRuns | internal/lower/stmt.go:951-976 | the label that ends a body turns the goto of a continue into an ordinary end, and nothing else |
| StmtSound.LabeledRuns | internal/lower/stmt.go:893-929 | the label after a loop turns the goto of a break into an ordinary end, and nothing else |
| StmtSound.LimitKept | internal/lower/stmt.go:1110-1112 | a limit none of whose variables and memory the body writes has one value in every round |
| StmtSound.Keeps | internal/lower/stmt.go:1121-1148 | a statement that the syntactic test finds no assignment in leaves the variable alone in every execution |
| StmtSound.Escapes | internal/fuzz/closure_stmt.go:451-467 | a statement ends by a labelled branch only to an enclosing loop it names |
| StmtSound.NoBareBreak | internal/lower/stmt.go:842-866 | what is accepted inside a switch lowered to an if chain holds no bare break of that switch |
| StmtRefusal.RefusedExactly | internal/lower/stmt.go:842-866 | exactness, over the text alone: a body is refused if and only if some statement in it assigns unequal counts, has a loop clause that is not simple, takes a value over an integer range, is a bare break of a switch that is no C switch, or a fallthrough in one |
| StmtRefusal.CSwitchIs | internal/lower/stmt.go:1210-1236 | a C switch is written exactly for an integral tag under constant cases only |
| StmtSound.ArmsSim | internal/lower/stmt.go:1239-1276 | a C switch with inserted breaks and kept fallthroughs runs the clauses Go runs |
| StmtSound.ChosenIsArm | internal/fuzz/closure_stmt.go:621-719 | the arm C enters is the clause Go picks, the default wherever it stands |
| StmtSound.CaseCondHolds | internal/lower/stmt.go:1349-1360 | the condition emitted for a clause holds exactly if the tag equals one of its values, or one of its conditions holds |
| StmtSound.ChainSim | internal/lower/stmt.go:1285-1344 | the if chain over a tag evaluated once, its default held last, runs the clause Go picks |
| StmtSound.ParSim | internal/lower/stmt.go:257-337 | the sequential C of a parallel assignment, lifting only unstable indices, is evaluating all indices and values first and then storing left to right, repeated and indexed targets included |
| StmtScope.NoJumpEntersScope | internal/lower/stmt.go:951-976 | in the C of any body no goto, forward or back, and no case of a switch jumps into the scope of a variable that is declared between it and its target |
| StmtScope.BodyNoJump | internal/lower/stmt.go:951-976 | the inner scope of a labelled body keeps what it declares out of scope at the label that ends it |
| StmtScope.ScopeIsNeeded | internal/lower/stmt.go:951-976 | without that scope a declared variable would be jumped over |
| StmtScope.LabeledNoJump | internal/lower/stmt.go:893-929 | nothing a loop declares is in scope at the label after it |
| StmtScope.ArmEmitted | internal/lower/stmt.go:1239-1276 | a clause of a C switch declares nothing in the scope its cases share |
| StmtScope.LowerEmitted | internal/lower/stmt.go:871-929 | an emitted statement goes only to labels of loops around it that the source names, and holds none of theirs |
| StmtLimits.LimitIsReadAgain | internal/lower/stmt.go:1110-1112 | a body that writes its own integer-range limit: two rounds in Go, one in C |
| StmtLower.Reserve | internal/lower/stmt.go:1168-1178 | a reserved name is not spelled anywhere yet |
| StmtLower.FirstFreeIsFirst | internal/lower/stmt.go:1168-1178 | and every candidate before it was taken |
| StmtWriter.Transpiler.NewName | internal/lower/stmt.go:1168-1178 | the loop returns the first free candidate and records it |
| StmtWriter.Transpiler.Release | internal/lower/stmt.go:1182-1182 | a released name is free again and no other is |
| StmtWriter.Transpiler.ParallelAssign | internal/lower/stmt.go:257-337 | writes the specified indices, values and stores in that order, and fails exactly on a count mismatch |
| StmtWriter.Transpiler.AssignTargets | internal/lower/stmt.go:346-361 | lifts exactly the indices the specification lifts, in order, with fresh names |
| StmtWriter.Transpiler.AssignValues | internal/lower/stmt.go:305-320 | one fresh temporary for each value, in order |
| StmtWriter.Transpiler.AssignStores | internal/lower/stmt.go:322-336 | the stores, left to right |
| StmtWriter.Transpiler.BodyOf | internal/lower/stmt.go:951-976 | a body is written with its loop innermost, and the stack of breakable statements is put back |
| StmtWriter.Transpiler.RangeStmt | internal/lower/stmt.go:997-1112 | the range loop of the specification, its reserved names released |
| StmtWriter.Transpiler.SwitchStmt | internal/lower/stmt.go:1192-1208 | chooses the C switch exactly for an integral tag with constant cases, and fails exactly where the body is not accepted |
| StmtWriter.Transpiler.CSwitch | internal/lower/stmt.go:1239-1276 | the arms in order, a break after each that does not fall through |
| StmtWriter.Transpiler.ChainSwitch | internal/lower/stmt.go:1285-1344 | the conditions in order, the default last |
| StmtWriter.Transpiler.ChainClause | internal/lower/stmt.go:1364-1373 | fails on a fallthrough or a bare break in a chain |
| StmtWriter.Transpiler.StmtOf | internal/lower/stmt.go:28-68 | the emitter over its mutable names, stack and failure flag computes the lowering the theorem is about, and fails exactly on what is not accepted, which `StmtRefusal.RefusedExactly` puts in terms of the text |
| NameScope.NamesDenote | internal/lower/stmt.go:129-176 | given the refusals, every name emitted for a body denotes under C++'s point of declaration what its Go name denotes if and only if: no limit reads a variable named like the key that counts, nothing ranged over with a value is named like a variable of the clause, no later initialiser of one var list reads a variable named like an earlier one, and no length, and no name of the device such as threadIdx, is read under a variable spelled like it |
| NameScope.RangeEmitted | internal/lower/stmt.go:997-1112 | the same for one range clause, with its counter the key, a reserved name, or a reserved name with the key a copy, and its value read in the body |
| NameScope.CounterIs | internal/lower/stmt.go:1053-1086 | a reserved counter is new, and ends as no keyword, escaped keyword or generated length does |
| NameScope.StillResolves | internal/lower/stmt.go:1080-1086 | a variable nothing names changes nothing Go resolves |
| NameLimits.OrdinaryIsSafe | internal/lower/stmt.go:185-227 | those are met by every body with one variable per declaration, range clauses whose variables are not named like what they read, and no variable spelled like a length or a name of the device it reads: a := a + 1 at any depth included |
| NameLimits.VarListReadsTooLate | internal/lower/stmt.go:733-778 | var x, y = e, x under an outer x resolves in Go and resolves elsewhere in C |
| NameLimits.RangeValueReadsItself | internal/lower/stmt.go:1097-1105 | so does for i, x := range x |
| NameLimits.KeyHidesLimit | internal/lower/stmt.go:1080-1110 | for x := range x over an integer resolves in C if and only if the body writes the key |
| NameLimits.SliceKeyIsFine | internal/lower/stmt.go:1026-1028 | over a slice it always does |
| NameLimits.TileLengthIsHidden | internal/lower/stmt.go:534-561 | a variable of an inner block hides the length of a tile sized by the launch, in a kernel that is not refused and would be for a slice parameter |
| NameLimits.IndexNameIsHidden | internal/lower/expr.go:85-100 | a variable declared as threadIdx, blockIdx, blockDim or gridDim passes every refusal, and an initialiser that reads that name reads the variable |
| NameLimits.SlicesApart | internal/lower/lower.go:815-828 | the refusals keep every variable from being spelled like the length of a slice parameter |
| NameLimits.StaysTidy | internal/lower/stmt.go:129-167 | every name the emitter makes up ends as no length and no index name does, through any body |
| CppWords.NameIsReserved | internal/lower/expr.go:991-1007 | an emitted name is a word C++ keeps if and only if the Go name is one and is not among those escaped |
| CppWords.EscapedAreReserved | internal/lower/expr.go:991-1000 | nothing is escaped that C++ does not keep |
| CppWords.WhileIsNotEscaped | internal/lower/expr.go:991-1007 | a variable named while passes every refusal and is emitted as it is |
| NameScope.LookupInC | internal/lower/stmt.go:171-176 | what Go finds in a list of scopes, C finds under the emitted name |
| NameScope.LookupIs | internal/lower/stmt.go:171-176 | a name denotes an object if and only if it is that of the innermost variable so named |
| NameScope.SharedName | internal/lower/lower.go:815-866 | two objects share a C name exactly if they share a Go name and neither was renamed |
| NameScope.UsesResolve | internal/lower/stmt.go:129-167 | with declarations in between, uses resolve to what they denote exactly if none of those captures a variable and nothing in scope is spelled like a length or a name of the device they read |
| NameScope.SpareIs | internal/lower/stmt.go:129-167 | a spare name ends in a digit, so it is no keyword and no escaped keyword, and it is new |
| NameScope.CheckGeneratedNames | internal/lower/lower.go:815-866 | accepts exactly if no escaped keyword and no generated length parameter is spelled like a declared name, and no declared name begins with the emitter's prefix |
| NameScope.Namer.ShadowRename | internal/lower/stmt.go:129-167 | renames exactly a variable whose initialiser reads an outer one of the same name |
| NameScope.Namer.Declare | internal/lower/stmt.go:722-783 | names each variable before it renders its initialiser, list by list |
| NameScope.Namer.Write | internal/lower/stmt.go:185-227 | the emitter over its mutable table writes the names the theorem is about |
| NameScope.Namer.WriteRange | internal/lower/stmt.go:997-1112 | the range clause: the limit and what is ranged over are named before the counter is reserved, and the counter is released after the body |
| ReadOnly.UnwrittenIsReadOnly | internal/lower/readonly.go:27-69 | the promise of const: no execution, through any depth of calls and any cycle, changes memory that only unreported parameters reach |
| ReadOnly.WritesOnly | internal/lower/readonly.go:133-176 | for any statement covered by a closed memo, an execution changes nothing outside the reported parameters and the shared tiles |
| ReadOnly.AnalyseCloses | internal/lower/readonly.go:27-69 | the walk terminates on every call graph and leaves the memo closed: every finished function is covered by what the memo says of its callees |
| ReadOnly.AnalyseIsExact | internal/lower/readonly.go:27-69 | without a cycle a parameter is reported if and only if some path through the calls stores through it |
| ReadOnly.Analysis.WrittenParams | internal/lower/readonly.go:27-69 | the memoised analysis over its fields, a function on the stack or without a body being taken to write everything |
| ReadOnly.Analysis.Inspect | internal/lower/readonly.go:52-64 | the walk over a body marks what the specification marks and restores the stack |
| ReadOnly.Analysis.MarkEvery | internal/lower/readonly.go:168-176 | every argument that is a parameter is marked |
| ReadOnly.Analysis.MarkForwarded | internal/lower/readonly.go:179-200 | an argument is marked if the parameter it becomes is written |
| ReadOnly.ForwardsExactly | internal/lower/readonly.go:179-200 | and exactly then |
| Aliasing.RestrictHolds | simt/kernel.go:323-369 | if the launch and every call are accepted, then in every reachable frame no parameter the function may write shares a byte with another of its parameters |
| Aliasing.OverlapIsShared | simt/kernel.go:350-357 | the comparison of two address ranges skips a pair exactly if no byte is in both |
| Aliasing.LaunchRestricts | simt/kernel.go:323-369 | an accepted launch gives the kernel's own frame that property |
| Aliasing.CallKeepsRestrict | internal/lower/readonly.go:210-235 | an accepted call hands it on to the callee |
| Aliasing.CheckAliasing | simt/kernel.go:323-369 | the pairwise loop refuses exactly if some byte is in two slices and one of them is written, and names a written one and another that has that byte |
| Aliasing.Spans | simt/kernel.go:323-349 | the spans are the non-empty buffers that can be compared, each once, in order |
| Aliasing.AliasedArgs | internal/lower/readonly.go:210-235 | a call is refused exactly if one buffer stands for two parameters and one of the two is written |
| StructLayout.OffsetsArePinned | internal/lower/struct.go:90-107 | layout pinning: in every C layout that keeps order, does not overlap and has Go's size, every member is packed and every field is at Go's offset |
| StructLayout.HolesMove | internal/lower/struct.go:90-107 | without the padding there is a layout of Go's size with a field elsewhere |
| StructLayout.StructType | internal/lower/struct.go:47-121 | the loop refuses exactly if a field is embedded, blank or begins like a pad, and otherwise declares every field once, in order, with every hole filled |
| StructLayout.MemberNamesDiffer | internal/lower/struct.go:47-121 | no two members of an accepted struct, fields or pads, share a name |
| StructLayout.DeclareField | internal/lower/struct.go:65-107 | a turn of the loop keeps all sizes so far summing to Go's offset, and pads exactly a hole |
| StructLayout.PadNamesDiffer | internal/lower/struct.go:90-107 | no two pads share a name |
| StructLayout.PadNameIsNew | internal/lower/struct.go:161-171 | no accepted field has a pad's name |
| StructLayout.Composite | internal/lower/struct.go:206-263 | every field gets the value last written for it, by name or position, or the zero of its type; refused exactly if an element is for no field |
| StructLayout.WithPadding | internal/lower/struct.go:268-284 | an empty initialiser stands before exactly the fields with a pad before them, and at the end for a tail |
| StructLayout.LiteralStores | internal/lower/struct.go:206-284 | the padded positional literal stores every field's own value at Go's offset of the field |
| TileRun.FusedIsMeaning | tile/codegen.go:16-131 | for every graph the builder accepts, every length, launch shape and interleaving, the fused kernel leaves in out the pointwise meaning of the graph |
| TileRun.FusedIsSafe | tile/codegen.go:80-107 | in no run is a buffer or tile accessed out of bounds, a slot read before it is written, or a slot or a result written twice |
| TileRun.SomebodySteps | tile/codegen.go:80-107 | no run is stuck at a barrier before it is finished |
| TileEnd.RunsEnd | tile/codegen.go:80-107 | and every run ends: none is longer than the work there is at its start |
| TileEnd.RunFinishes | tile/codegen.go:80-107 | so from wherever a run has come to it can be left to finish |
| TileWait.FusedOverBarrier | gpu/gpu.go:456-539 | over the generation barrier itself, threads parked, woken and leaving in any order, no run of the fused kernel makes a fault, and a finished one leaves the meaning of the graph |
| TileWait.NeverStuck | gpu/gpu.go:484-539 | and none is stuck at that barrier before it is finished |
| TileWait.BarrierRun | gpu/gpu.go:146-159 | what threads do between their arrivals and returns is a run of the fused kernel: a wait that returned true found every thread of the block at it or past it |
| TileRun.BlockStep | tile/codegen.go:80-107 | every step of a thread keeps: each slot that was passed holds the signal around the start of its block, each accumulator a prefix of its window sum |
| TileRun.ExprValue | tile/codegen.go:110-131 | where the fused expression is evaluated it is in bounds and has the value of its node |
| TileRun.StagedValue | tile/codegen.go:94-100 | what is staged is the signal, extended by zeros before the start and past the end |
| TileRun.TermReads | tile/codegen.go:101-106 | the slot a term reads was written, and holds a[n - k] |
| TileRun.BaseIs | tile/codegen.go:41-43 | the first index of a block is block times dimension |
| TileKernel.VisitExtends | tile/codegen.go:135-144 | the traversal lists a node once, after everything it depends on, and nothing else of another length but inputs |
| TileKernel.Order | tile/codegen.go:135-144 | so what the root depends on is known, complete and without repetition |
| TileKernel.Generator.Postorder | tile/codegen.go:135-144 | the traversal over a mutable set of seen nodes lists what the pure one lists |
| TileKernel.Generator.CollectInputs | tile/codegen.go:23-36 | the parameters are the inputs in that order |
| TileKernel.Generator.Windowed | tile/codegen.go:80-107 | a window is generated from the locals before it and then becomes one |
| TileKernel.Generator.CollectWindows | tile/codegen.go:46-50 | one window for each windowed operation, in order |
| TileKernel.Generator.Run | tile/codegen.go:16-61 | the generator over its fields writes the kernel the theorem is about |
| TileGraph.BuiltAppend | tile/tile.go:72-76 | appending a node whose arguments are earlier and fit keeps the graph built |
| TileGraph.Graph.constructor | tile/tile.go:60-60 | a new graph is empty and has not failed |
| TileGraph.Graph.Append | tile/tile.go:72-76 | appends exactly the node and returns its handle |
| TileGraph.Graph.NewInput | tile/tile.go:86-88 | an input of the length of its data |
| TileGraph.Binary | tile/tile.go:93-103 | operands of two graphs or of two lengths fail and change nothing else; otherwise the node is appended |
| TileGraph.Pointwise | tile/tile.go:116-128 | a pointwise node of the length of its operand |
| TileGraph.NewFir | tile/tile.go:135-149 | no taps, too many taps or a window that the signal already depends on through arguments fail and change nothing else; otherwise the coefficients and the window are appended |
| TileGraph.ContainsFirIs | tile/tile.go:151-161 | the search through arguments finds a window exactly if a path of arguments leads to one |
| TileStep.FusedIsStepwise | tile/run.go:85-154 | the two paths agree: whatever run the one fused kernel makes, and whatever runs the kernels of the one-kernel-per-operation path make, they leave the same values |
| TileStep.BufferIsMeaning | tile/run.go:113-154 | every buffer of that path, left by a run of its own kernel over the buffers of its arguments, holds the pointwise meaning of its node |
| TileStep.Stepwise.Step | tile/run.go:113-154 | the memoised path returns that meaning, each buffer it makes is one that a finished run of its operation's kernel leaves, it changes none it had, and launches once for each operation |
| TileStep.Stepwise.RunOne | tile/run.go:135-153 | a launch of one operation delivers a buffer that some finished run leaves |
| TileStep.IsLaunched | tile/run.go:75-82 | the launch has a block for every index of the result, and no block without one |
| TileStep.MeaningDelivered | tile/run.go:37-82 | the launch of a graph can be made, and finishes with the meaning of the root |
| TileStep.DeliversMeaning | tile/run.go:37-82 | no launch of a graph leaves anything but the meaning of its root |
| TileStep.SingleValue | tile/run.go:113-154 | an operation over the values of its arguments has the value it has in the graph |
| TileStep.SingleLaunch | tile/run.go:113-154 | the kernel of one operation, in any run, leaves that value |
| Barrier.StepInv | gpu/gpu.go:456-539 | arriving, waking, timing out and leaving all keep: count and mask are exactly the threads parked in the current generation, n those in the kernel, and count < n while n > 0 |
| Barrier.RunInv | gpu/warp.go:334-420 | so they hold after every run |
| Barrier.NoneLeftUnreleased | gpu/gpu.go:484-539 | no complete generation is left unreleased: while a thread is in the kernel one of them is not parked |
| Barrier.WhenReleased | gpu/warp.go:413-420 | a closed generation was closed by a step at which everybody in the kernel had arrived in it, and holds their mask ever after |
| Barrier.WaitIsRendezvous | gpu/warp.go:357-400 | in any run, a wait that returns true, woken, last to arrive or too late for its timer, belongs to a generation that was released when every thread still in the kernel had arrived in it, and reports their mask |
| Barrier.WarpBarrier.constructor | gpu/warp.go:350-352 | a fresh barrier |
| Barrier.WarpBarrier.ReleaseLocked | gpu/warp.go:413-420 | closes the generation with its mask and starts an empty one |
| Barrier.WarpBarrier.ArriveAt | gpu/warp.go:357-369 | joins the current generation, and reports a release exactly if this arrival completed it |
| Barrier.WarpBarrier.GiveUp | gpu/warp.go:374-400 | withdraws exactly if the generation was not released between timer and lock |
| Barrier.WarpBarrier.Leave | gpu/warp.go:403-410 | leaving completes the generation if those that remain are all parked in it |
| Barrier.BlockBarrier.constructor | gpu/gpu.go:478-480 | a fresh block barrier is a warp barrier with the mask forgotten |
| Barrier.BlockBarrier.ReleaseLocked | gpu/gpu.go:515-519 | count starts again, in the next generation |
| Barrier.BlockBarrier.ArriveAt | gpu/gpu.go:484-493 | simulates the arrival above |
| Barrier.BlockBarrier.GiveUp | gpu/gpu.go:497-512 | simulates the withdrawal above |
| Barrier.BlockBarrier.Leave | gpu/gpu.go:531-539 | simulates the leaving above |
| WarpExchange.ExchangeIsLockstep | gpu/warp.go:227-326 | in every interleaving a lane gets from its k-th exchange what lockstep execution gives it: of a vote the lanes that took part and those of them that asked with a value other than zero, of a shuffle what the source lane asked with if it took part and its own value if not; it sees the lanes of that round as the arrival mask, and reports a mismatch exactly if some of them met in another operation |
| WarpExchange.NextIsTold | gpu/warp.go:227-275 | lockstep execution: whoever takes part in a round goes on with what it makes of what it is told in it, and nobody else goes on |
| WarpExchange.VotesAreCounted | gpu/warp.go:146-164 | in any run Any holds if and only if some lane that took part voted for, and All if and only if every one did |
| WarpExchange.SlotsHold | gpu/warp.go:299-326 | between the two waits every slot holds what its lane published for this rendezvous: none is overwritten before all have read |
| WarpExchange.ReadsDue | gpu/warp.go:227-275 | what a lane reads is the source lane's value of this rendezvous, its own if the source is not in the mask, or the lanes of the mask and which of them hold a value other than zero; no slot that counts was overwritten |
| WarpExchange.MoveInStep | gpu/warp.go:299-326 | every critical section keeps the invariant behind them |
| WarpExchange.SomebodyMoves | gpu/warp.go:357-420 | no interleaving is stuck while a lane is in the kernel |
| WarpLaunch.OutHoldsTrees | kernels/warpreduce.go:21-43 | in every interleaving of every launch of whole warps, over inputs and outputs of any length, a finished kernel has left in out, for each warp, the balanced tree of its 32 inputs padded with zeros, and changed nothing else |
| WarpLaunch.OutHoldsSums | kernels/warpreduce.go:21-43 | with an associative and commutative + that is their sum |
| WarpLaunch.TotalIsKept | kernels/warpreduce.go:21-43 | conservation: those sums add up to the sum of the whole padded input, every element counted once |
| WarpLaunch.SomebodySteps | kernels/warpreduce.go:21-43 | no launch is stuck before every lane is out |
| WarpLaunch.RunsEnd | kernels/warpreduce.go:21-43 | and every launch finishes: no run is longer than the work there is at its start |
| WarpLaunch.StartLeft | kernels/warpreduce.go:34-36 | which is at most 36 steps for each lane |
| WarpReduce.LaneZeroHoldsTree | kernels/warpreduce.go:34-36 | in every interleaving of a full warp lane 0 leaves the loop after five rounds with the balanced tree of all 32 values |
| WarpReduce.LaneZeroHoldsSum | kernels/warpreduce.go:34-36 | with an associative and commutative + that is the sum over the warp |
| WarpReduce.HalvedIsTree | kernels/warpreduce.go:34-36 | after k rounds the lanes that count hold the balanced trees, although the others add themselves |
| WarpReduce.HalvedKeepsSum | kernels/warpreduce.go:34-36 | and their sum is that of the inputs |
| WarpReduce.Reduce | kernels/warpreduce.go:34-36 | the halving loop runs those rounds |
| Histogram.HistogramCounts | kernels/histogram.go:23-50 | in every interleaving of threads and blocks a finished launch adds to every bin below 256 the number of covered samples equal to it, modulo 2^32, and leaves the others alone |
| Histogram.SomebodySteps | kernels/histogram.go:23-50 | no launch is stuck at a barrier before it is finished |
| Histogram.RunsEnd | kernels/histogram.go:23-50 | and every launch finishes: no run is longer than the work there is at its start |
| HistogramWait.CountsOverBarrier | gpu/gpu.go:456-539 | over the generation barrier itself a finished launch has counted the same |
| HistogramWait.NeverStuck | gpu/gpu.go:484-539 | and none is stuck at that barrier before it is finished |
| BlockWait.MoveGuarded | gpu/gpu.go:146-159 | for any kernel whose threads wait equally often and then leave, a wait that returns true finds every thread of its block at that wait, past it or gone |
| BlockWait.RunGuarded | gpu/gpu.go:456-539 | so every run over the barriers is, for the kernel, a run in which a thread passes a wait once all have come to it |
| BlockWait.SomebodyMoves | gpu/gpu.go:484-539 | and one over which nobody waits forever |
| Histogram.BlockStep | kernels/histogram.go:23-45 | every step keeps: a tile bin past its clearing is the count so far modulo 2^32 |
| Histogram.WorldStep | gpu/atomic.go:74-80 | every step keeps: a global bin is its start plus the counts of the blocks that folded it, modulo 2^32 |
| Grid.CoordThenFlat | gpu/gpu.go:70-72 | an index below the extent has a position inside it, and the position has that index |
| Grid.FlatThenCoord | gpu/gpu.go:64-72 | a position inside the extent is that of its index |
| Grid.XIsFastest | gpu/gpu.go:68-72 | the threads are numbered from the origin with x fastest, then y, then z |
| Grid.LanesAreThreads | gpu/gpu.go:368-394 | warps partition the threads of a block: every thread is one lane of one warp, every warp has one, the last warp short |

## Left out

Contracts stated weaker than one could wish:

- DivergeSound.DivergenceSound: speaks of kernels in which the exit walk and a strict one agree (`Covered`) and of labels that resolve; what it excludes is refuted in `DivergeLimits`. Buffers do not change during the two runs, and switches are not in the fragment.
- DivergeSound.AlikeRun: of such statements, likewise.
- DivergeSound.UniformAtExit: of such kernels, and for bodies without returns; a thread that has returned has no common exit to compare at.
- DivergeSound.NoExitNoBranch: for the strict walk; exitsVarying does not see what `DivergeLimits` shows.
- DivergeSound.NoExitNoReturn: for the strict walk, too; `DivergeSound.CoveredNoReturn` is the statement for exitsVarying.
- ExprGrammar.RoundTrip: the part of the two grammars the printers write: no assignment, conditional or comma expression, no member access or pointer, and types only by their words.
- GoText.PrintedTree: integer and boolean literals, variables, elements, len and conversions; no float literals, field selectors or other calls.
- GoText.PrintFaithful: the same expressions.
- GoText.LiteralFaithful: integer literals.
- StmtSound.LoweringSound: the condition on integer-range limits (`LimitHolds`) is sufficient and not necessary: a body may write the limit and happen to keep its value. Value ranges are over slices, as an array in Go is copied first.
- StmtSound.RangeSim: under the same condition on the limit and for the same ranges.
- NameScope.NamesDenote: objects are taken apart by the type checker; switch and if initialisers are blocks of their own; the temporaries of a parallel assignment are those of `StmtSound`. Whether C++ accepts a body that redeclares the variable of its own loop or a parameter in the outermost block is not modelled: it does not, and says so.
- ReadOnly.AnalyseIsExact: exactness is stated without call cycles, on which the analysis is deliberately pessimistic.
- Aliasing.RestrictHolds: functions are ordered callees first, because recursion is refused when a kernel is lowered (internal/lower/lower.go:538-541). base + bytes is unbounded where the source adds in 64 bits.
- TileRun.FusedIsMeaning: numbers are integers under arbitrary operations, so equality is exact and the order of a sum matters; rounding and contraction of a multiply and an add are not modelled.
- WarpExchange.ExchangeIsLockstep: no wait times out (in `Barrier` timers may fire at any step). ActiveMask and SyncWarp are votes and exchanges without a value.
- WarpLaunch.OutHoldsTrees: the block size is a multiple of the warp size, as the kernel asserts (kernels/warpreduce.go:22).
- Histogram.HistogramCounts: a thread passes a barrier when all threads of its block have come to it; `HistogramWait` runs the same kernel over the barrier.
- TileWait.FusedOverBarrier: no wait times out (in `Barrier` timers may fire at any step); a thread leaves the block barrier with its last step.
- HistogramWait.CountsOverBarrier: likewise.
- BlockWait.MoveGuarded: likewise.
- Barrier.WaitIsRendezvous: a timer is a step that may happen at any time; durations are not modelled.

Not modelled:

- Floating point: operations on floats are uninterpreted, and the float32-to-bits round trip of a shuffle is the identity.
- Go int narrowed to 32 bits, 8- and 16-bit integers, compound assignment and ++ overflow, and the refusals about them (refuseNarrowBinary, refuseWideShift, checkNarrowing).
- Calls, struct selectors and bounds checks inside the expression emitter beyond one-argument conversions and one-level subscripts.
- In the statement language subscripts are total, expressions have no effects, and two labels never share a C spelling.
- Struct fields whose escaped names collide, alignment, and the static assertions themselves: that sizeof equals Go's size is the hypothesis of the layout theorem.
- Arguments of a launch that cannot report the memory they name are skipped, as in the source.
- tile/alias.go, buffer lifetimes and the device side of tile/run.go.
- Go parsing and type checking, diagnostic wording and positions, code formatting.
- The CUDA driver, NVRTC, the JIT and its caches, the generator, the vet front end, random generation and tolerance comparison of the fuzzer, and the other example kernels, which would add only easier members.
