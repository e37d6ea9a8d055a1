# Two engines, one template language

Quill renders a template with two engines: a tree-walking interpreter over a chain of name frames, and a
compiler that turns the same template into straight code over locals. The promise of the repository is that
both give the same bytes and the same errors. This project models both engines and proves that promise for
the statement and expression language below, with the optimizations of each engine on, and proves the
central laws of the parts around them.

The modules follow the program.

- **Language and runtime.** `values`, `syntax`, `scope`: values, abstract syntax, and the parent-linked chain
  of insertion-ordered frames. `coercions` says what the coercions and operators mean that both engines share.
- **The interpreter.** `interp` is the reference semantics. `reuse` is the interpreter as it recycles loop
  memory, over a heap of loop objects and a pool of pair buffers; `machine` is that interpreter as an object
  that updates scope, output and memory in place. `escape` is the analysis that decides which loops may
  recycle, with its analyzer object, and `reusesim`, `reuserun` prove the recycling invisible.
- **The compiler.** `scan` and `collector` are the frame prescan, `lower` the lowering, `target` the code it
  emits, `compiler` the compiler as an object over a code buffer, frame stack and counters. `agree` states the
  invariant between scope chain and frames; `resolve`, `binding`, `context`, `exprsim`, `evalsim`, `stmtsim`,
  `loopsim`, `filtersim`, `copysim`, `execsim` and `modulesim` are the simulation; `failures` shows that the
  interpreter has no internal error to agree with.
- **The loop optimizer.** `loopopt`, `analyzer` and `safety` are the compiler's analysis, its object and what
  its decisions must guarantee; `nodes`, `loopsafe` and `optimized` prove that they do. `loopfields`
  says what the loop fields mean by the iterations before and after. `engines` puts both optimized engines
  side by side.
- **Composition.** `composition` is the inheritance chain and block table, built ahead of time and at render
  entry; `inlining` is the compiler's inlining of block bodies against the interpreter's current block.
- **Deferred output.** `slots`, `cacheregion` and `regionkeys`: placeholders, their resolution, and cached
  regions over a shared store. `closure` decides when a render may stream.
- **The scanner.** `tokens` is the tokens and the tests on the bytes ahead, `lexer` the scanner object; `tiling`
  says, apart from the scanner, what each stretch of a source spells and what it is for the tokens to tile it;
  `lextext` is escaping.
- **Smaller cores.** `int64` (checked arithmetic), `indent` (the output layer), `consistency` (the gradual
  types).

Where the original updates an object step by step, the model has a class or a loop proved equal to a
function, and the theorems are about the function; the rows below name both. Randomness and outside choices
are parameters: the free buffer the pool hands out, the alias a map iteration meets first, the token of a
render, what a loader serves.

## Model

| member | source | states |
|---|---|---|
| `ModuleSim.ModuleRenders` | internal/compile/stmt.go:1075-1528 | for every statement list, vars map, lenient or strict mode and every loop plan that is safe for it, the compiled flags and locals render the same bytes as the interpreter's scope chain, or fail with the same error after the same output, and leave the same names visible in the same order |
| `ModuleSim.PlainRenders` | internal/compile/stmt.go:32-144 | the same for the lowering without loop decisions, on every statement list and every vars map, with no side condition on the program |
| `ModuleSim.NoPanic` | internal/compile/gen.go:885-931 | no compiled run reaches a compiler panic: every name the lowering binds or copies back was in its frame's prescan, and no read reaches the loop local an inline loop never assigns |
| `ModuleSim.DefiniteBound` | internal/compile/gen.go:885-931 | a name the lowering calls definite after a statement list was bound in the current frame by every run that gets there, across branches, short circuits and loops with no iteration, and its local holds the value the scope chain resolves |
| `ExecSim.SimList` | internal/interp/exec.go:534-690 | from any point where scope chain and frames agree, a lowered list runs to the interpreter's outcome, keeps every older temporary and every frame below, and restores the agreement: prefix-wise equal lookups and equal visible names in order, whatever extra shadow copies the interpreter holds |
| `EvalSim.SimE` | internal/compile/expr.go:16-592 | every lowered expression, with or without undefined suppression, evaluates to the interpreter's value or its error, with the same bindings made along the way in the same order |
| `Resolution.RunProbe` | internal/compile/gen.go:619-740 | the emitted resolution chain finds a name exactly when a walk of the live frames does, with that walk's value; a chain that ends in a definite link needs no found flag |
| `CopySim.RunCopyBack` | internal/compile/stmt.go:1392-1528 | the emitted copy-back of a list of names reaches a state that agrees with the scope after those names are copied back |
| `CopySim.CopySame` | internal/interp/exec.go:626-690 | copying back only the names the body may bind gives the same lookups and the same visible names in order as copying back every name that existed before the loop |
| `ContextSim.SimContext` | internal/compile/gen.go:789-880 | the emitted enumeration of the visible names builds the interpreter's context mapping, names and values in the same order |
| `BindSim.WrittenAgree` | internal/compile/gen.go:885-931 | the emitted bind changes what the current name resolves to and nothing else, so agreement with the scope chain that set the name is restored |
| `FilterSim.SimFilter` | internal/compile/stmt.go:1219-1263 | the fused-filter pre-pass keeps exactly the pairs the interpreter keeps, fails where it fails, and leaves the scope as it was |
| `Compiler.Lowerer.Stmt` | internal/compile/stmt.go:44-144 | the compiler object, appending to its buffer and updating frames, counters and conditional depth in place, emits the code and reaches the state of the lowering function |
| `Compiler.Lowerer.StmtFor` | internal/compile/stmt.go:1075-1179 | a loop lowered in place: iterable, filter pass, empty arm, persistent frame, body and copy-back are those of the lowering function, and so are the counters after it |
| `Compiler.Lowerer.EmitCopyBack` | internal/compile/stmt.go:1392-1435 | the copy-back emitted by a loop over the names is that of the lowering function |
| `Compiler.Lowerer.Bind` | internal/compile/gen.go:885-931 | order maintenance, local, flag and definite bit of a bind emitted in place |
| `Compiler.CompileModule` | internal/compile/stmt.go:15-42 | a module compiled by the object is the module of the lowering function, so the rendering theorems are about what it emits |
| `Collector.CollectNames` | internal/compile/scan.go:13-158 | the prescan, run with a mutated name list, collects each name once in first-appearance order |
| `Analyzer.LoopAnalyzer.Fixpoint` | internal/compile/loopopt.go:210-262 | the loop to fixpoint terminates and ends in the least set that holds the initial marks and is closed under parent links and the chain rule, whatever order the rules fire in |
| `Analyzer.AnalyzeLoops` | internal/compile/loopopt.go:172-262 | the walk and the fixpoint together return that least set for the module, the only one there is, and the inline reads it approves |
| `LoopSafe.WalkSafeL` | internal/compile/loopopt.go:383-455 | for every solved analysis, its decisions are safe for a statement list at every frame stack exactly when the bodies the walk never enters stand clear of inline loops or do not mention their loop: no read of loop reaches a loop without a loop value, and every approved read names the loop it resolves to |
| `Nodes.IdentifiedSites` | internal/compile/loopopt.go:383-455 | in a program whose node identities denote its nodes, everything the walk records under an identity is what the node of that identity holds |
| `Optimized.DecisionsSafe` | internal/compile/loopopt.go:172-262 | that if-and-only-if for whole modules under the analysis' own decisions |
| `Optimized.OptimizedModule` | internal/compile/loopopt.go:1085-1141 | a module lowered with counters in place of loop objects renders as the interpreter does, loop field reads through any number of parent steps included |
| `Optimized.OptimizedRenders` | internal/compile/loopopt.go:1085-1276 | the same for every module without apply bodies, with no condition on the plan |
| `Optimized.SkippedDiffers` | internal/compile/loopopt.go:383-441 | a loop read inside an apply body is missed by the walk: the compiled module renders where the interpreter fails |
| `LoopFields.FieldMeans` | pkg/runtime/loopinfo.go:102-127 | each field of a loop value says what it is named for: the number of iterations up to, before, from and after this one and in all, whether none came before or follows, and the elements of the neighbouring iterations |
| `LoopFields.CounterMeans` | internal/compile/loopopt.go:1080-1128 | the arithmetic over counter and length that stands in for a loop object computes the same |
| `LoopFields.ParentMeans` | pkg/runtime/loopinfo.go:102-146 | through parent, the fields are those of the enclosing iteration; a name that is no field is undefined |
| `LoopFields.InterpretedPrints` | internal/interp/exec.go:534-690 | for every sequence of elements, a loop that prints one of its fields writes the text of each iteration in order, so loop.index writes 1 up to the number of elements |
| `LoopFields.CompiledPrints` | internal/compile/loopopt.go:1085-1276 | the compiled loop writes that too, with a loop object and under the plan of counters alone |
| `LoopFields.PrintingPlan` | internal/compile/loopopt.go:172-262 | the analysis gives such a loop counters alone: it records the one read and nothing against it |
| `LoopFields.PrintingCleared` | internal/interp/loopescape.go:103-141 | the interpreter's analysis clears such a loop for recycling |
| `LoopFields.LoopLeaves` | internal/interp/exec.go:626-690 | after its last iteration a loop leaves the same names, each with the value the iterations left it with, but for its targets and loop, which are as before |
| `ReuseRun.RecycledRenders` | internal/interp/exec.go:509-690 | over a template whose cleared loops never let their loop value escape, one loop object advanced in place and pair buffers taken from a pool render as fresh loop values and fresh snapshots do, whichever free buffer the pool hands out |
| `Escape.AnalysisSound` | internal/interp/loopescape.go:103-587 | the loops the interpreter's analysis clears meet that condition: recycling exactly them changes no output, no error and no visible name |
| `Escape.EscapeAnalyzer.Propagate` | internal/interp/loopescape.go:128-141 | the propagation over parent links ends in the least set that holds the marks |
| `Escape.AnalyzeLoopEscapes` | internal/interp/loopescape.go:103-141 | the analysis returns the loops it visited outside that least set, but for those with a fused filter |
| `Machine.Interpreter.Evaluate` | internal/interp/eval.go:17-425 | evaluation that rebinds the interpreter's scope in place gives the value, the error and the scope of the recursive semantics |
| `Machine.Interpreter.ExecItem` | internal/interp/exec.go:314-459 | a statement executed in place leaves the scope, output and loop memory of the recycling semantics, or its error after the same output |
| `Machine.Interpreter.ExecLoop` | internal/interp/exec.go:534-690 | a loop executed in place: snapshot, loop object, per-iteration binds, copy-back and buffer release are those of the recycling semantics |
| `Engines.EnginesAgree` | internal/interp/exec.go:534-690 | compiled code under its loop analysis and the recycling interpreter under its own give the same bytes, errors and visible names, on every module without apply bodies and every vars map of ordinary values |
| `Slots.ReplaceFills` | internal/interp/slots.go:113-124 | replacing one label's placeholder everywhere puts the content at exactly its yields, for any content, provided no run of text between two yields, the first of another name, reads as that label |
| `Slots.ReplaceExact` | internal/interp/slots.go:113-124 | for contents of plain text, the replacement equals filling if and only if that condition holds |
| `Slots.SharpExact` | internal/interp/slots.go:113-124 | over the whole sequence of passes, each pass equals filling if and only if the condition holds before each of them |
| `Slots.SharpFilling` | internal/interp/slots.go:113-124 | with contents that themselves yield, the condition before each pass makes each pass a filling |
| `Slots.LeftExact` | internal/interp/slots.go:113-124 | the placeholders that survive the passes are exactly those computed from the labels alone |
| `Slots.LaterExact` | internal/interp/slots.go:113-124 | with every standing slot reserved, as in every render, no placeholder survives the passes if and only if each pass that finds its label brings in only slots reserved after it |
| `Slots.YieldAgain` | internal/interp/slots.go:113-124 | a label reserved before and after the label inside its contribution meets that condition |
| `Slots.ResolveSplices` | internal/interp/slots.go:113-124 | where no pass tears a text, the finished text is the document with every label's content spliced at its yields, nested yields included, if and only if that condition holds |
| `Slots.ClearSharply` | internal/interp/slots.go:113-124 | a document whose texts between yields read as no other label meets the conditions for every order and repetition of the label list |
| `Slots.AmbiguousText` | internal/interp/slots.go:102-124 | text between two yields that reads as a yielded label is taken for a placeholder |
| `Slots.YieldInsideProvide` | internal/interp/slots.go:113-124 | a yield inside a contribution whose label was passed already stays in the output as a placeholder |
| `CacheRegion.StoreInvisible` | internal/interp/exec.go:1068-1152 | over every sequence of renders and invalidations sharing one store, provided the regions of each key all write one text or all touch the slots, each output is what a render without a store writes |
| `RegionKeys.InvisibleExact` | internal/interp/exec.go:1068-1152 | for a set of regions, no render over them can tell the store from rendering afresh if and only if the regions of each key all write the same text or all touch the slots |
| `CacheRegion.TwoBodies` | internal/interp/exec.go:1068-1152 | two regions of one key that write different texts: the second is served the first one's text |
| `CacheRegion.OpeningNotStored` | internal/interp/exec.go:1112-1152 | a region that only opens a slot buffer is not stored |
| `CacheRegion.HitReplays` | internal/interp/exec.go:1068-1152 | whatever keys regions share, an entry a step finds is one the store began with or the text that a region of that key, run in an earlier step, writes without touching the slots |
| `CacheRegion.NoStoredToken` | pkg/cache/cache.go:64-119 | over every sequence of renders of plain texts and labels and of invalidations, whatever keys their regions share, no stored body contains a placeholder token |
| `CacheRegion.RenderSplices` | internal/interp/slots.go:74-124 | a render in which no text is torn outputs its document with every contribution spliced at its yields if and only if each pass brings in only slots reserved after it |
| `CacheRegion.TornRender` | internal/interp/slots.go:102-124 | a whole render in which a text between two yields reads as a label reserved before them: its output keeps a placeholder and differs from the splice, whatever the label's content |
| `CacheRegion.ClearRenderSplices` | internal/interp/slots.go:74-124 | the same for every render without a yield inside a contribution whose texts read as no label |
| `CacheRegion.StoreSplices` | internal/interp/exec.go:1068-1152 | the same if-and-only-if for each render in a sequence that shares a store, hits and invalidations included, provided the regions of each key all write one text or all touch the slots |
| `CacheRegion.InvalidationDrops` | pkg/cache/cache.go:89-112 | after any renders, tag invalidations and wipes, invalidating a tag drops the entry of every key that a region stored under that tag, and leaves the entry of a key no region stored under it |
| `CacheRegion.RendersAgain` | internal/interp/exec.go:1112-1152 | so the next region of such a key renders its own body, as without a store when the body holds no region itself |
| `CacheRegion.RegionRenderer.Exec` | internal/interp/exec.go:1068-1152 | text, yield, provide and cached region executed in place leave the output, slot buffers, labels and store of the specification, the tags a region is filed under included |
| `CacheRegion.RegionRenderer.ResolveSlots` | internal/interp/slots.go:113-124 | the loop over the yielded labels gives the sequential replacement |
| `CacheRegion.RegionRenderer.Finish` | internal/interp/slots.go:74-124 | a render from its start leaves the store, entries and tags, and gives the finished output of the specification |
| `CacheRegion.RenderStore.Put` | pkg/cache/cache.go:89-102 | storing a body overwrites that key and indexes it under each of its tags, and changes no other key or tag |
| `CacheRegion.RenderStore.InvalidateTag` | pkg/cache/cache.go:104-112 | invalidating a tag drops exactly the keys filed under it, and the tag |
| `Composition.LinkNotRejected` | internal/compile/unit.go:215-365 | on every closed static template set with acyclic uses nested within the limit, the linker never declines: it links or reports an error the render would raise |
| `Composition.LinkAgrees` | internal/compile/unit.go:215-494 | on every such set, the linker and the run-time builder produce the same chain and the same ordered definitions per block, or the same first error up to which of the undefined aliased blocks is named |
| `Composition.AcceptedAgrees` | internal/compile/unit.go:215-494 | the same for every entry the linker accepts, open sets included |
| `Composition.LinkedDefs` | internal/interp/exec.go:169-294 | the definitions of a block are those of one closed-form recursion over the chain: a template's own blocks, then its uses, each giving its trait's nested uses before the trait's own renamed blocks |
| `Composition.LinkedMembers` | internal/compile/unit.go:215-494 | a definition is in a block's list of the linked table if and only if a template of the chain gives it: its own block of that name, or a use whose last renaming entry for one of the trait's blocks is this name, or that leaves the block unnamed, through any depth of nested uses |
| `Composition.LinkedTrait` | internal/compile/unit.go:426-494 | a use links only a trait without parent whose body is blocks, and only when each block it renames is defined there |
| `Composition.RenamedBlock` | internal/interp/exec.go:219-242 | a page that uses a trait's block under a new name has it under that name and not under the old one |
| `Composition.MalformedAlias` | internal/compile/unit.go:468-494 | a use's renames are taken whole or fail with the kind of the first malformed entry |
| `Composition.OwnBlockWins` | internal/interp/exec.go:203-247 | where nothing earlier defines a name, a used trait's own block of that name is the one in force if and only if the traits it uses contribute none of that name |
| `Composition.InnerTraitWins` | internal/interp/exec.go:219-235 | a page using a trait that defines a block and uses a trait defining it as well: the inner definition comes first |
| `Composition.Linker.MergeTraits` | internal/compile/unit.go:426-466 | the trait merge that appends to the table in place gives the table or the error of the linking function |
| `Composition.Linker.BuildTable` | internal/compile/unit.go:215-365 | the table built in place over the chain is that of the linking function |
| `Inlining.UnitAgrees` | internal/compile/unit.go:691-843 | wherever inlining ends, the inlined code renders as the interpreter does with its saved and restored current block, through block sites, parent(), block(name) and block(name, other) |
| `Inlining.ShowsValue` | internal/interp/compose.go:15-151 | a printed variable shows its value or nothing, and a condition takes its body exactly when the variable is bound |
| `Inlining.SiteRenders` | internal/interp/compose.go:15-151 | a block site renders the body of its most derived definition in place, that definition current meanwhile and the former one after; a block without a definition renders the body at the site |
| `Inlining.ParentRenders` | internal/interp/compose.go:15-151 | parent() prints what the next definition of the current block renders, and nothing behind the last |
| `Inlining.ParentsEnd` | internal/compile/unit.go:773-785 | inlining chains of parent() alone ends after at most the chain length |
| `Inlining.SelfCallUnending` | internal/compile/unit.go:791-843 | a block that calls itself through block(name, other) under a condition is inlined without end, while its render takes one step |
| `Inlining.EndsExactly` | internal/compile/unit.go:791-843 | inlining ends if and only if no path of nested bodies returns to the body and context it started from |
| `Inlining.ReturnSpendsNothing` | internal/compile/unit.go:791-843 | a returning path is made of block(name, other) calls only: none of its steps spends nesting depth or changes the context |
| `Inlining.AcyclicEnds` | internal/compile/unit.go:791-843 | when the bodies named by such calls refer to each other without a cycle, a check on the text alone, every inlining ends |
| `Inlining.BlockRenderer.ExecItem` | internal/interp/compose.go:15-151 | block rendering that swaps the output and the current block in place gives the text, the signal and the restored context of the specification |
| `Closure.ClosureUsesSlots` | internal/interp/interp.go:213-239 | the walk terminates on every reference graph, cyclic ones included, and answers true if and only if some path of static references ends in a template with a slot construct, with a dynamic reference, or listing a name the loader knows and cannot load |
| `Closure.StreamedPathClean` | internal/interp/interp.go:213-239 | when no path does, every template on every path of static references loads and has neither the slot mark nor the dynamic-reference mark |
| `CheckedInt.AddExact` | internal/interp/operators.go:24-31 | the sign tests on the wrapped sum find every overflow; otherwise the result is the true sum |
| `CheckedInt.SubExact` | internal/interp/operators.go:33-40 | the sign tests on the wrapped difference find every overflow; otherwise the result is the true difference |
| `CheckedInt.MulExact` | internal/interp/operators.go:42-56 | the divide-back test on the wrapped product returns the true product exactly when it is representable |
| `CheckedInt.DivInt64` | internal/interp/operators.go:58-66 | truncating division overflows in its one case and is otherwise exact |
| `CheckedInt.FloorDivInt64` | internal/interp/operators.go:68-80 | fails exactly on the least value over minus one; otherwise the result is the greatest integer not above the quotient |
| `CheckedInt.PowInt64` | internal/interp/operators.go:82-104 | the squaring loop with its early failure succeeds exactly when the power is representable, the least value included, and then equals it |
| `Coercions.ConditionalTakes` | internal/interp/exec.go:314-459 | a conditional takes its first body exactly on values other than null, false, zero, the empty string and the empty array |
| `Coercions.FalsyExactly` | pkg/runtime/truthy.go:12-34 | those five are the falsy values |
| `Coercions.TextIs` | pkg/runtime/stringify.go:23-56 | the text of an integer is its decimal numeral without leading zeros, and no other; null is empty, booleans are words, strings themselves, and arrays have none |
| `Coercions.KeyIs` | pkg/runtime/array.go:73-190 | a key is an integer if and only if it is the decimal text of one in 64 bits |
| `Coercions.MemberIs` | pkg/runtime/attribute.go:47-77 | a member of an array is the value of its one entry of that name; read safely, an absent one is null |
| `Coercions.PutIs` | pkg/runtime/array.go:198-222 | storing a key keeps its place or appends it, and changes no other entry |
| `Coercions.InsertionOrder` | internal/compile/scan.go:13-158 | names collected by insertion stand once each, by their first appearance |
| `Indentation.SplitIndependent` | internal/interp/interp.go:581-622 | how text is split into writes changes neither the output nor the line-start state |
| `Indentation.LineByLine` | internal/interp/interp.go:581-622 | the indented output is the text with the prefix before exactly its non-blank lines |
| `Indentation.NestedIndent` | internal/interp/exec.go:1308-1334 | indentation inside indentation is indentation by the two prefixes together |
| `Indentation.Spaces` | internal/interp/exec.go:1308-1334 | the prefix of a number of levels is that many widths of blanks, and empty at or below zero |
| `Indentation.IndentWriter.Write` | internal/compile/prelude.go:20-60 | the writer's in-place cursor gives the indented text and the line-start state of the specification for every write |
| `Indentation.IndentWriter.Region` | internal/interp/exec.go:1308-1334 | a region writes its text under the deeper prefix and restores prefix and cursor |
| `Consistency.BlurConsistent` | pkg/check/consistency.go:19-83 | consistency survives replacing any subtrees of either type by any |
| `Consistency.ConsistentTransitive` | pkg/check/consistency.go:19-83 | through a type without any at any depth, consistency is transitive whatever the outer types hold, through unions, lists, maps and arrows |
| `Consistency.ComposesExact` | pkg/check/consistency.go:19-83 | a middle type composes every pair of flows if and only if it holds no any at any depth |
| `Consistency.ConsistentReflexive` | pkg/check/consistency.go:19-83 | every type is consistent with itself |
| `Consistency.ObjectFlows` | pkg/check/consistency.go:58-62 | an object type flows into another if and only if declared supertype edges lead from the one to the other |
| `Consistency.ParametersInvariantExact` | pkg/check/consistency.go:66-79 | arrow parameters flow the way the result does: over object types they are invariant if and only if no supertype is declared |
| `Consistency.AnyDoesNotCompose` | pkg/check/consistency.go:19-83 | through any it is not transitive |
| `Lexer.Scanner.Run` | internal/lex/lexer.go:46-177 | from any input the scan terminates in exactly one EOF, with at most one ERROR, right before it; without an error the tokens tile the whole source: pieces cover it end to end, each dropped as a comment or as blanks of code, or carrying one token at its own line and column that is what its bytes spell |
| `Lexer.Scanner.ScanCode` | internal/lex/code.go:130-304 | a code region is consumed piece by piece up to the closer at bracket depth zero: each operator is the longest spelling at its place, and words, numbers and strings carry their slice |
| `Tiling.OperatorSpells` | internal/lex/code.go:171-300 | against a table of spellings, the operator found is the one with the longest spelling that begins the bytes, none is found when no spelling does, and brackets alone change the depth |
| `Tiling.EscapeDropped` | internal/lex/lexer.go:101-151 | a statement behind an escaped brace: the brace is dropped with the indentation |
| `Tiling.LeadBytes` | internal/lex/lexer.go:101-151 | what a statement drops before it on its line is blanks alone if and only if those bytes of the source hold no backslash |
| `Lexer.Lex` | internal/lex/lexer.go:21-67 | the stream is that scan trimmed; and escaping a non-empty text and lexing it gives back one text token with that text if and only if no statement opens at a line start of it or behind only blanks, braces and backslashes from one |
| `Lexer.ApplyTrims` | internal/lex/trim.go:21-36 | the in-place pass trims each text by its neighbours' marks alone, whatever the pass has rewritten before |
| `Tiling.TrimmedIs` | internal/lex/trim.go:15-67 | a text keeps what is left when the mark of the delimiter before it and of the interpolation after it have each taken the longest run of their bytes: the blanks of a line, or those and line ends; every other token is kept |
| `LexText.EscapedDoor` | internal/lex/lexer.go:101-177 | in escaped text no interpolation, comment or verbatim opens, and a statement opens exactly where the unescaped text has one behind blanks, braces and backslashes |

## Findings

Inputs on which the code does not do what it promises elsewhere, each with its condition.

- **A loop read inside an apply body.** The compiler's analysis has no case for apply bodies
  (internal/compile/loopopt.go:383-441), although they are lowered (internal/compile/stmt.go:123-135). In
  `Optimized.SkippedDiffers` the loop is then given no loop object and the compiled module renders where the
  interpreter fails. The decisions are safe if and only if every such body stands clear of inline loops or
  does not read its loop (`Optimized.DecisionsSafe`), so a module without apply bodies is never affected
  (`Optimized.OptimizedRenders`).
- **Text that reads as a label.** A placeholder opens and closes with the same token
  (internal/interp/slots.go:102-106), so text between two yields can be taken for one
  (`Slots.AmbiguousText` for one pass, `CacheRegion.TornRender` for a whole render). A pass equals filling if
  and only if no text between two yields, the first of another name, is the label being replaced
  (`Slots.ReplaceExact`, `Slots.SharpExact`).
- **A yield inside a contribution.** Labels are resolved in one pass each (internal/interp/slots.go:113-124),
  so a yield that a contribution brings in after its label's last turn stays in the output as a placeholder
  (`Slots.YieldInsideProvide`). Nothing is left if and only if each pass that finds its label brings in only
  slots reserved after it (`Slots.LaterExact`), and where no text is torn that is exactly when a render is its
  splice (`Slots.ResolveSplices`, `CacheRegion.RenderSplices`).
- **A key that two regions share.** The store knows a region by its key alone
  (internal/interp/exec.go:1068-1143), so choosing keys is the template author's duty: of two regions of one key
  that write different texts, the second is served the first one's (`CacheRegion.TwoBodies`). A store is invisible if and only if the regions of each key all write
  the same text or all touch the slots (`RegionKeys.InvisibleExact`); what a hit replays in general is stated
  by `CacheRegion.HitReplays`.
- **Inlining without a bound.** The other-template branch of the block call
  (internal/compile/unit.go:791-843, and the same call in the loop analysis,
  internal/compile/loopopt.go:607-642) raises no depth. A block that calls itself by template name under a
  condition is inlined without end although its render is finite (`Inlining.SelfCallUnending`). Inlining ends
  if and only if no path of nested bodies returns to its start (`Inlining.EndsExactly`), and only that kind of
  call can return (`Inlining.ReturnSpendsNothing`), so it is enough that those calls form no cycle
  (`Inlining.AcyclicEnds`).
- **An escape keeps the line start.** A text escape leaves the line-start mark as it was
  (internal/lex/lexer.go:144-151), so escaping a text does not always bring it back as text: it does if and
  only if no statement opens behind only blanks, braces and backslashes from a line start (`Lexer.Lex`). A
  statement found there takes what was escaped with its indentation (`Tiling.EscapeDropped`); what it drops is
  blanks alone if and only if no backslash stands before it on its line (`Tiling.LeadBytes`).
- **Nested traits come first.** The blocks of a trait's own uses are appended before the trait's own
  (internal/interp/exec.go:219-235), although the comment there has the own blocks win
  (`Composition.InnerTraitWins`). They win if and only if the nested traits contribute none of that name
  (`Composition.OwnBlockWins`); the linker has the same order.
- **Consistency does not compose through any** (pkg/check/consistency.go:16-28, where the source says so):
  `Consistency.AnyDoesNotCompose`. A middle type composes every pair of flows if and only if it holds no any
  at any depth (`Consistency.ComposesExact`).
- **Arrow parameters flow forward.** The comment calls them invariant (pkg/check/consistency.go:70-72), and
  the code lets an arrow taking a subtype flow where one taking its supertype is expected, but not back. Over
  object types they are invariant if and only if no supertype is declared
  (`Consistency.ParametersInvariantExact`).

## Left out

- Includes, embeds, macros, imports and their dispatch: the composition model stops at chains, traits and
  block calls.
- Calls of `block()` and `parent()` inside the statement language: both loop analyses are proved for templates
  without them, and composition is modelled on its own. How a block body rendered inside a loop reads that loop
  is not part of this model.
- Assignment to members and the copy-on-write values behind it: values are immutable here, but for the loop
  objects and pair buffers of the recycling interpreter.
- Live iteration over an array without a snapshot: every loop walks a snapshot of its pairs.
- Arrow functions, filters and host callables, destructuring targets, recursive loops, ranges, subscripts
  other than member access, tests, and `loop.changed`.
- Escaping strategies, regular expressions, floats and random values: library behaviour.
- Unary minus, which does not check its one overflow.
- The text of error messages beyond the kind of error and the available names, and positions in errors.
- Sandbox policy, the type registry's contents and the checker outside the consistency relation.
- The memo that keeps compiled templates, and all concurrency: renders are taken one at a time.
- The Go text of generated code: formatting, quoting, temporary names. The target is a small structured code
  over numbered temporaries, per-frame locals, flags and order lists.
- Capture, apply and the slot and cache statements in one language: `Apply` stands for any body lowered in
  place that the loop analysis does not enter; slots and cached regions are modelled over steps of their own.
- The messages of scan errors and the text of an ERROR token; where a token ends, beyond the stretch it takes;
  source normalization of line ends happens before the lexer.
- Pool eviction and growth of buffers, which change no output.
- ModuleSim.ModuleRenders: assumes a plan safe for the module, which `PlainRenders` and `OptimizedRenders`
  supply for the two plans the compiler uses.
- Optimized.OptimizedModule: assumes that equal node identities in the program denote one node, as they do for
  the original's node addresses; the condition on apply bodies is exact for the safety of the decisions, not for one render,
  which may never reach the body.
- Escape.AnalysisSound: assumes that every for node stands in the module once, and that literals and variables
  hold no live loop object.
- Slots.ReplaceExact: the two directions are for labels that are not empty; texts, labels and tokens hold no NUL
  byte, as in every slot theorem here.
- CacheRegion.StoreInvisible: assumes that the regions of each key all write one text or all touch the slots;
  without it the property fails (`CacheRegion.TwoBodies`).
- CacheRegion.StoreSplices: the same assumption.
- RegionKeys.InvisibleExact: compares states of single renders begun with an empty store; a difference there
  may still vanish from one finished output.
- Composition.LinkAgrees: when several aliased blocks are undefined, the two builders may name different ones,
  as the original's map iteration does.
- Composition.AcceptedAgrees: says nothing of entries the linker declines, where the original leaves the
  template to the interpreter.
- Inlining.UnitAgrees: is about inlining that ends, which `Inlining.EndsExactly` characterizes.
- Closure.StreamedPathClean: assumes the loader serves the same templates during the walk and the render.
