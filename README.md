# opticode backend, modelled in Dafny

This project models the Python backend of opticode. The backend checks a
piece of Python code, measures its complexity, optimises it and reports what
changed. The model follows the backend's own structure, one Dafny module per
source file:

- `PyAst` (`py_ast.dfy`) is the abstract syntax tree that every check works on:
  - typed `Expr`, `Stmt`, `Comprehension` and `Handler` datatypes;
  - a uniform `Node` view whose `Children` come in the order of Python's `_fields`;
  - `Walk`, the breadth-first node order of `ast.walk`;
  - `Collect`, which concatenates what a loop appends for each walked node.

  A parse is given as a `ParseResult`: either a tree, or a syntax error
  with its message and line.
- `ErrorChecker` (`error_checker.py`) holds the detectors that
  `run_all_checks` runs behind its language gate and syntax gate: security,
  runtime risks and optimisation readiness. Each check is a method that
  loops over the walk, proved equal to a per-node specification function,
  with lemmas that state when each message appears.
- `SecurityCheck`, `RuntimeCheck` and `ReadinessCheck` are the older
  single-purpose checkers. Their rules are simpler: exact-name imports,
  every `while True`, and a yes/no readiness answer.
- `ComplexityChecker` (`complexity_checker.py`) has the following parts:
  - the `ComplexityAnalyzer` visitor, a class whose fields are updated in
    place by its `Visit*` methods, each proved against `AfterNode`, a
    function of the old fields;
  - the time and space decision tables;
  - cyclomatic complexity;
  - `count_loc`;
  - the per-function loop of `analyze_source` and its big-O tally.
- `RuleOptimizer` (`rule_optimizer.py`) is the bottom-up rewriting pass of
  `LevelOneOptimizer`, the unused-assignment pass and `optimize_code`.
  The traversal takes the rule set as a parameter. `optimize_code` runs
  the rules as written. `RuleSemantics` gives the rewritten code a meaning
  and proves that the corrected rules keep it, and that the rules as
  written keep it too where they do. Where a rule as written does not keep
  it, a lemma shows an input (see "## Findings").
- `LlmOptimizer` (`llm_optimizer.py`) covers:
  - prompt building;
  - response parsing with its defaults and the two ways it raises;
  - `query_llm_sync` once the reply is in, and `fan_out`;
  - the gates of `score_result`;
  - `aggregate`: the failure result, ranking by score, the order-preserving
    merge of change notes, and the extra suggestions;
  - `optimize`, which raises before any query (see "## Findings").
- `Pipeline` (`pipeline.py`) covers:
  - `_detect_l1_changes`, as a loop proved against a specification built
    from typed notes;
  - `PipelineResult`, a class that `run_pipeline` fills stage by stage;
  - `_to_dict`;
  - `Pipeline`, the whole run as a function of the stages, which are
    given as parameters (`Stages`).

Library behaviour the backend only calls is given to the model as a
parameter, so every theorem holds whatever that behaviour is:

- `ast.parse`, given as a `ParseResult`;
- `ast.unparse` and `ast.get_source_segment`;
- the regular expressions and the JSON decoding;
- `eval` on two constants;
- the LLM syntax check and score formula;
- each model's reply and its latency.

The browser-side session store is not part of this model: none of the
modelled files implement it.

## Model

| member | source | states |
|---|---|---|
| PyAst.Walk | backend/checks/security_check.py:14 | the walk starts with the root node; the lemmas below state which nodes it holds |
| PyAst.WalkNodes | backend/checks/error_checker.py:148 | a node is in the walk of `n` exactly when it is `n` or in the walk of one of `n`'s children, as `ast.walk` visits every descendant |
| PyAst.WalkModule | backend/checks/runtime_check.py:11 | a node is in the walk of a module exactly when it is in the walk of one of its top-level statements |
| PyAst.FunctionDefPartsWalked | backend/checks/error_checker.py:148 | the walk of a `def` reaches each of its default values and decorators |
| PyAst.CollectMember | backend/checks/security_check.py:14-26 | a value is among what a walk loop appended exactly when some walked node contributed it |
| PyAst.CollectEmpty | backend/checks/security_check.py:14-28 | a walk loop appends nothing exactly when no node contributes anything |
| Text.Strip | backend/core/pipeline.py:70-71 | `str.strip()`: a slice of the input with only whitespace cut from each end, and no whitespace left at either end of the result |
| Text.StripIdempotent | backend/core/pipeline.py:98 | stripping twice is stripping once |
| Text.SplitLines | backend/checks/complexity_checker.py:328 | `splitlines()`: no line holds a line break, and only the empty text has no lines |
| Text.FirstComponent | backend/checks/error_checker.py:105 | `name.split(".")[0]`: the longest prefix without a dot, followed by a dot whenever it is shorter than the name |
| Text.ParseNatToString | backend/core/pipeline.py:75-78 | the decimal rendering of a number reads back as that number |
| ErrorChecker.FirstMatching | backend/checks/error_checker.py:43-46 | no pattern is reported exactly when none matches; a reported pattern matches and no earlier one does |
| ErrorChecker.LanguageVerdictIff | backend/checks/error_checker.py:28-71 | code is accepted as Python exactly when it parses, matches no non-Python signature, and has a Python construct or at most 30 stripped characters |
| ErrorChecker.CheckIsPython | backend/checks/error_checker.py:28-71 | the method returns the language verdict, with the first failing gate's reason |
| ErrorChecker.CheckSyntax | backend/checks/error_checker.py:76-84 | no message exactly when the code parses; otherwise "Syntax Error at line N: msg" |
| ErrorChecker.NodeSecurity | backend/checks/error_checker.py:102-129 | the errors the loop appends for one node equal the per-node specification |
| ErrorChecker.CheckSecurity | backend/checks/error_checker.py:94-131 | the errors are the per-node errors of every walked node, in walk order |
| ErrorChecker.ImportAliasErrorsFacts | backend/checks/error_checker.py:104-107 | one error per alias whose first dotted component is forbidden, and an alias is named exactly when it is forbidden |
| ErrorChecker.ImportAliasErrorsAreImports | backend/checks/error_checker.py:104-107 | every alias error names an alias of that import |
| ErrorChecker.ImportMessageInjective | backend/checks/error_checker.py:107 | different modules give different import errors |
| ErrorChecker.FromImportFlagged | backend/checks/error_checker.py:110-112 | `from M import ...` is flagged exactly when M is present and its first component is forbidden |
| ErrorChecker.CallFlagged | backend/checks/error_checker.py:114-129 | a call is flagged exactly when it calls a forbidden builtin by name, or calls `system`, `popen`, `run`, `call` or `Popen` on a forbidden module name |
| ErrorChecker.CallMessageDistinct | backend/checks/error_checker.py:107-129 | a forbidden-call error differs from every import, from-import and system-call error and names one function only |
| ErrorChecker.NodeCallReported | backend/checks/error_checker.py:117-119 | a node reports calling `f` exactly when `f` is forbidden and the node calls `f` by name |
| ErrorChecker.ForbiddenCallReported | backend/checks/error_checker.py:94-131 | the check reports `f` exactly when `f` is forbidden and some walked node calls it by name, the walk reaching default values, annotations, decorators and keyword arguments |
| ErrorChecker.FirstReturn | backend/checks/error_checker.py:181-187 | the index of the first `return` of a body, or none when the body has none |
| ErrorChecker.NodeRuntime | backend/checks/error_checker.py:146-187 | the warnings the loop appends for one node equal the per-node specification, whose division test is Python's `== 0` on the constant |
| ErrorChecker.FunctionRuntime | backend/checks/error_checker.py:163-187 | the recursion and unreachable-code warnings of one function equal their specification |
| ErrorChecker.CheckRuntimeRisks | backend/checks/error_checker.py:136-189 | the warnings are the per-node warnings of every walked node, in walk order, including `/ 0.0` |
| ErrorChecker.UnreachableAfterReturn | backend/checks/error_checker.py:181-187 | at most one unreachable-code warning per function |
| ErrorChecker.UnreachableAtMostOnce | backend/checks/error_checker.py:181-187 | at most one warning, given exactly when some statement before the last one is a `return` |
| ErrorChecker.WhileTrueWarned | backend/checks/error_checker.py:146-153 | a `while` is warned exactly when its test is the constant `True` and no `break` occurs in its subtree; `while 1` is not warned |
| ErrorChecker.DivisionWarned | backend/checks/error_checker.py:156-160 | a binary operation is warned exactly when it is `/` with a constant equal to 0 on the right (`0`, `False`, `0.0` or `0j`); `x / 0.0` is warned |
| ErrorChecker.NodeReadiness | backend/checks/error_checker.py:204-239 | the findings the loop appends for one node equal the per-node specification |
| ErrorChecker.ReadinessLoop | backend/checks/error_checker.py:201-239 | the findings are the per-node findings of every walked node, in walk order |
| ErrorChecker.CheckOptimizationReadiness | backend/checks/error_checker.py:194-245 | the findings in walk order, `finding_count` is their number, and `optimizable` holds exactly when some node has a finding |
| ErrorChecker.FindingsIff | backend/checks/error_checker.py:241-245 | some finding exists exactly when some walked node has one |
| ErrorChecker.LargeFunctionFlagged | backend/checks/error_checker.py:220-230 | a large-function finding exactly for a function whose body has more than 15 statements |
| ErrorChecker.ChainedOperationFlagged | backend/checks/error_checker.py:233-239 | a chained-operation finding exactly for a binary operation whose left operand is a binary operation |
| ErrorChecker.RunAllChecks | backend/checks/error_checker.py:250-284 | a language failure gives only the verdict and the "Code rejected" abort; otherwise syntax is "OK", nothing is aborted, and the security, runtime and optimisation reports are those of the parsed tree, with `finding_count` the number of findings and `optimizable` exactly when some walked node has one |
| ErrorChecker.SyntaxErrorStopsAtLanguageGate | backend/checks/error_checker.py:259-271 | code with a syntax error is already rejected by the language gate, so the syntax gate never aborts after it |
| SecurityCheck.CheckSecurity | backend/checks/security_check.py:6-28 | no result exactly when parsing fails; otherwise the errors of every walked node in walk order |
| SecurityCheck.AliasLoop | backend/checks/security_check.py:17-20 | the errors for the aliases of one import equal their specification |
| SecurityCheck.AliasErrorsFacts | backend/checks/security_check.py:17-20 | one error per alias that is exactly a forbidden name, each naming such an alias |
| SecurityCheck.AliasErrorsNonEmpty | backend/checks/security_check.py:17-20 | an import yields errors exactly when one of its aliases is forbidden |
| SecurityCheck.ExactNameOnly | backend/checks/security_check.py:17-20 | a one-name import is flagged exactly for a forbidden name; `import os.path` is not flagged |
| SecurityCheck.FromAndAttributeNeverFlagged | backend/checks/security_check.py:14-28 | `from ... import` statements and attribute calls are never flagged |
| SecurityCheck.NoErrorsIff | backend/checks/security_check.py:14-28 | no errors exactly when no walked node imports a forbidden name exactly or calls a forbidden builtin by name |
| RuntimeCheck.CheckRuntimeRisks | backend/checks/runtime_check.py:3-23 | no result exactly when parsing fails; otherwise the warnings of every walked node in walk order, the division test being Python's `== 0` on the constant |
| RuntimeCheck.WhileTrueAlwaysWarned | backend/checks/runtime_check.py:14-21 | `while True` is warned even when its body breaks; `while 1` is not warned; operators other than `/` with 0 are not warned; `x / 0.0` is warned |
| RuntimeCheck.WarningsIff | backend/checks/runtime_check.py:8-23 | each warning appears exactly when some walked node shows its pattern: `while True`, or `/` by a constant equal to 0 (`0`, `False`, `0.0`, `0j`) |
| RuntimeCheck.InfiniteLoopIff | backend/checks/runtime_check.py:14-16 | the infinite-loop warning appears exactly when some walked node is `while True` |
| RuntimeCheck.DivisionByZeroIff | backend/checks/runtime_check.py:19-21 | the division warning appears exactly when some walked node divides by a constant equal to 0 (`0`, `False`, `0.0` or `0j`) |
| RuntimeCheck.MessagesDiffer | backend/checks/runtime_check.py:16-21 | the two warnings are different texts |
| RuntimeCheck.NoWarningsIff | backend/checks/runtime_check.py:8-23 | no warnings exactly when neither pattern occurs, float and complex zero included |
| ReadinessCheck.CheckOptimizationReadiness | backend/checks/readiness_check.py:3-14 | no result exactly when parsing fails |
| ReadinessCheck.ReadyIffSomeStatement | backend/checks/readiness_check.py:8-14 | ready exactly when some node under some top-level statement is a `for`, `while`, `if` or binary operation |
| ReadinessCheck.TopLevelStatementReady | backend/checks/readiness_check.py:10-12 | any such node under any top-level statement makes the code ready |
| ReadinessCheck.ReadyKeptByMoreCode | backend/checks/readiness_check.py:10-14 | adding code before or after ready code keeps it ready, since the answer depends only on existence |
| ReadinessCheck.PlainCodeNotReady | backend/checks/readiness_check.py:11-14 | code made only of imports, `pass` and assignments of names and constants is not ready |
| ComplexityChecker.ComplexityAnalyzer.constructor | backend/checks/complexity_checker.py:15-27 | all counters zero, all flags false, no function name |
| ComplexityChecker.ComplexityAnalyzer.Visit | backend/checks/complexity_checker.py:14-112 | the fields after a visit are `AfterNode` of the fields before, and the visitor's invariant holds |
| ComplexityChecker.ComplexityAnalyzer.VisitFunctionDef | backend/checks/complexity_checker.py:30-34 | the children, in field order `args` (parameters, annotations, defaults), `body`, `decorator_list`, `returns`, are visited under the function's name, which is then restored |
| ComplexityChecker.ComplexityAnalyzer.VisitLoop | backend/checks/complexity_checker.py:37-47 | loop depth one deeper for the children and restored afterwards; the maximum depth records the deepest nesting |
| ComplexityChecker.ComplexityAnalyzer.VisitCall | backend/checks/complexity_checker.py:50-64 | a call of the enclosing function's name counts as recursion; more than one such call sets branching recursion |
| ComplexityChecker.ComplexityAnalyzer.VisitCollection | backend/checks/complexity_checker.py:67-73 | a list or dict display counts one allocation |
| ComplexityChecker.ComplexityAnalyzer.VisitComprehension | backend/checks/complexity_checker.py:75-87 | one allocation and one comprehension level deeper for the children, restored afterwards |
| ComplexityChecker.ComplexityAnalyzer.VisitSubscript | backend/checks/complexity_checker.py:90-97 | a slice index sets the slicing flag |
| ComplexityChecker.ComplexityAnalyzer.VisitAssign | backend/checks/complexity_checker.py:100-112 | an assignment of `/` or `//` by a constant equal to 2 (`2` or `2.0`) sets the possible log-loop flag |
| ComplexityChecker.ComplexityAnalyzer.GenericVisit | backend/checks/complexity_checker.py:34 | the children are visited in field order |
| ComplexityChecker.AfterOneMoreChild | backend/checks/complexity_checker.py:34 | visiting one more child is visiting that child's subtree after the earlier ones |
| ComplexityChecker.AnalyzeFunctionNode | backend/checks/complexity_checker.py:231-247 | the signals of a fresh analyzer run over one function |
| ComplexityChecker.EstimateTime | backend/checks/complexity_checker.py:119-167 | "O(n log n)" exactly for branching recursion with slicing; "O(2^n)" exactly for branching recursion without it; "O(n^2)" or "O(n)" for linear recursion; "O(log n)" exactly for a halving loop at loop depth one without recursion; otherwise the depth name of the deeper of loop and comprehension nesting |
| ComplexityChecker.LogLoopOverridesComprehensions | backend/checks/complexity_checker.py:154-160 | a halving loop at depth one wins over comprehension nesting |
| ComplexityChecker.DepthNameInjective | backend/checks/complexity_checker.py:160-167 | different nesting depths get different names |
| ComplexityChecker.DepthNameNotOther | backend/checks/complexity_checker.py:129-167 | a depth name is never "O(n log n)", "O(2^n)" or "O(log n)" |
| ComplexityChecker.EstimateSpace | backend/checks/complexity_checker.py:170-195 | recursion gives "O(n)"; allocations give the depth name of the comprehension nesting, at least "O(n)"; "O(1)" exactly when there is neither |
| ComplexityChecker.CyclomaticComplexity | backend/checks/complexity_checker.py:313-320 | one plus the weight of every walked node |
| ComplexityChecker.WeightsAtLeastBranches | backend/checks/complexity_checker.py:316-319 | in a well-formed tree the weights add up to at least the number of branch nodes |
| ComplexityChecker.WalkWellFormed | backend/checks/complexity_checker.py:318-319 | every node under a well-formed tree is well formed |
| ComplexityChecker.CyclomaticAtLeastOne | backend/checks/complexity_checker.py:313-320 | the complexity is at least one more than the branch count, hence at least one |
| ComplexityChecker.BlankCommentDisjoint | backend/checks/complexity_checker.py:329-330 | no line is both blank and a comment, so blank plus comment lines never exceed the lines |
| ComplexityChecker.CountLoc | backend/checks/complexity_checker.py:327-333 | total is the number of lines; blank plus comment at most total; code is the rest of the lines whenever some are left, and exactly 1 (`max(0, 1)`) when none are |
| ComplexityChecker.ReportsLength | backend/checks/complexity_checker.py:476-512 | one report per function definition in the walk |
| ComplexityChecker.Tally | backend/checks/complexity_checker.py:518-521 | a tally adds at most one key |
| ComplexityChecker.TallyKeys | backend/checks/complexity_checker.py:518-521 | after a tally the keys are the old keys and the tallied one |
| ComplexityChecker.TallyFacts | backend/checks/complexity_checker.py:518-521 | tallying keeps keys distinct, counts the key once more, leaves every other count alone, and raises the sum by one |
| ComplexityChecker.DistributionFacts | backend/checks/complexity_checker.py:518-521 | the distribution has distinct keys, each counting its occurrences, and the counts add up to the number of keys |
| ComplexityChecker.BigODistribution | backend/checks/complexity_checker.py:518-521 | the loop builds the distribution of the time estimates; its counts add up to the number of functions |
| ComplexityChecker.AnalyzeFunction | backend/checks/complexity_checker.py:478-512 | the report for one function equals its specification |
| ComplexityChecker.ReportsLoop | backend/checks/complexity_checker.py:476-512 | the reports are those of the function definitions, in walk order |
| ComplexityChecker.AnalyzeSource | backend/checks/complexity_checker.py:437-531 | a syntax error gives only the error text; otherwise an analysis whose line counts, reports, total complexity and distribution are as specified, with distribution counts adding up to the number of functions |
| ComplexityChecker.TotalCyclomaticAtLeastOne | backend/checks/complexity_checker.py:515 | the total complexity of a well-formed module is at least one |
| RuleOptimizer.OptExprsPointwise | backend/optimizer/rule_optimizer.py:4-8 | a list of expressions is rewritten element by element: the same length, and the `i`-th result is the `i`-th expression rewritten by the same rule set |
| RuleOptimizer.DropTrue | backend/optimizer/rule_optimizer.py:49-50 | the operands kept are exactly those that are not literally `True` |
| RuleOptimizer.PassRaises | backend/optimizer/rule_optimizer.py:56-134 | the pass raises `IndexError` exactly when the rule of some walked node raises on that node's rewritten children |
| RuleOptimizer.CollectUsedNames | backend/optimizer/rule_optimizer.py:139-148 | the loaded names of the walked tree, defaults, decorators and annotations included; every loaded name node in the walk is among them |
| RuleOptimizer.DefaultAndDecoratorNamesUsed | backend/optimizer/rule_optimizer.py:139-148 | a name read in a default value or a decorator of a `def` is a used name |
| RuleOptimizer.PruneTargets | backend/optimizer/rule_optimizer.py:154-160 | a target is kept exactly when it is not a name or is a used name (corrected pass) |
| RuleOptimizer.OptimizeCode | backend/optimizer/rule_optimizer.py:167-181 | a syntax error returns the source; otherwise it raises exactly when some walked node's rule raises, and else returns the unparsed tree after the rewrite pass and the unused-assignment pass, both with the rules as written |
| RuleSemantics.BinOpRuleArith | backend/optimizer/rule_optimizer.py:7-36 | folding and the identity rules keep the integer value of `+`, `-` and `*`, under either rule set |
| RuleSemantics.ArithPreserved | backend/optimizer/rule_optimizer.py:7-36 | the whole pass keeps the integer value of any arithmetic expression, under either rule set |
| RuleSemantics.RaisingFoldKeepsNode | backend/optimizer/rule_optimizer.py:10-15 | when evaluating two constants raises, the node is kept |
| RuleSemantics.ChildrenFirst | backend/optimizer/rule_optimizer.py:8 | children are rewritten before their parent, so `(0 + 1) * x` becomes `x` |
| RuleSemantics.NestedFoldStops | backend/optimizer/rule_optimizer.py:10-15 | as written, `1 + 2 + 3` becomes `3 + 3`: the folded constant has no position, so the outer fold raises inside `compile` and is skipped |
| RuleSemantics.FoldsCompletely | backend/optimizer/rule_optimizer.py:7-15 | corrected, every arithmetic expression of integer literals folds to the one constant it evaluates to |
| RuleSemantics.DropTrueAll | backend/optimizer/rule_optimizer.py:49-50 | dropping `True` operands keeps the value of a conjunction |
| RuleSemantics.AndRuleEval | backend/optimizer/rule_optimizer.py:47-53 | the corrected `and` rule has the value of the conjunction of the operands |
| RuleSemantics.BoolPreserved | backend/optimizer/rule_optimizer.py:39-53 | the pass keeps the value of any boolean expression over `not`, `and` and `or` |
| RuleSemantics.ExecStmtPreserved | backend/optimizer/rule_optimizer.py:70-134 | the pass keeps the effect of any statement of the straight-line fragment |
| RuleSemantics.ExecPreserved | backend/optimizer/rule_optimizer.py:70-134 | the pass keeps the effect of any straight-line program of assignments, `if` and `pass` |
| RuleSemantics.CompareRulePreserved | backend/optimizer/rule_optimizer.py:56-67 | the corrected comparison rule keeps the value of the test |
| RuleSemantics.RemoveUnusedPreserved | backend/optimizer/rule_optimizer.py:135-162 | after unused assignments are removed, under either rule set, every used name ends with the same value |
| RuleSemantics.AssignRemovedIff | backend/optimizer/rule_optimizer.py:154-160 | an assignment is removed exactly when every target is an unused name |
| RuleSemantics.KeptTargetsOnNames | backend/optimizer/rule_optimizer.py:154-160 | when every target is a name, the rules as written and the corrected ones keep the same targets |
| RuleSemantics.PruneTargetsIdempotent | backend/optimizer/rule_optimizer.py:154-160 | pruning targets twice is pruning once |
| RuleSemantics.PruneTargetsAsWrittenIdempotent | backend/optimizer/rule_optimizer.py:156-158 | pruning targets as written twice is pruning once |
| RuleSemantics.RemoveUnusedIdempotent | backend/optimizer/rule_optimizer.py:135-162 | removing unused assignments twice with the same used names is removing them once, under either rule set |
| RuleSemantics.PruneTargetsAsWrittenOnlyNames | backend/optimizer/rule_optimizer.py:156-158 | as written, only used name targets survive |
| RuleSemantics.PruneTargetsAsWrittenDropsAttribute | backend/optimizer/rule_optimizer.py:154-160 | as written, `self.x = 1` is deleted; the corrected pass keeps it |
| RuleSemantics.IfRuleAsWrittenLosesElseTarget | backend/optimizer/rule_optimizer.py:81-93 | as written, `if c: a = True else: b = False` becomes `a = c` and sets the wrong variable when `c` is false |
| RuleSemantics.AndRuleAsWrittenEmpty | backend/optimizer/rule_optimizer.py:47-53 | as written, `True and True` becomes an `and` with no operands and no value; the corrected rule gives `True` |
| RuleSemantics.AssignRuleAsWrittenLosesTarget | backend/optimizer/rule_optimizer.py:128-134 | as written, `x = y = x` is deleted although it sets `y` |
| RuleSemantics.CompareRuleAsWrittenDropsChain | backend/optimizer/rule_optimizer.py:58-67 | as written, `len(x) == 0 < 0` becomes `not x`, which is true where the chain is false |
| LlmOptimizer.PromptPrefixIff | backend/optimizer/llm_optimizer.py:106-117 | the prompt starts with `/think` exactly when thinking mode is on and the lower-cased model id contains "qwen" |
| LlmOptimizer.PromptQuotesCode | backend/optimizer/llm_optimizer.py:113-117 | the prompt holds the code in a python fence |
| LlmOptimizer.StripThinkingBlock | backend/optimizer/llm_optimizer.py:124-130 | the result has no surrounding whitespace |
| LlmOptimizer.ParseLlmResponse | backend/optimizer/llm_optimizer.py:133-162 | a decoded JSON value that is not an object raises the `.get` `AttributeError`; a confidence `float()` rejects raises its error; otherwise a result for the given model with no error, score 0, no syntax verdict and stripped code |
| LlmOptimizer.ParseDefaults | backend/optimizer/llm_optimizer.py:141-148 | a missing or undecodable JSON block gives a result with no changes, confidence 0.5 and risk "medium" |
| LlmOptimizer.ParseMissingKeys | backend/optimizer/llm_optimizer.py:143-162 | a decoded object raises when `float()` rejects its confidence, and otherwise supplies each key it has and the default for each key it lacks |
| LlmOptimizer.ParseNotObjectRaises | backend/optimizer/llm_optimizer.py:143-159 | a decoded list, number, string or `null` raises `AttributeError` on `.get` |
| LlmOptimizer.ParseFenceFallback | backend/optimizer/llm_optimizer.py:149-153 | in a parsed reply, a non-empty "optimized" block gives the code; otherwise the python or plain fence does, if any |
| LlmOptimizer.QueryLlm | backend/optimizer/llm_optimizer.py:169-195 | a failed request or a raising parse gives a result with no code, the defaults and the exception's text; a parsed reply gives its code and metadata with no error; the latency is recorded either way |
| LlmOptimizer.FanOut | backend/optimizer/llm_optimizer.py:198-215 | one query result per model, in `MODELS` order |
| LlmOptimizer.ScoreResult | backend/optimizer/llm_optimizer.py:243-277 | only score and syntax verdict change; no code scores 0; code that fails the syntax check scores 0 with verdict false; the verdict is the syntax check's; the score is never negative |
| LlmOptimizer.ScoreAll | backend/optimizer/llm_optimizer.py:305-306 | every valid result is scored, in order |
| LlmOptimizer.ValidResults | backend/optimizer/llm_optimizer.py:285 | exactly the results that have code |
| LlmOptimizer.ValidResultsConcat | backend/optimizer/llm_optimizer.py:285 | the valid results of two lists joined are the valid results of each, joined |
| LlmOptimizer.FailedQueryDropped | backend/optimizer/llm_optimizer.py:185-192 | a query that failed or raised is left out of the valid results wherever it stands |
| LlmOptimizer.InsertMultiset | backend/optimizer/llm_optimizer.py:308 | inserting by score adds exactly the one result |
| LlmOptimizer.InsertSorted | backend/optimizer/llm_optimizer.py:308 | inserting into a ranking by score keeps it non-increasing |
| LlmOptimizer.Ranked | backend/optimizer/llm_optimizer.py:308 | the ranking is a permutation of the results, sorted by non-increasing score |
| LlmOptimizer.BestIndex | backend/optimizer/llm_optimizer.py:308-309 | the first result with the highest score |
| LlmOptimizer.RankedHead | backend/optimizer/llm_optimizer.py:308-309 | the winner is the first result with the highest score, since the sort is stable |
| LlmOptimizer.RankedStable | backend/optimizer/llm_optimizer.py:308 | the ranking is stable: for every score, the results with that score appear in the same order as in the input, which fixes the order of the merged changes and of `ranked_models` |
| LlmOptimizer.Dedup | backend/optimizer/llm_optimizer.py:313-317 | the merged notes hold every note exactly once |
| LlmOptimizer.DedupOrder | backend/optimizer/llm_optimizer.py:313-317 | the merged notes keep first-appearance order |
| LlmOptimizer.MergeChanges | backend/optimizer/llm_optimizer.py:313-317 | the nested loop builds the deduplicated concatenation of every ranked result's changes |
| LlmOptimizer.AllChangesMembers | backend/optimizer/llm_optimizer.py:313-317 | a note is among all changes exactly when some ranked result has it |
| LlmOptimizer.WithoutMembers | backend/optimizer/llm_optimizer.py:319 | the additional suggestions are exactly the merged notes that the winner did not apply |
| LlmOptimizer.WithoutOrder | backend/optimizer/llm_optimizer.py:319 | the additional suggestions keep the merged order |
| LlmOptimizer.Entries | backend/optimizer/llm_optimizer.py:333-341 | one ranked-model entry per ranked result, in ranking order |
| LlmOptimizer.FailureMessageNamesErrors | backend/optimizer/llm_optimizer.py:287-303 | the failure message names every result's error, or "unknown" where it has none |
| LlmOptimizer.Aggregate | backend/optimizer/llm_optimizer.py:284-343 | no valid result gives the failure result; otherwise the winner's code, model, score, confidence, risk and changes, success equal to the winner's syntax verdict, the extra suggestions and the ranking |
| LlmOptimizer.AggregateFacts | backend/optimizer/llm_optimizer.py:305-329 | the winner has the top score; the merged notes are duplicate-free, complete and in first-appearance order; the suggestions are those not applied, in order |
| LlmOptimizer.OptimizeWithKey | backend/optimizer/llm_optimizer.py:350-375 | reading the key from a global the module does not bind raises `NameError` before any query; otherwise the aggregate of the replies of every model |
| LlmOptimizer.Optimize | backend/optimizer/llm_optimizer.py:360 | as written, every call raises `NameError` for `GROQ_API_KEY` |
| LlmOptimizer.OptimizeCorrected | backend/optimizer/llm_optimizer.py:15 | with the key read from `api_key`, every call returns the aggregate of the replies |
| Pipeline.LineNotes | backend/core/pipeline.py:74-79 | at most one note, a line reduction |
| Pipeline.LineNotesShrunk | backend/core/pipeline.py:74-79 | fewer stripped lines give a reduction note by the difference |
| Pipeline.LineMessagePlural | backend/core/pipeline.py:76-78 | the line note says "lines" exactly when more than one line was removed |
| Pipeline.PatternNotesIff | backend/core/pipeline.py:81-90 | a table row is noted exactly when its signature is in the original and not in the optimised code |
| Pipeline.PatternNotesOrdered | backend/core/pipeline.py:88-90 | the pattern notes keep table order |
| Pipeline.LenNotes | backend/core/pipeline.py:92-93 | at most the `len` idiom note |
| Pipeline.DetectL1Changes | backend/core/pipeline.py:68-103 | the loop builds the rendering of the level-1 notes |
| Pipeline.PatternChanges | backend/core/pipeline.py:88-90 | the table loop builds the rendered pattern notes |
| Pipeline.L1AlreadyOptimalIff | backend/core/pipeline.py:95-103 | the list is never empty; the "already optimal" sentinel appears exactly when the stripped texts are equal; the fallback appears only alone and only when they differ |
| Pipeline.L1PatternIff | backend/core/pipeline.py:81-90 | a pattern description appears exactly when its signature was removed, in table order |
| Pipeline.L1LineNote | backend/core/pipeline.py:74-79 | a line-reduction message appears exactly when the optimised code has fewer stripped lines, and it comes first |
| Pipeline.L1NotesFallback | backend/core/pipeline.py:95-96 | the fallback note appears exactly when no other note was found and the stripped texts differ |
| Pipeline.RenderDistinct | backend/core/pipeline.py:74-101 | only a line reduction renders as a line message, and two other notes with the same message are the same note |
| Pipeline.PipelineResult.constructor | backend/core/pipeline.py:31-61 | the dictionary of a fresh result holds the code, the level and every default |
| Pipeline.RecordL1 | backend/core/pipeline.py:187-190 | only the level-1 changes and the ran flag change |
| Pipeline.RecordL2Fields | backend/core/pipeline.py:195-202 | only the level-2 metadata changes, to the LLM result's |
| Pipeline.RecordLlm | backend/core/pipeline.py:193-210 | the dictionary becomes `WithLlm` of the old one; the code is the LLM's on success and the original otherwise |
| Pipeline.Reanalyse | backend/core/pipeline.py:216-223 | the analysis of the optimised code is the specified one |
| Pipeline.RecordOptimized | backend/core/pipeline.py:212-223 | only the optimised code and its analysis change |
| Pipeline.RunPipeline | backend/core/pipeline.py:137-225 | the dictionary the method returns is that of the specification `Pipeline` |
| Pipeline.OptimiseStages | backend/core/pipeline.py:184-225 | stages 3 and 4 give the dictionary of the specification `Optimise` |
| Pipeline.AbortStopsRun | backend/core/pipeline.py:168-170 | an aborted report sets the error and stops with no flag set, no optimised code and no analyses |
| Pipeline.AnalysisFailureStopsRun | backend/core/pipeline.py:176-179 | a failing analysis stops the run after the checks, with the analyser's message |
| Pipeline.FlagsNested | backend/core/pipeline.py:158-225 | optimisation ran only after the analysis passed, which passed only after the checks; an early stop always has an error; a passed analysis always has a non-error optimised analysis |
| Pipeline.RaisesOnlyFromOptimizers | backend/core/pipeline.py:184-193 | the run raises exactly when, after both checks passed, the optimiser of its level raises: the rule optimiser at level 1, `optimize` at level 2 |
| Pipeline.LevelDecidesOptimization | backend/core/pipeline.py:184-212 | an optimiser ran exactly for "level1" and "level2"; any other level keeps the code and the analysis and sets no error |
| Pipeline.Level1Notes | backend/core/pipeline.py:187-190 | level 1 records the rewrite and its non-empty change list, with the sentinel exactly when nothing changed |
| Pipeline.Level2Outcome | backend/core/pipeline.py:192-210 | level 2 raises when `optimize` does; otherwise it copies the LLM metadata; success takes its code; failure keeps the original code and analysis with an error "LLM optimization failed: ..." |
| Pipeline.OptimizedAnalysisReuse | backend/core/pipeline.py:216-223 | the original analysis is reused when the stripped code is unchanged or its analysis fails, and the fresh analysis is used otherwise |

## Left out

- Floating-point arithmetic:
  - Halstead metrics, the maintainability index and its label are not modelled.
  - The empirical benchmark and its log-log fit are not modelled either: they depend on wall-clock time, tracemalloc and floats.
  - `analyze_source` therefore reports only line counts, per-function signals and estimates, cyclomatic complexity and the big-O distribution.
- LlmOptimizer.ScoreResult: the weighted score formula and `similarity_ratio` (difflib) are a parameter (`Scoring.formula`). The contract states the gates and the non-negative clamp, not the formula.
- Scores and confidences are Dafny `real`s; float rounding is not modelled.
- The network, the clock and concurrency are not modelled:
  - the Groq client and its request: `QueryLlm` receives each model's reply, or the exception the request raised, and the elapsed time;
  - the thread pool and `asyncio.gather` of `fan_out`: the results come back in `MODELS` order, which is all `aggregate` reads;
  - the progress printing of `optimize`, and `print_result`;
  - the await inside `run_pipeline` and `run_pipeline_sync`: the pipeline receives the LLM stage as a function, which may raise.
- LlmOptimizer.ParseLlmResponse: the decoded `changes` value is taken to be a list of strings. A JSON value of another shape is stored as it is by the source and only fails later, when the notes are merged; that path is not modelled.
- LlmOptimizer.ParseLlmResponse: a reply whose content is `None` raises inside `strip_thinking_block`; it is modelled as a failed request, since both end in the same `except`.
- `backend/app.py` (Flask routes, MongoDB, bcrypt) is not part of this model.
- `backend/checks/syntax_check.py` is not part of this model: it is a thin wrapper over the parser.
- Library behaviour is given as parameters:
  - `ast.parse` (a `ParseResult`), `ast.unparse` and `ast.get_source_segment`;
  - the regular expressions of `NON_PYTHON_SIGNATURES` and of response parsing;
  - JSON decoding;
  - Python's `eval` on two constants;
  - the LLM syntax check.
- ErrorChecker.CheckIsPython: the `tokenize` gate is not modelled. It builds the token generator but never consumes it, so it never raises and never changes the verdict.
- ErrorChecker.RunAllChecks: the syntax gate re-parses text that the language gate already parsed. Its abort branch therefore cannot be reached; `SyntaxErrorStopsAtLanguageGate` proves this, and the branch is not written out.
- `analyze_code_complexity` is not part of this model. Nothing in the backend calls it, and it is `AnalyzeFunctionNode` followed by the two estimators, applied to a whole module.
- ComplexityChecker.AnalyzeSource: the `has_divide_conquer` signal is always false, because nothing in the visitor sets it. It is kept as a field and never read.
- Rewriting the tree in place (`visit_BoolOp` assigning `node.values`, the target pruning) is modelled on values. The rewritten tree is returned and nothing else holds the old nodes.
- RuleOptimizer.OptimizeCode: an exception other than a syntax error propagates in the source. Here it is the `None` result, and the pipeline's `None` is the run that raises. Such an exception is the `IndexError` of `len()` with no argument, or of `.append()` with no argument inside an append-loop.
- RuleSemantics.ExecPreserved: the meaning of code is modelled only for assignments, `if` and `pass` over boolean variables. Arithmetic and `len(x) == 0` tests have their own evaluators. The append-loop rule (`visit_For`) is modelled for its shape but has no semantic theorem: loops, lists and method calls are outside these evaluators.
- RuleSemantics.ArithPreserved: constant folding is checked against integer `+`, `-` and `*` only. True division, floats, strings and `**` are folded through the `eval` parameter, and there is no theorem about their values.
- The `Visit*` methods of `ComplexityChecker.ComplexityAnalyzer` are stated against `AfterNode`, a function of the old fields.
- PyAst.Walk: operator, expression-context and `alias` nodes are not nodes of the model. None of them has children, so leaving them out keeps the walk order of every other node; the checks never match them (an alias is read from its import).
- PyAst.Walk: `async for`, `async with`, `match`, `try*` and other statements without a constructor of their own are `OtherStmt`.
  - Their expressions and then their statements are walked, so every check reaches them; a forbidden call inside them is reported.
  - Their wrapper nodes (`withitem`, `excepthandler`, `match_case` and patterns) are flattened into `exprs` and `body`. A value held by a wrapper is therefore reached one level earlier, and the breadth-first order inside these statements is not `ast.walk`'s.
- PyAst.Walk: type aliases and the `type_params` of Python 3.12 are not modelled.
- PyAst.Walk: a constant that is an infinite float (`1e999`) or a NaN is not modelled; `FloatConst` holds a real.
- RuleOptimizer.OptimizeCode: `ast.fix_missing_locations` is modelled only through the `located` flag of a constant, which is what `compile` checks; line numbers themselves are not tracked.

## Findings

| source | as written | input that shows it | evidently intended | confidence | as-written member | corrected member |
|---|---|---|---|---|---|---|
| backend/optimizer/rule_optimizer.py:154-160 | target pruning keeps only `Name` targets, so an assignment to an attribute or subscript loses all its targets and is deleted | `self.x = 1` | only unused *names* are dropped; other targets are kept | not executed | RuleSemantics.PruneTargetsAsWrittenDropsAttribute | RuleSemantics.RemoveUnusedPreserved |
| backend/optimizer/rule_optimizer.py:81-93 | the boolean-assignment pattern checks the `if` branch's target and never the `else` branch's | `if c: a = True` / `else: b = False` | the rewrite to `v = c` applies only when both branches assign the same name | not executed | RuleSemantics.IfRuleAsWrittenLosesElseTarget | RuleSemantics.ExecPreserved |
| backend/optimizer/rule_optimizer.py:47-53 | when every operand of `and` is `True`, the node is left with no operands | `True and True` | the expression becomes `True` | not executed | RuleSemantics.AndRuleAsWrittenEmpty | RuleSemantics.AndRuleEval |
| backend/optimizer/rule_optimizer.py:128-134 | `x = x` is detected on the first target only, so a chained assignment is deleted together with its other targets | `x = y = x` | only a single-target `x = x` is deleted | not executed | RuleSemantics.AssignRuleAsWrittenLosesTarget | RuleSemantics.ExecPreserved |
| backend/optimizer/rule_optimizer.py:58-67 | `len(x) == 0` is matched on the first operator and comparator only, and the rest of a chained comparison is dropped | `len(x) == 0 < 0` | only a comparison with exactly one operator is rewritten | not executed | RuleSemantics.CompareRuleAsWrittenDropsChain | RuleSemantics.CompareRulePreserved |
| backend/optimizer/rule_optimizer.py:10-15 | a folded constant is built without a source position, and `compile` of the enclosing operation then raises `TypeError`, which is swallowed, so folding stops after one level | `1 + 2 + 3` gives `3 + 3` | nested constant arithmetic folds to one constant | not executed | RuleSemantics.NestedFoldStops | RuleSemantics.FoldsCompletely |
| backend/optimizer/llm_optimizer.py:360 | `optimize` passes the global `GROQ_API_KEY`, which the module never binds (line 15 binds `api_key`), so every call raises `NameError` and so does every level-2 run | any call of `optimize(code)` | the key read at line 15 is passed to the client | not executed | LlmOptimizer.Optimize | LlmOptimizer.OptimizeCorrected |
