/**
 * The gated checks of `checks/error_checker.py`: language detection, the
 * syntax gate, the security scan, runtime-risk detection, optimisation
 * readiness and `run_all_checks`, which runs them in order.
 *
 * `ast.parse` is given as its result (`ParseResult`) and `re.search` with
 * `re.MULTILINE` as the oracle `search(pattern, code)`.
 */
module ErrorChecker {
  import opened Wrappers
  import opened Text
  import opened PyAst

  // ---------------------------------------------------- language detection

  /** Regular expressions that betray another language. */
  const NonPythonSignatures: seq<string> := [
    @"\bfunction\s+\w+\s*\(",
    @"\bvar\s+\w+\s*=",
    @"\bconst\s+\w+\s*=",
    @"\blet\s+\w+\s*=",
    @"#include\s*<",
    @"\bpublic\s+static\s+void\b",
    @"\bint\s+main\s*\(",
    @"^\s*\{\s*$",
    @"=>",
    @"console\.log\s*\(",
    @"\bfn\s+\w+\s*\(",
    @"\bfunc\s+\w+\s*\("
  ]

  const LargeFunctionThreshold: nat := 15

  datatype LanguageCheck = LanguageCheck(isPython: bool, reason: string)

  /** The statement kinds whose presence confirms Python. */
  predicate IsPythonConstruct(n: Node) {
    n.StmtNode? &&
    (n.s.FunctionDef? || n.s.ClassDef? || n.s.Import? || n.s.ImportFrom? || n.s.Assign? ||
     n.s.Return? || n.s.For? || n.s.While? || n.s.If? || n.s.With?)
  }

  predicate HasPythonConstruct(tree: seq<Stmt>) {
    exists m :: m in Walk(ModuleNode(tree)) && IsPythonConstruct(m)
  }

  /** The first of `patterns` that `search` finds in `code`. */
  function FirstMatching(patterns: seq<string>, code: string, search: (string, string) -> bool): (r: Option<string>)
    ensures r.None? <==> forall i :: 0 <= i < |patterns| ==> !search(patterns[i], code)
    ensures r.Some? ==> exists i :: 0 <= i < |patterns| && patterns[i] == r.value && search(r.value, code) &&
                                    forall k :: 0 <= k < i ==> !search(patterns[k], code)
  {
    if patterns == [] then None
    else if search(patterns[0], code) then Some(patterns[0])
    else
      var r := FirstMatching(patterns[1..], code, search);
      if r.Some? then
        var i :| 0 <= i < |patterns[1..]| && patterns[1..][i] == r.value && search(r.value, code) &&
                 forall k :: 0 <= k < i ==> !search(patterns[1..][k], code);
        assert patterns[i + 1] == r.value;
        assert forall k :: 0 <= k < i + 1 ==> !search(patterns[k], code) by {
          forall k | 0 <= k < i + 1 ensures !search(patterns[k], code) {
            if k > 0 {
              assert patterns[k] == patterns[1..][k - 1];
            }
          }
        }
        r
      else
        assert forall i :: 0 <= i < |patterns| ==> !search(patterns[i], code) by {
          forall i | 0 <= i < |patterns| ensures !search(patterns[i], code) {
            if i > 0 {
              assert patterns[i] == patterns[1..][i - 1];
            }
          }
        }
        r
  }

  function PatternReason(pattern: string): string {
    "Non-Python syntax pattern detected: '" + pattern + "'"
  }

  /** The verdict of `check_is_python`, gate by gate. */
  function LanguageVerdict(code: string, parsed: ParseResult, search: (string, string) -> bool): LanguageCheck {
    if parsed.SyntaxError? then
      LanguageCheck(false, "Failed to parse as Python: " + SyntaxErrorText(parsed.msg, parsed.lineno))
    else if FirstMatching(NonPythonSignatures, code, search).Some? then
      LanguageCheck(false, PatternReason(FirstMatching(NonPythonSignatures, code, search).value))
    else if !HasPythonConstruct(parsed.tree) && |Strip(code)| > 30 then
      LanguageCheck(false, "No recognizable Python constructs found.")
    else
      LanguageCheck(true, "Valid Python code confirmed.")
  }

  /**
   * Code is accepted as Python exactly when it parses, no signature of
   * another language is found, and it has a Python construct or is at most
   * 30 characters once stripped.
   */
  lemma LanguageVerdictIff(code: string, parsed: ParseResult, search: (string, string) -> bool)
    ensures LanguageVerdict(code, parsed, search).isPython <==>
      && parsed.Parsed?
      && (forall i :: 0 <= i < |NonPythonSignatures| ==> !search(NonPythonSignatures[i], code))
      && (HasPythonConstruct(parsed.tree) || |Strip(code)| <= 30)
  {
  }

  /**
   * `check_is_python`. The tokenizer step is left out: `generate_tokens`
   * returns a lazy generator that is never advanced, so it cannot reject.
   */
  method CheckIsPython(code: string, parsed: ParseResult, search: (string, string) -> bool)
    returns (result: LanguageCheck)
    ensures result == LanguageVerdict(code, parsed, search)
  {
    if parsed.SyntaxError? {
      return LanguageCheck(false, "Failed to parse as Python: " + SyntaxErrorText(parsed.msg, parsed.lineno));
    }
    var i := 0;
    while i < |NonPythonSignatures|
      invariant 0 <= i <= |NonPythonSignatures|
      invariant forall k :: 0 <= k < i ==> !search(NonPythonSignatures[k], code)
    {
      var pattern := NonPythonSignatures[i];
      if search(pattern, code) {
        ghost var first := FirstMatching(NonPythonSignatures, code, search);
        assert first.Some?;
        ghost var j :| 0 <= j < |NonPythonSignatures| && NonPythonSignatures[j] == first.value &&
                       search(first.value, code) && forall k :: 0 <= k < j ==> !search(NonPythonSignatures[k], code);
        assert j == i;
        return LanguageCheck(false, PatternReason(pattern));
      }
      i := i + 1;
    }
    var hasPythonConstruct := HasPythonConstruct(parsed.tree);
    if !hasPythonConstruct && |Strip(code)| > 30 {
      return LanguageCheck(false, "No recognizable Python constructs found.");
    }
    return LanguageCheck(true, "Valid Python code confirmed.");
  }

  // ------------------------------------------------------------ syntax gate

  /** `check_syntax`: no message when the code parses. */
  function CheckSyntax(parsed: ParseResult): (r: Option<string>)
    ensures r.None? <==> parsed.Parsed?
    ensures r.Some? ==> r.value == "Syntax Error at line " + NatToString(parsed.lineno) + ": " + parsed.msg
  {
    match parsed
    case Parsed(_) => None
    case SyntaxError(msg, lineno, _) => Some("Syntax Error at line " + NatToString(lineno) + ": " + msg)
  }

  // -------------------------------------------------------------- security

  const ForbiddenImports: set<string> := {"os", "sys", "subprocess", "shutil", "socket", "ctypes"}
  const ForbiddenFunctions: set<string> := {"eval", "exec", "open", "compile", "__import__"}
  const UnsafeAttributes: set<string> := {"system", "popen", "run", "call", "Popen"}

  function ImportMessage(name: string): string {
    "Forbidden import: '" + name + "'"
  }

  function FromImportMessage(moduleName: string): string {
    "Forbidden import via 'from': '" + moduleName + "'"
  }

  function CallMessage(name: string): string {
    "Forbidden function call: '" + name + "'"
  }

  function SystemCallMessage(base: string, attr: string): string {
    "Unsafe system call: '" + base + "." + attr + "()'"
  }

  /** An imported name is forbidden when its first dotted component is. */
  predicate IsForbiddenModule(name: string) {
    FirstComponent(name) in ForbiddenImports
  }

  /** The errors for the aliases of one `import` statement, in order. */
  function ImportAliasErrors(names: seq<string>): seq<string> {
    if names == [] then []
    else
      var last := names[|names| - 1];
      ImportAliasErrors(names[..|names| - 1]) + (if IsForbiddenModule(last) then [ImportMessage(last)] else [])
  }

  /** The number of forbidden aliases. */
  function ForbiddenAliases(names: seq<string>): nat {
    if names == [] then 0
    else ForbiddenAliases(names[..|names| - 1]) + (if IsForbiddenModule(names[|names| - 1]) then 1 else 0)
  }

  /** The error for a call, if any: a forbidden builtin, or an unsafe method of a forbidden module. */
  function CallErrors(func: Expr): seq<string> {
    if func.Name? then
      if func.id in ForbiddenFunctions then [CallMessage(func.id)] else []
    else if func.Attribute? && func.base.Name? then
      if func.base.id in ForbiddenImports && func.attr in UnsafeAttributes
      then [SystemCallMessage(func.base.id, func.attr)] else []
    else []
  }

  /** What the security loop appends for one walked node. */
  function NodeSecurityErrors(n: Node): seq<string> {
    if n.StmtNode? && n.s.Import? then ImportAliasErrors(n.s.names)
    else if n.StmtNode? && n.s.ImportFrom? then
      var m := n.s.fromModule;
      if m.Some? && m.value != "" && IsForbiddenModule(m.value) then [FromImportMessage(m.value)] else []
    else if n.ExprNode? && n.e.Call? then CallErrors(n.e.func)
    else []
  }

  /** The checks of the security loop for one walked node. */
  method NodeSecurity(node: Node) returns (errors: seq<string>)
    ensures errors == NodeSecurityErrors(node)
  {
    errors := [];
    if node.StmtNode? && node.s.Import? {
      var names := node.s.names;
      var j := 0;
      while j < |names|
        invariant 0 <= j <= |names|
        invariant errors == ImportAliasErrors(names[..j])
      {
        assert names[..j + 1][..j] == names[..j];
        if IsForbiddenModule(names[j]) {
          errors := errors + [ImportMessage(names[j])];
        }
        j := j + 1;
      }
      assert names[..|names|] == names;
    }
    if node.StmtNode? && node.s.ImportFrom? {
      var m := node.s.fromModule;
      if m.Some? && m.value != "" && IsForbiddenModule(m.value) {
        errors := errors + [FromImportMessage(m.value)];
      }
    }
    if node.ExprNode? && node.e.Call? {
      var func := node.e.func;
      if func.Name? {
        if func.id in ForbiddenFunctions {
          errors := errors + [CallMessage(func.id)];
        }
      }
      if func.Attribute? {
        if func.base.Name? {
          var base := func.base.id;
          var attr := func.attr;
          if base in ForbiddenImports && attr in UnsafeAttributes {
            errors := errors + [SystemCallMessage(base, attr)];
          }
        }
      }
    }
  }

  /** `check_security`: every error of every node, in walk order. */
  method CheckSecurity(tree: Node) returns (errors: seq<string>)
    ensures errors == Collect(Walk(tree), NodeSecurityErrors)
  {
    var walk := Walk(tree);
    errors := [];
    var i := 0;
    while i < |walk|
      invariant 0 <= i <= |walk|
      invariant errors == Collect(walk[..i], NodeSecurityErrors)
    {
      var nodeErrors := NodeSecurity(walk[i]);
      errors := errors + nodeErrors;
      CollectStep(walk, i, NodeSecurityErrors);
      i := i + 1;
    }
    CollectFull(walk, NodeSecurityErrors);
  }

  lemma ImportMessageInjective(a: string, b: string)
    requires ImportMessage(a) == ImportMessage(b)
    ensures a == b
  {
    var ma, mb := ImportMessage(a), ImportMessage(b);
    assert a == ma[19..|ma| - 1];
    assert b == mb[19..|mb| - 1];
  }

  /**
   * Each forbidden alias of an `import` gets exactly one error, naming it;
   * no other alias is named.
   */
  lemma {:induction false} ImportAliasErrorsFacts(names: seq<string>)
    ensures |ImportAliasErrors(names)| == ForbiddenAliases(names)
    ensures forall a :: ImportMessage(a) in ImportAliasErrors(names) <==> a in names && IsForbiddenModule(a)
  {
    if names != [] {
      var init := names[..|names| - 1];
      var last := names[|names| - 1];
      ImportAliasErrorsFacts(init);
      forall a ensures ImportMessage(a) in ImportAliasErrors(names) <==> a in names && IsForbiddenModule(a) {
        if ImportMessage(a) in ImportAliasErrors(names) && ImportMessage(a) !in ImportAliasErrors(init) {
          ImportMessageInjective(a, last);
        }
        if a in names && a !in init {
          assert a == last;
        }
        assert names == init + [last];
      }
    }
  }

  /** `from M import ...` is flagged exactly when `M` is given and its first component is forbidden. */
  lemma FromImportFlagged(m: Option<string>, names: seq<string>)
    ensures NodeSecurityErrors(StmtNode(ImportFrom(m, names))) != [] <==> m.Some? && IsForbiddenModule(m.value)
  {
    if m.Some? && m.value == "" {
      assert FirstComponent("") == "";
    }
  }

  /**
   * A call is flagged exactly when it calls a forbidden builtin by name, or
   * an unsafe method on a forbidden module name.
   */
  lemma CallFlagged(func: Expr, args: seq<Expr>, keywords: seq<Keyword>)
    ensures NodeSecurityErrors(ExprNode(Call(func, args, keywords))) != [] <==>
      || (func.Name? && func.id in ForbiddenFunctions)
      || (func.Attribute? && func.base.Name? && func.base.id in ForbiddenImports && func.attr in UnsafeAttributes)
  {
  }

  /** Every error an `import` node yields is an import error. */
  lemma {:induction false} ImportAliasErrorsAreImports(names: seq<string>, x: string)
    requires x in ImportAliasErrors(names)
    ensures exists a :: a in names && x == ImportMessage(a)
  {
    var init := names[..|names| - 1];
    if x in ImportAliasErrors(init) {
      ImportAliasErrorsAreImports(init, x);
      var a :| a in init && x == ImportMessage(a);
      assert a in names;
    }
  }

  /** The four kinds of security message never coincide with a call message for another name. */
  lemma CallMessageDistinct(f: string)
    ensures forall a :: ImportMessage(a) != CallMessage(f)
    ensures forall m :: FromImportMessage(m) != CallMessage(f)
    ensures forall b, at :: SystemCallMessage(b, at) != CallMessage(f)
    ensures forall g :: CallMessage(g) == CallMessage(f) ==> g == f
  {
    var msg := CallMessage(f);
    forall a ensures ImportMessage(a) != msg {
      assert ImportMessage(a)[10] == 'i' && msg[10] == 'f';
    }
    forall m ensures FromImportMessage(m) != msg {
      assert FromImportMessage(m)[10] == 'i' && msg[10] == 'f';
    }
    forall b, at ensures SystemCallMessage(b, at) != msg {
      assert SystemCallMessage(b, at)[0] == 'U' && msg[0] == 'F';
    }
    forall g | CallMessage(g) == msg ensures g == f {
      var other := CallMessage(g);
      assert f == msg[26..|msg| - 1] && g == other[26..|other| - 1];
    }
  }

  /** A call error names the builtin `f` only for a node that calls `f` by name. */
  lemma NodeCallReported(n: Node, f: string)
    ensures CallMessage(f) in NodeSecurityErrors(n) <==>
      f in ForbiddenFunctions && n.ExprNode? && n.e.Call? && n.e.func.Name? && n.e.func.id == f
  {
    CallMessageDistinct(f);
    if n.StmtNode? && n.s.Import? && CallMessage(f) in NodeSecurityErrors(n) {
      ImportAliasErrorsAreImports(n.s.names, CallMessage(f));
    }
  }

  /**
   * The security scan names the builtin `f` exactly when `f` is forbidden
   * and some call in the tree calls `f` by name.
   */
  lemma ForbiddenCallReported(tree: Node, f: string)
    ensures CallMessage(f) in Collect(Walk(tree), NodeSecurityErrors) <==>
      f in ForbiddenFunctions &&
      exists m :: m in Walk(tree) && m.ExprNode? && m.e.Call? && m.e.func.Name? && m.e.func.id == f
  {
    var walk := Walk(tree);
    var msg := CallMessage(f);
    CollectMember(walk, NodeSecurityErrors, msg);
    if msg in Collect(walk, NodeSecurityErrors) {
      var i :| 0 <= i < |walk| && msg in NodeSecurityErrors(walk[i]);
      NodeCallReported(walk[i], f);
    }
    if f in ForbiddenFunctions && exists m :: m in walk && m.ExprNode? && m.e.Call? && m.e.func.Name? && m.e.func.id == f {
      var m :| m in walk && m.ExprNode? && m.e.Call? && m.e.func.Name? && m.e.func.id == f;
      var i :| 0 <= i < |walk| && walk[i] == m;
      NodeCallReported(m, f);
    }
  }

  // --------------------------------------------------------- runtime risks

  function InfiniteLoopMessage(line: nat): string {
    "Infinite loop risk: 'while True' at line " + NatToString(line) + " has no break statement"
  }

  function DivisionByZeroMessage(line: nat): string {
    "Division by zero: literal '/ 0' at line " + NatToString(line)
  }

  function RecursionMessage(name: string, line: nat): string {
    "Possible infinite recursion in '" + name + "' at line " + NatToString(line) +
    ": recursive call with no conditional base case"
  }

  function UnreachableMessage(name: string, line: nat): string {
    "Unreachable code after 'return' in '" + name + "' at line " + NatToString(line)
  }

  predicate HasBreak(n: Node) {
    exists m :: m in Walk(n) && m.StmtNode? && m.s.Break?
  }

  predicate CallsItself(n: Node, name: string) {
    exists m :: m in Walk(n) && m.ExprNode? && m.e.Call? && m.e.func.Name? && m.e.func.id == name
  }

  predicate HasConditional(n: Node) {
    exists m :: m in Walk(n) && m.StmtNode? && (m.s.If? || m.s.Assert?)
  }

  /** All statements but the last (`body[:-1]`). */
  function AllButLast(body: seq<Stmt>): seq<Stmt> {
    if body == [] then [] else body[..|body| - 1]
  }

  /** The first `return` among `stmts`. */
  function FirstReturn(stmts: seq<Stmt>): (r: Option<nat>)
    ensures r.Some? ==> r.value < |stmts| && stmts[r.value].Return? && forall k :: 0 <= k < r.value ==> !stmts[k].Return?
    ensures r.None? ==> forall k :: 0 <= k < |stmts| ==> !stmts[k].Return?
  {
    if stmts == [] then None
    else if stmts[0].Return? then Some(0)
    else
      var r := FirstReturn(stmts[1..]);
      if r.Some? then Some(r.value + 1) else None
  }

  /** The unreachable-code warning of a function body: at most one, for its first early `return`. */
  function UnreachableWarnings(name: string, body: seq<Stmt>): seq<string> {
    var early := AllButLast(body);
    match FirstReturn(early)
    case Some(k) => [UnreachableMessage(name, early[k].line)]
    case None => []
  }

  /** What the runtime-risk loop appends for one walked node. */
  function NodeRuntimeWarnings(n: Node): seq<string> {
    if n.StmtNode? && n.s.While? then
      if IsTrueConstant(n.s.test) && !HasBreak(n) then [InfiniteLoopMessage(n.s.line)] else []
    else if n.ExprNode? && n.e.BinOp? && n.e.op == Div then
      if IsZeroConstant(n.e.right) then [DivisionByZeroMessage(n.e.line)] else []
    else if n.StmtNode? && n.s.FunctionDef? then FunctionWarnings(n)
    else []
  }

  /** The recursion and unreachable-code warnings of a function definition. */
  function FunctionWarnings(n: Node): seq<string>
    requires n.StmtNode? && n.s.FunctionDef?
  {
    (if CallsItself(n, n.s.name) && !HasConditional(n) then [RecursionMessage(n.s.name, n.s.line)] else [])
    + UnreachableWarnings(n.s.name, n.s.body)
  }

  /** The checks of the runtime-risk loop for one walked node. */
  method NodeRuntime(node: Node) returns (warnings: seq<string>)
    ensures warnings == NodeRuntimeWarnings(node)
  {
    warnings := [];
    if node.StmtNode? && node.s.While? {
      if IsTrueConstant(node.s.test) {
        var hasBreak := HasBreak(node);
        if !hasBreak {
          warnings := warnings + [InfiniteLoopMessage(node.s.line)];
        }
      }
    }
    if node.ExprNode? && node.e.BinOp? && node.e.op == Div {
      if IsZeroConstant(node.e.right) {
        warnings := warnings + [DivisionByZeroMessage(node.e.line)];
      }
    }
    if node.StmtNode? && node.s.FunctionDef? {
      var functionWarnings := FunctionRuntime(node);
      warnings := warnings + functionWarnings;
    }
  }

  /** The checks of the runtime-risk loop for a function definition. */
  method FunctionRuntime(node: Node) returns (warnings: seq<string>)
    requires node.StmtNode? && node.s.FunctionDef?
    ensures warnings == FunctionWarnings(node)
  {
    warnings := [];
    var callsItself := CallsItself(node, node.s.name);
    var hasConditional := HasConditional(node);
    if callsItself && !hasConditional {
      warnings := warnings + [RecursionMessage(node.s.name, node.s.line)];
    }
    var unreachable := UnreachableAfterReturn(node.s.name, node.s.body);
    warnings := warnings + unreachable;
  }

  /** `check_runtime_risks`: every warning of every node, in walk order. */
  method CheckRuntimeRisks(tree: Node) returns (warnings: seq<string>)
    ensures warnings == Collect(Walk(tree), NodeRuntimeWarnings)
  {
    var walk := Walk(tree);
    warnings := [];
    var i := 0;
    while i < |walk|
      invariant 0 <= i <= |walk|
      invariant warnings == Collect(walk[..i], NodeRuntimeWarnings)
    {
      var nodeWarnings := NodeRuntime(walk[i]);
      warnings := warnings + nodeWarnings;
      CollectStep(walk, i, NodeRuntimeWarnings);
      i := i + 1;
    }
    CollectFull(walk, NodeRuntimeWarnings);
  }

  /** The loop over `body[:-1]` that reports the first `return` and stops. */
  method UnreachableAfterReturn(name: string, body: seq<Stmt>) returns (warnings: seq<string>)
    ensures warnings == UnreachableWarnings(name, body)
    ensures |warnings| <= 1
  {
    var early := AllButLast(body);
    warnings := [];
    var j := 0;
    while j < |early|
      invariant 0 <= j <= |early|
      invariant forall k :: 0 <= k < j ==> !early[k].Return?
      invariant warnings == []
    {
      if early[j].Return? {
        warnings := [UnreachableMessage(name, early[j].line)];
        assert FirstReturn(early) == Some(j);
        break;
      }
      j := j + 1;
    }
  }

  /** `while True` is warned about exactly when no `break` occurs anywhere inside it; `while 1` never is. */
  lemma WhileTrueWarned(test: Expr, body: seq<Stmt>, orelse: seq<Stmt>, line: nat)
    ensures var n := StmtNode(While(test, body, orelse, line));
      NodeRuntimeWarnings(n) != [] <==> IsTrueConstant(test) && !HasBreak(n)
    ensures NodeRuntimeWarnings(StmtNode(While(Constant(IntConst(1), true), body, orelse, line))) == []
  {
  }

  /** Only true division by a constant equal to zero is warned about, `0.0` included; `//` and `%` never are. */
  lemma DivisionWarned(left: Expr, op: BinOperator, right: Expr, line: nat)
    ensures NodeRuntimeWarnings(ExprNode(BinOp(left, op, right, line))) != [] <==> op == Div && IsZeroConstant(right)
    ensures NodeRuntimeWarnings(ExprNode(BinOp(left, Div, Constant(FloatConst(0.0), true), line))) != []
  {
  }

  /** A function gets at most one unreachable-code warning, naming its first `return` before the last statement. */
  lemma UnreachableAtMostOnce(name: string, body: seq<Stmt>)
    ensures |UnreachableWarnings(name, body)| <= 1
    ensures UnreachableWarnings(name, body) != [] <==> exists k :: 0 <= k < |body| - 1 && body[k].Return?
  {
    var early := AllButLast(body);
    if exists k :: 0 <= k < |body| - 1 && body[k].Return? {
      var k :| 0 <= k < |body| - 1 && body[k].Return?;
      assert early[k] == body[k];
    }
    if FirstReturn(early).Some? {
      var k := FirstReturn(early).value;
      assert early[k] == body[k];
    }
  }

  // ------------------------------------------------- optimisation readiness

  datatype Finding = Finding(kind: string, line: nat, name: Option<string>, suggestion: string)

  datatype ReadinessReport = ReadinessReport(optimizable: bool, findingCount: nat, findings: seq<Finding>)

  const NestedLoopSuggestion: string :=
    "Nested loops detected \U{2014} review for high time complexity (O(n\U{b2}) or worse)"
  const ChainedOperationSuggestion: string :=
    "Chained binary operation \U{2014} check for redundant repeated computation"

  function LargeFunctionSuggestion(name: string, statements: nat): string {
    "'" + name + "' has " + NatToString(statements) + " statements (threshold: " +
    NatToString(LargeFunctionThreshold) + ") \U{2014} consider splitting"
  }

  /** Some statement of `body` holds a loop anywhere inside it (itself included). */
  predicate HasNestedLoop(body: seq<Stmt>) {
    exists k, m :: 0 <= k < |body| && m in Walk(StmtNode(body[k])) && IsLoop(m)
  }

  function NestedLoopFindings(n: Node): seq<Finding> {
    if n.StmtNode? && n.s.For? && HasNestedLoop(n.s.body)
    then [Finding("nested_loop", n.s.line, None, NestedLoopSuggestion)] else []
  }

  function LargeFunctionFindings(n: Node): seq<Finding> {
    if IsFunctionDef(n) && |n.s.body| > LargeFunctionThreshold
    then [Finding("large_function", n.s.line, Some(n.s.name), LargeFunctionSuggestion(n.s.name, |n.s.body|))]
    else []
  }

  function ChainedOperationFindings(n: Node): seq<Finding> {
    if n.ExprNode? && n.e.BinOp? && n.e.left.BinOp?
    then [Finding("nested_binary_operation", n.e.line, None, ChainedOperationSuggestion)] else []
  }

  /** What the readiness loop appends for one walked node. */
  function NodeFindings(n: Node): seq<Finding> {
    NestedLoopFindings(n) + LargeFunctionFindings(n) + ChainedOperationFindings(n)
  }

  /** The checks of the readiness loop for one walked node. */
  method NodeReadiness(node: Node) returns (findings: seq<Finding>)
    ensures findings == NodeFindings(node)
  {
    findings := [];
    if node.StmtNode? && node.s.For? {
      var hasNested := HasNestedLoop(node.s.body);
      if hasNested {
        findings := findings + [Finding("nested_loop", node.s.line, None, NestedLoopSuggestion)];
      }
    }
    if IsFunctionDef(node) {
      if |node.s.body| > LargeFunctionThreshold {
        findings := findings + [Finding("large_function", node.s.line, Some(node.s.name),
                                        LargeFunctionSuggestion(node.s.name, |node.s.body|))];
      }
    }
    if node.ExprNode? && node.e.BinOp? {
      if node.e.left.BinOp? {
        findings := findings + [Finding("nested_binary_operation", node.e.line, None, ChainedOperationSuggestion)];
      }
    }
  }

  /** `check_optimization_readiness`: the findings in walk order, their number, and whether there is any. */
  method CheckOptimizationReadiness(tree: Node) returns (report: ReadinessReport)
    ensures report.findings == Collect(Walk(tree), NodeFindings)
    ensures report.findingCount == |report.findings|
    ensures report.optimizable <==> exists m :: m in Walk(tree) && NodeFindings(m) != []
  {
    var walk := Walk(tree);
    var findings := ReadinessLoop(walk);
    FindingsIff(walk);
    report := ReadinessReport(|findings| > 0, |findings|, findings);
  }

  /** The loop of `check_optimization_readiness` over the walked nodes. */
  method ReadinessLoop(walk: seq<Node>) returns (findings: seq<Finding>)
    ensures findings == Collect(walk, NodeFindings)
  {
    findings := [];
    var i := 0;
    while i < |walk|
      invariant 0 <= i <= |walk|
      invariant findings == Collect(walk[..i], NodeFindings)
    {
      var nodeFindings := NodeReadiness(walk[i]);
      findings := findings + nodeFindings;
      CollectStep(walk, i, NodeFindings);
      i := i + 1;
    }
    CollectFull(walk, NodeFindings);
  }

  /** Some finding is collected exactly when some walked node yields one. */
  lemma FindingsIff(walk: seq<Node>)
    ensures Collect(walk, NodeFindings) != [] <==> exists m :: m in walk && NodeFindings(m) != []
  {
    CollectEmpty(walk, NodeFindings);
    if exists m :: m in walk && NodeFindings(m) != [] {
      var m :| m in walk && NodeFindings(m) != [];
      var i :| 0 <= i < |walk| && walk[i] == m;
      assert NodeFindings(walk[i]) != [];
    }
  }

  /** A `large_function` finding is given exactly for a `def` with more than 15 statements. */
  lemma LargeFunctionFlagged(n: Node)
    ensures (exists f :: f in NodeFindings(n) && f.kind == "large_function") <==>
            IsFunctionDef(n) && |n.s.body| > 15
  {
    if IsFunctionDef(n) && |n.s.body| > 15 {
      assert NodeFindings(n)[|NestedLoopFindings(n)|].kind == "large_function";
    }
  }

  /** A `nested_binary_operation` finding is given exactly for a binary operation whose left operand is one. */
  lemma ChainedOperationFlagged(n: Node)
    ensures (exists f :: f in NodeFindings(n) && f.kind == "nested_binary_operation") <==>
            n.ExprNode? && n.e.BinOp? && n.e.left.BinOp?
  {
    if n.ExprNode? && n.e.BinOp? && n.e.left.BinOp? {
      assert NodeFindings(n)[|NestedLoopFindings(n)| + |LargeFunctionFindings(n)|].kind == "nested_binary_operation";
    }
  }

  // ---------------------------------------------------------- the runner

  /** The report dictionary; an absent key is `None`. */
  datatype CheckReport = CheckReport(
    language: LanguageCheck,
    syntax: Option<string>,
    security: Option<seq<string>>,
    runtimeRisks: Option<seq<string>>,
    optimization: Option<ReadinessReport>,
    aborted: Option<string>)

  /**
   * `run_all_checks`: the language gate, then the syntax gate, then the
   * three scans of the parsed tree. The syntax gate parses the same code a
   * second time; after the language gate has accepted it, that parse
   * succeeds, so its abort branch cannot be taken.
   */
  method RunAllChecks(code: string, parsed: ParseResult, search: (string, string) -> bool)
    returns (report: CheckReport)
    ensures report.language == LanguageVerdict(code, parsed, search)
    ensures !report.language.isPython ==>
      report == CheckReport(report.language, None, None, None, None, Some("Code rejected: not valid Python."))
    ensures report.language.isPython ==>
      && parsed.Parsed?
      && report.syntax == Some("OK")
      && report.aborted == None
      && report.security == Some(Collect(Walk(ModuleNode(parsed.tree)), NodeSecurityErrors))
      && report.runtimeRisks == Some(Collect(Walk(ModuleNode(parsed.tree)), NodeRuntimeWarnings))
      && report.optimization.Some?
      && report.optimization.value.findings == Collect(Walk(ModuleNode(parsed.tree)), NodeFindings)
      && report.optimization.value.findingCount == |report.optimization.value.findings|
      && (report.optimization.value.optimizable <==>
          exists m :: m in Walk(ModuleNode(parsed.tree)) && NodeFindings(m) != [])
  {
    var languageCheck := CheckIsPython(code, parsed, search);
    report := CheckReport(languageCheck, None, None, None, None, None);
    if !languageCheck.isPython {
      report := report.(aborted := Some("Code rejected: not valid Python."));
      return;
    }
    var syntaxError := CheckSyntax(parsed);
    assert syntaxError == None;
    report := report.(syntax := Some(syntaxError.GetOr("OK")));
    var tree := ModuleNode(parsed.tree);
    var security := CheckSecurity(tree);
    report := report.(security := Some(security));
    var runtimeRisks := CheckRuntimeRisks(tree);
    report := report.(runtimeRisks := Some(runtimeRisks));
    var optimization := CheckOptimizationReadiness(tree);
    report := report.(optimization := Some(optimization));
  }

  /** Code that does not parse is stopped at the language gate, with no syntax entry. */
  lemma SyntaxErrorStopsAtLanguageGate(code: string, parsed: ParseResult, search: (string, string) -> bool)
    requires parsed.SyntaxError?
    ensures !LanguageVerdict(code, parsed, search).isPython
    ensures CheckSyntax(parsed).Some?
  {
  }
}
