/**
 * The rule-based optimiser of `optimizer/rule_optimizer.py`.
 *
 * `LevelOneOptimizer` is an `ast.NodeTransformer` whose every `visit_*`
 * method first rewrites the node's children (`generic_visit`) and then
 * applies one rule to the node. Here the rules are functions of the
 * already-rewritten children (`BinOpRule`, `UnaryRule`, ...) and the
 * traversal is `OptExpr`/`OptStmt`, which rewrites the children first and
 * then applies the node's rule. A statement rewrites to a list of
 * statements: none when it is deleted, several when an `if True:` is
 * replaced by its body.
 *
 * Four rules change the meaning of some programs. The traversal takes the
 * rule set as a parameter: `AsWritten` applies the rules as the optimiser
 * has them, and is what `OptimizeCode` runs; `Corrected` applies the
 * repaired rules, and is what the theorems of `RuleSemantics` are about.
 *
 * Three of the rules read `[0]` of a list that can be empty and then raise
 * `IndexError`, which nothing catches; `PassRaises` says when that happens.
 *
 * `eval` of two constants, beyond integer `+`, `-` and `*`, is the
 * parameter `eval`; `ast.unparse` is the parameter `unparse`.
 */
module RuleOptimizer {
  import opened Wrappers
  import opened Text
  import opened PyAst

  /** `eval` of `l op r` for two constants: the value, or `None` when it raises. */
  type Evaluator = (Const, BinOperator, Const) -> Option<Const>

  /** The rules as the optimiser has them, or as they were evidently meant. */
  datatype RuleSet = AsWritten | Corrected

  // ------------------------------------------------------ constant folding

  /** The integer a constant stands for in arithmetic: an `int`, or a `bool` as 0 or 1. */
  function IntValue(c: Const): Option<int> {
    match c
    case IntConst(i) => Some(i)
    case BoolConst(b) => Some(if b then 1 else 0)
    case _ => None
  }

  /** A constant equal to 1 in Python (`value == 1`): `1`, `True` or `1.0`. */
  predicate IsOneConstant(e: Expr) {
    e.Constant? && EqualsInt(e.value, 1)
  }

  predicate IsArithOp(op: BinOperator) {
    op == Add || op == Sub || op == Mult
  }

  /** Integer `+`, `-` or `*`. */
  function Arith(op: BinOperator, a: int, b: int): int
    requires IsArithOp(op)
  {
    match op
    case Add => a + b
    case Sub => a - b
    case Mult => a * b
  }

  /** `eval` of `l op r`: integer `+`, `-`, `*` exactly, everything else by `eval`. */
  function EvalConstants(l: Const, op: BinOperator, r: Const, eval: Evaluator): Option<Const> {
    if IntValue(l).Some? && IntValue(r).Some? && IsArithOp(op) then
      Some(IntConst(Arith(op, IntValue(l).value, IntValue(r).value)))
    else eval(l, op, r)
  }

  /**
   * Whether `compile` accepts the operation of two constants. As written it
   * refuses an operand the optimiser built itself, since that node has no
   * `lineno` yet; the `TypeError` is swallowed and nothing is folded.
   */
  predicate Compilable(left: Expr, right: Expr, rules: RuleSet)
    requires left.Constant? && right.Constant?
  {
    rules.Corrected? || (left.located && right.located)
  }

  // ------------------------------------------------------------ the rules

  /** `visit_BinOp` after its children: fold two constants, else the identities of `+ 0`, `* 1` and `* 0`. */
  function BinOpRule(left: Expr, op: BinOperator, right: Expr, line: nat, eval: Evaluator, rules: RuleSet): Expr {
    if left.Constant? && right.Constant? && Compilable(left, right, rules) &&
       EvalConstants(left.value, op, right.value, eval).Some? then
      Constant(EvalConstants(left.value, op, right.value, eval).value, false)
    else if op == Add && IsZeroConstant(right) then left
    else if op == Add && IsZeroConstant(left) then right
    else if op == Mult && IsOneConstant(right) then left
    else if op == Mult && IsZeroConstant(right) then Constant(IntConst(0), false)
    else if op == Mult && IsOneConstant(left) then right
    else if op == Mult && IsZeroConstant(left) then Constant(IntConst(0), false)
    else BinOp(left, op, right, line)
  }

  /** `visit_UnaryOp` after its child: `not (not x)` is `x`. */
  function UnaryRule(uop: UnaryOperator, operand: Expr): Expr {
    if uop == Not && operand.UnaryOp? && operand.uop == Not then operand.operand
    else UnaryOp(uop, operand)
  }

  /** The operands that are not the literal `True`, in order. */
  function DropTrue(values: seq<Expr>): (kept: seq<Expr>)
    ensures |kept| <= |values|
    ensures forall v :: v in kept <==> v in values && !IsTrueConstant(v)
  {
    if values == [] then []
    else (if IsTrueConstant(values[0]) then [] else [values[0]]) + DropTrue(values[1..])
  }

  /** `visit_BoolOp` on `and`, as written: when every operand is `True`, an `and` with no operands is left. */
  function AndRuleAsWritten(values: seq<Expr>): Expr {
    var kept := DropTrue(values);
    if |kept| == 1 then kept[0] else BoolOp(And, kept)
  }

  /** `visit_BoolOp` on `and`, corrected: when every operand is `True`, the result is `True`. */
  function AndRule(values: seq<Expr>): Expr {
    var kept := DropTrue(values);
    if |kept| == 1 then kept[0]
    else if kept == [] then Constant(BoolConst(true), false)
    else BoolOp(And, kept)
  }

  /** `visit_BoolOp` after its children; `or` is left alone. */
  function BoolOpRule(bop: BoolOperator, values: seq<Expr>, rules: RuleSet): Expr {
    if bop == Or then BoolOp(bop, values)
    else if rules.AsWritten? then AndRuleAsWritten(values)
    else AndRule(values)
  }

  /** A call of the name `len`. */
  predicate IsLenCall(e: Expr) {
    e.Call? && e.func.Name? && e.func.id == "len"
  }

  /** `len(...) == 0` in the first comparison of a chain. */
  predicate IsLenEqualsZero(left: Expr, ops: seq<CmpOp>, comparators: seq<Expr>) {
    IsLenCall(left) && |ops| > 0 && ops[0] == Eq && |comparators| > 0 && IsZeroConstant(comparators[0])
  }

  /** `visit_Compare` as written: a chain `len(x) == 0 < y` becomes `not x`, losing `< y`. */
  function CompareRuleAsWritten(left: Expr, ops: seq<CmpOp>, comparators: seq<Expr>): Expr {
    if IsLenEqualsZero(left, ops, comparators) && |left.args| > 0 then UnaryOp(Not, left.args[0])
    else Compare(left, ops, comparators)
  }

  /** `visit_Compare` after its children, corrected: only a single comparison `len(x) == 0` is `not x`. */
  function CompareRule(left: Expr, ops: seq<CmpOp>, comparators: seq<Expr>): Expr {
    if IsLenEqualsZero(left, ops, comparators) && |left.args| > 0 && |ops| == 1 then UnaryOp(Not, left.args[0])
    else Compare(left, ops, comparators)
  }

  /** `visit_Compare` raises `IndexError`: `ops[0]`, `comparators[0]` or `args[0]` is read from an empty list. */
  predicate CompareRaises(left: Expr, ops: seq<CmpOp>, comparators: seq<Expr>) {
    IsLenCall(left) &&
    (|ops| == 0 || (ops[0] == Eq && (|comparators| == 0 || (IsZeroConstant(comparators[0]) && |left.args| == 0))))
  }

  /** An assignment of the literal `b` (`value.value is b`). */
  predicate IsBoolAssign(s: Stmt, b: bool) {
    s.Assign? && s.value.Constant? && s.value.value == BoolConst(b)
  }

  /** `if c: ... = True` / `else: ... = False`, one statement in each branch. */
  predicate IsBoolAssignIf(body: seq<Stmt>, orelse: seq<Stmt>) {
    |body| == 1 && |orelse| == 1 && IsBoolAssign(body[0], true) && IsBoolAssign(orelse[0], false)
  }

  /** A test that is the literal `b` (`test.value is b`). */
  predicate IsBoolTest(test: Expr, b: bool) {
    test.Constant? && test.value == BoolConst(b)
  }

  /** `visit_If` as written: the `else` branch's targets are never looked at. */
  function IfRuleAsWritten(test: Expr, body: seq<Stmt>, orelse: seq<Stmt>): seq<Stmt> {
    if IsBoolTest(test, true) then body
    else if IsBoolTest(test, false) then orelse
    else if IsBoolAssignIf(body, orelse) then [Assign(body[0].targets, test)]
    else [If(test, body, orelse)]
  }

  /** `visit_If` after its children, corrected: both branches must assign the same targets. */
  function IfRule(test: Expr, body: seq<Stmt>, orelse: seq<Stmt>): seq<Stmt> {
    if IsBoolTest(test, true) then body
    else if IsBoolTest(test, false) then orelse
    else if IsBoolAssignIf(body, orelse) && body[0].targets == orelse[0].targets then [Assign(body[0].targets, test)]
    else [If(test, body, orelse)]
  }

  /** A loop body that is one call `something.append(...)`. */
  predicate IsAppendLoop(body: seq<Stmt>) {
    |body| == 1 && body[0].ExprStmt? && body[0].value.Call? &&
    body[0].value.func.Attribute? && body[0].value.func.attr == "append"
  }

  /** `visit_For` after its children: `for t in it: r.append(x)` is `r = [x for t in it]`. */
  function ForRule(target: Expr, iter: Expr, body: seq<Stmt>, orelse: seq<Stmt>, line: nat): seq<Stmt> {
    if IsAppendLoop(body) && |body[0].value.args| > 0 then
      var call := body[0].value;
      [Assign([call.func.base], ListComp(call.args[0], [Comprehension(target, iter, [])]))]
    else [For(target, iter, body, orelse, line)]
  }

  /** `visit_For` raises `IndexError` on `.append()` with no argument. */
  predicate ForRaises(body: seq<Stmt>) {
    IsAppendLoop(body) && |body[0].value.args| == 0
  }

  /** `visit_Assign` as written: only the first target is compared with the value. */
  predicate IsSelfAssignAsWritten(targets: seq<Expr>, value: Expr) {
    value.Name? && |targets| > 0 && targets[0].Name? && targets[0].id == value.id
  }

  /** Corrected: every target is the value's own name. */
  predicate IsSelfAssign(targets: seq<Expr>, value: Expr) {
    value.Name? && |targets| > 0 && forall t :: t in targets ==> t.Name? && t.id == value.id
  }

  function AssignRuleAsWritten(targets: seq<Expr>, value: Expr): seq<Stmt> {
    if IsSelfAssignAsWritten(targets, value) then [] else [Assign(targets, value)]
  }

  /** `visit_Assign` after its children, corrected: `x = x` is deleted, `x = y = x` is kept. */
  function AssignRule(targets: seq<Expr>, value: Expr): seq<Stmt> {
    if IsSelfAssign(targets, value) then [] else [Assign(targets, value)]
  }

  /** `visit_Assign` raises `IndexError` on a name assigned to no target (which the parser never produces). */
  predicate AssignRaises(targets: seq<Expr>, value: Expr) {
    value.Name? && targets == []
  }

  // -------------------------------------------------------- the traversal

  /** `LevelOneOptimizer().visit(e)` for an expression: children first, then the node's rule. */
  function OptExpr(e: Expr, eval: Evaluator, rules: RuleSet): Expr
    decreases ExprSize(e), 0
  {
    match e
    case Name(_, _) => e
    case Constant(_, _) => e
    case BinOp(l, op, r, line) => BinOpRule(OptExpr(l, eval, rules), op, OptExpr(r, eval, rules), line, eval, rules)
    case UnaryOp(u, x) => UnaryRule(u, OptExpr(x, eval, rules))
    case BoolOp(b, vs) => BoolOpRule(b, OptExprs(vs, eval, rules), rules)
    case Compare(l, ops, cs) =>
      var l', cs' := OptExpr(l, eval, rules), OptExprs(cs, eval, rules);
      if rules.AsWritten? then CompareRuleAsWritten(l', ops, cs') else CompareRule(l', ops, cs')
    case Call(f, args, kws) => Call(OptExpr(f, eval, rules), OptExprs(args, eval, rules), OptKeywords(kws, eval, rules))
    case Attribute(b, a) => Attribute(OptExpr(b, eval, rules), a)
    case Subscript(b, s) => Subscript(OptExpr(b, eval, rules), OptExpr(s, eval, rules))
    case Slice(bs) => Slice(OptExprs(bs, eval, rules))
    case List(xs) => List(OptExprs(xs, eval, rules))
    case Tuple(xs) => Tuple(OptExprs(xs, eval, rules))
    case Dict(ks, vs) => Dict(OptExprs(ks, eval, rules), OptExprs(vs, eval, rules))
    case ListComp(x, gs) => ListComp(OptExpr(x, eval, rules), OptComps(gs, eval, rules))
    case SetComp(x, gs) => SetComp(OptExpr(x, eval, rules), OptComps(gs, eval, rules))
    case GeneratorExp(x, gs) => GeneratorExp(OptExpr(x, eval, rules), OptComps(gs, eval, rules))
    case DictComp(k, v, gs) => DictComp(OptExpr(k, eval, rules), OptExpr(v, eval, rules), OptComps(gs, eval, rules))
    case Lambda(a, b) => Lambda(OptArguments(a, eval, rules), OptExpr(b, eval, rules))
    case OtherExpr(k, ps) => OtherExpr(k, OptExprs(ps, eval, rules))
  }

  /** A list of expressions, element by element (expressions are never deleted). */
  function OptExprs(es: seq<Expr>, eval: Evaluator, rules: RuleSet): (r: seq<Expr>)
    ensures |r| == |es|
    decreases ExprsSize(es), 1
  {
    if es == [] then [] else [OptExpr(es[0], eval, rules)] + OptExprs(es[1..], eval, rules)
  }

  function OptOpt(o: Option<Expr>, eval: Evaluator, rules: RuleSet): Option<Expr>
    decreases OptSize(o), 1
  {
    match o
    case None => None
    case Some(e) => Some(OptExpr(e, eval, rules))
  }

  function OptKeyword(k: Keyword, eval: Evaluator, rules: RuleSet): Keyword
    decreases KeywordSize(k), 0
  {
    Keyword(k.arg, OptExpr(k.value, eval, rules))
  }

  function OptKeywords(ks: seq<Keyword>, eval: Evaluator, rules: RuleSet): seq<Keyword>
    decreases KeywordsSize(ks), 1
  {
    if ks == [] then [] else [OptKeyword(ks[0], eval, rules)] + OptKeywords(ks[1..], eval, rules)
  }

  function OptArg(a: Arg, eval: Evaluator, rules: RuleSet): Arg
    decreases ArgSize(a), 0
  {
    Arg(a.name, OptOpt(a.annotation, eval, rules))
  }

  function OptArgs(xs: seq<Arg>, eval: Evaluator, rules: RuleSet): seq<Arg>
    decreases ArgsSize(xs), 1
  {
    if xs == [] then [] else [OptArg(xs[0], eval, rules)] + OptArgs(xs[1..], eval, rules)
  }

  function OptOptArg(o: Option<Arg>, eval: Evaluator, rules: RuleSet): Option<Arg>
    decreases OptArgSize(o), 1
  {
    match o
    case None => None
    case Some(a) => Some(OptArg(a, eval, rules))
  }

  /** Parameter lists: defaults and annotations are rewritten like any expression. */
  function OptArguments(a: Arguments, eval: Evaluator, rules: RuleSet): Arguments
    decreases ArgumentsSize(a), 0
  {
    Arguments(OptArgs(a.posonlyargs, eval, rules), OptArgs(a.args, eval, rules), OptOptArg(a.vararg, eval, rules),
              OptArgs(a.kwonlyargs, eval, rules), OptExprs(a.kwDefaults, eval, rules),
              OptOptArg(a.kwarg, eval, rules), OptExprs(a.defaults, eval, rules))
  }

  function OptComp(c: Comprehension, eval: Evaluator, rules: RuleSet): Comprehension
    decreases CompSize(c), 0
  {
    Comprehension(OptExpr(c.target, eval, rules), OptExpr(c.iter, eval, rules), OptExprs(c.ifs, eval, rules))
  }

  function OptComps(cs: seq<Comprehension>, eval: Evaluator, rules: RuleSet): seq<Comprehension>
    decreases CompsSize(cs), 1
  {
    if cs == [] then [] else [OptComp(cs[0], eval, rules)] + OptComps(cs[1..], eval, rules)
  }

  function OptHandler(h: Handler, eval: Evaluator, rules: RuleSet): Handler
    decreases HandlerSize(h), 0
  {
    ExceptHandler(OptOpt(h.htype, eval, rules), OptStmts(h.body, eval, rules))
  }

  function OptHandlers(hs: seq<Handler>, eval: Evaluator, rules: RuleSet): seq<Handler>
    decreases HandlersSize(hs), 1
  {
    if hs == [] then [] else [OptHandler(hs[0], eval, rules)] + OptHandlers(hs[1..], eval, rules)
  }

  function OptWithItem(w: WithItem, eval: Evaluator, rules: RuleSet): WithItem
    decreases WithItemSize(w), 0
  {
    WithItem(OptExpr(w.contextExpr, eval, rules), OptOpt(w.optionalVars, eval, rules))
  }

  function OptWithItems(ws: seq<WithItem>, eval: Evaluator, rules: RuleSet): seq<WithItem>
    decreases WithItemsSize(ws), 1
  {
    if ws == [] then [] else [OptWithItem(ws[0], eval, rules)] + OptWithItems(ws[1..], eval, rules)
  }

  /** A statement: what `generic_visit` splices into the enclosing list in its place. */
  function OptStmt(s: Stmt, eval: Evaluator, rules: RuleSet): seq<Stmt>
    decreases StmtSize(s), 0
  {
    match s
    case FunctionDef(n, a, b, ds, r, line, y) =>
      [FunctionDef(n, OptArguments(a, eval, rules), OptStmts(b, eval, rules), OptExprs(ds, eval, rules),
                   OptOpt(r, eval, rules), line, y)]
    case ClassDef(n, bs, kws, b, ds) =>
      [ClassDef(n, OptExprs(bs, eval, rules), OptKeywords(kws, eval, rules), OptStmts(b, eval, rules),
                OptExprs(ds, eval, rules))]
    case Return(v, line) => [Return(OptOpt(v, eval, rules), line)]
    case Assign(ts, v) =>
      var ts', v' := OptExprs(ts, eval, rules), OptExpr(v, eval, rules);
      if rules.AsWritten? then AssignRuleAsWritten(ts', v') else AssignRule(ts', v')
    case AugAssign(t, o, v) => [AugAssign(OptExpr(t, eval, rules), o, OptExpr(v, eval, rules))]
    case ExprStmt(v) => [ExprStmt(OptExpr(v, eval, rules))]
    case For(t, i, b, o, line) =>
      ForRule(OptExpr(t, eval, rules), OptExpr(i, eval, rules), OptStmts(b, eval, rules), OptStmts(o, eval, rules), line)
    case While(t, b, o, line) => [While(OptExpr(t, eval, rules), OptStmts(b, eval, rules), OptStmts(o, eval, rules), line)]
    case If(t, b, o) =>
      var t', b', o' := OptExpr(t, eval, rules), OptStmts(b, eval, rules), OptStmts(o, eval, rules);
      if rules.AsWritten? then IfRuleAsWritten(t', b', o') else IfRule(t', b', o')
    case With(items, b) => [With(OptWithItems(items, eval, rules), OptStmts(b, eval, rules))]
    case Try(b, hs, o, f) =>
      [Try(OptStmts(b, eval, rules), OptHandlers(hs, eval, rules), OptStmts(o, eval, rules), OptStmts(f, eval, rules))]
    case Assert(t, m) => [Assert(OptExpr(t, eval, rules), OptOpt(m, eval, rules))]
    case Import(_) => [s]
    case ImportFrom(_, _) => [s]
    case Break => [s]
    case Continue => [s]
    case Pass => [s]
    case OtherStmt(k, es, b) => [OtherStmt(k, OptExprs(es, eval, rules), OptStmts(b, eval, rules))]
  }

  /** A statement list: each statement replaced by what it rewrites to. */
  function OptStmts(ss: seq<Stmt>, eval: Evaluator, rules: RuleSet): seq<Stmt>
    decreases StmtsSize(ss), 1
  {
    if ss == [] then [] else OptStmt(ss[0], eval, rules) + OptStmts(ss[1..], eval, rules)
  }

  /** Expressions are rewritten one by one, in place: the `i`-th result is the `i`-th expression rewritten. */
  lemma {:induction false} OptExprsPointwise(es: seq<Expr>, eval: Evaluator, rules: RuleSet)
    ensures |OptExprs(es, eval, rules)| == |es|
    ensures forall i :: 0 <= i < |es| ==> OptExprs(es, eval, rules)[i] == OptExpr(es[i], eval, rules)
  {
    if es != [] {
      OptExprsPointwise(es[1..], eval, rules);
      var r := OptExprs(es, eval, rules);
      assert r == [OptExpr(es[0], eval, rules)] + OptExprs(es[1..], eval, rules);
      forall i | 0 < i < |es|
        ensures r[i] == OptExpr(es[i], eval, rules)
      {
        assert r[i] == OptExprs(es[1..], eval, rules)[i - 1];
        assert es[1..][i - 1] == es[i];
      }
    }
  }

  // ------------------------------------------------- when the pass raises

  /** The rule of node `n` raises `IndexError` on `n`'s children as the pass has rewritten them. */
  predicate RuleRaises(n: Node, eval: Evaluator, rules: RuleSet) {
    match n
    case ExprNode(Compare(l, ops, cs)) => CompareRaises(OptExpr(l, eval, rules), ops, OptExprs(cs, eval, rules))
    case StmtNode(For(_, _, b, _, _)) => ForRaises(OptStmts(b, eval, rules))
    case StmtNode(Assign(ts, v)) => AssignRaises(OptExprs(ts, eval, rules), OptExpr(v, eval, rules))
    case _ => false
  }

  /**
   * The pass over a module raises `IndexError`: it visits every node of the
   * tree once, after that node's children, so it raises when some node's
   * rule does.
   */
  predicate PassRaises(tree: seq<Stmt>, eval: Evaluator, rules: RuleSet) {
    exists n :: n in Walk(ModuleNode(tree)) && RuleRaises(n, eval, rules)
  }

  // ------------------------------------------------- unused assignments

  /** A name read somewhere (`VarUsageVisitor.visit_Name` on a `Load`). */
  predicate IsLoadedName(m: Node) {
    m.ExprNode? && m.e.Name? && m.e.ctx == Load
  }

  /** The names read anywhere in the module. */
  function UsedNames(tree: seq<Stmt>): set<string> {
    set m | m in Walk(ModuleNode(tree)) && IsLoadedName(m) :: m.e.id
  }

  /**
   * A name read in a default value or a decorator of a `def` is used, so an
   * assignment to it is kept (`DEFAULT = 5` before `def f(x=DEFAULT)`).
   */
  lemma DefaultAndDecoratorNamesUsed(tree: seq<Stmt>, i: nat, k: nat, x: string)
    requires i < |tree| && tree[i].FunctionDef?
    ensures k < |tree[i].args.defaults| && tree[i].args.defaults[k] == Name(x, Load) ==> x in UsedNames(tree)
    ensures k < |tree[i].decorators| && tree[i].decorators[k] == Name(x, Load) ==> x in UsedNames(tree)
  {
    FunctionDefPartsWalked(tree[i], k);
    StmtNodesIndex(tree, i);
    if k < |tree[i].args.defaults| && tree[i].args.defaults[k] == Name(x, Load) {
      WalkThroughChild(ModuleNode(tree), i, ExprNode(Name(x, Load)));
    }
    if k < |tree[i].decorators| && tree[i].decorators[k] == Name(x, Load) {
      WalkThroughChild(ModuleNode(tree), i, ExprNode(Name(x, Load)));
    }
  }

  /** The first pass of `remove_unused_variables`: it fills the set of used names. */
  method CollectUsedNames(tree: seq<Stmt>) returns (used: set<string>)
    ensures used == UsedNames(tree)
    ensures forall m :: m in Walk(ModuleNode(tree)) && IsLoadedName(m) ==> m.e.id in used
  {
    var walk := Walk(ModuleNode(tree));
    used := {};
    var i := 0;
    while i < |walk|
      invariant 0 <= i <= |walk|
      invariant used == set m | m in walk[..i] && IsLoadedName(m) :: m.e.id
    {
      var node := walk[i];
      if node.ExprNode? && node.e.Name? && node.e.ctx == Load {
        used := used + {node.e.id};
      }
      assert walk[..i + 1] == walk[..i] + [node];
      i := i + 1;
    }
    assert walk[..|walk|] == walk;
  }

  /** The targets `RemoveUnusedAssign` keeps, as written: names that are read; every other target is dropped. */
  function PruneTargetsAsWritten(targets: seq<Expr>, used: set<string>): seq<Expr> {
    if targets == [] then []
    else (if targets[0].Name? && targets[0].id in used then [targets[0]] else []) +
         PruneTargetsAsWritten(targets[1..], used)
  }

  /** Corrected: only unread names are dropped; attribute, subscript and tuple targets are kept. */
  function PruneTargets(targets: seq<Expr>, used: set<string>): (kept: seq<Expr>)
    ensures |kept| <= |targets|
    ensures forall t :: t in kept <==> t in targets && (!t.Name? || t.id in used)
  {
    if targets == [] then []
    else (if !targets[0].Name? || targets[0].id in used then [targets[0]] else []) +
         PruneTargets(targets[1..], used)
  }

  /** The targets an assignment keeps under the rule set. */
  function KeptTargets(targets: seq<Expr>, used: set<string>, rules: RuleSet): seq<Expr> {
    if rules.AsWritten? then PruneTargetsAsWritten(targets, used) else PruneTargets(targets, used)
  }

  /** The second pass of `remove_unused_variables` on one statement. */
  function RemoveUnusedStmt(s: Stmt, used: set<string>, rules: RuleSet): seq<Stmt>
    decreases StmtSize(s), 0
  {
    match s
    case Assign(ts, v) =>
      var kept := KeptTargets(ts, used, rules);
      if kept == [] then [] else [Assign(kept, v)]
    case FunctionDef(n, a, b, ds, r, line, y) => [FunctionDef(n, a, RemoveUnusedStmts(b, used, rules), ds, r, line, y)]
    case ClassDef(n, bs, kws, b, ds) => [ClassDef(n, bs, kws, RemoveUnusedStmts(b, used, rules), ds)]
    case For(t, i, b, o, line) =>
      [For(t, i, RemoveUnusedStmts(b, used, rules), RemoveUnusedStmts(o, used, rules), line)]
    case While(t, b, o, line) => [While(t, RemoveUnusedStmts(b, used, rules), RemoveUnusedStmts(o, used, rules), line)]
    case If(t, b, o) => [If(t, RemoveUnusedStmts(b, used, rules), RemoveUnusedStmts(o, used, rules))]
    case With(items, b) => [With(items, RemoveUnusedStmts(b, used, rules))]
    case Try(b, hs, o, f) =>
      [Try(RemoveUnusedStmts(b, used, rules), RemoveUnusedHandlers(hs, used, rules), RemoveUnusedStmts(o, used, rules),
           RemoveUnusedStmts(f, used, rules))]
    case OtherStmt(k, es, b) => [OtherStmt(k, es, RemoveUnusedStmts(b, used, rules))]
    case _ => [s]
  }

  function RemoveUnusedStmts(ss: seq<Stmt>, used: set<string>, rules: RuleSet): seq<Stmt>
    decreases StmtsSize(ss), 1
  {
    if ss == [] then [] else RemoveUnusedStmt(ss[0], used, rules) + RemoveUnusedStmts(ss[1..], used, rules)
  }

  function RemoveUnusedHandler(h: Handler, used: set<string>, rules: RuleSet): Handler
    decreases HandlerSize(h), 0
  {
    ExceptHandler(h.htype, RemoveUnusedStmts(h.body, used, rules))
  }

  function RemoveUnusedHandlers(hs: seq<Handler>, used: set<string>, rules: RuleSet): seq<Handler>
    decreases HandlersSize(hs), 1
  {
    if hs == [] then [] else [RemoveUnusedHandler(hs[0], used, rules)] + RemoveUnusedHandlers(hs[1..], used, rules)
  }

  // ---------------------------------------------------------- optimize_code

  /**
   * `optimize_code`, with the rules as written: source that does not parse
   * comes back unchanged; an `IndexError` in the rewrite propagates
   * (`None`); otherwise the module is rewritten, its unused assignments are
   * removed, and it is unparsed.
   */
  method OptimizeCode(source: string, parsed: ParseResult, eval: Evaluator, unparse: seq<Stmt> -> string)
    returns (result: Option<string>)
    ensures parsed.SyntaxError? ==> result == Some(source)
    ensures parsed.Parsed? ==> (result.None? <==> PassRaises(parsed.tree, eval, AsWritten))
    ensures parsed.Parsed? && result.Some? ==>
      var rewritten := OptStmts(parsed.tree, eval, AsWritten);
      result.value == unparse(RemoveUnusedStmts(rewritten, UsedNames(rewritten), AsWritten))
  {
    if parsed.SyntaxError? {
      return Some(source);
    }
    if PassRaises(parsed.tree, eval, AsWritten) {
      return None;
    }
    var rewritten := OptStmts(parsed.tree, eval, AsWritten);
    var used := CollectUsedNames(rewritten);
    var cleaned := RemoveUnusedStmts(rewritten, used, AsWritten);
    return Some(unparse(cleaned));
  }
}
