/**
 * The older readiness checker of `checks/readiness_check.py`: code is ready
 * for rule-based optimisation when any node is a loop, an `if` or a binary
 * operation. Its loop returns at the first such node, so it is an existence
 * test over the walk. A syntax error propagates, modelled as `None`.
 */
module ReadinessCheck {
  import opened Wrappers
  import opened PyAst

  /** `ast.For`, `ast.While`, `ast.If` or `ast.BinOp`. */
  predicate IsOptimizable(n: Node) {
    (n.StmtNode? && (n.s.For? || n.s.While? || n.s.If?)) || (n.ExprNode? && n.e.BinOp?)
  }

  /** `check_optimization_readiness(code)`. */
  function CheckOptimizationReadiness(parsed: ParseResult): (r: Option<bool>)
    ensures r.None? <==> parsed.SyntaxError?
  {
    match parsed
    case SyntaxError(_, _, _) => None
    case Parsed(tree) => Some(exists m :: m in Walk(ModuleNode(tree)) && IsOptimizable(m))
  }

  /** A loop or `if` at the top level makes any module ready, wherever it stands and however many there are. */
  lemma TopLevelStatementReady(tree: seq<Stmt>, k: nat)
    requires k < |tree| && (tree[k].For? || tree[k].While? || tree[k].If?)
    ensures CheckOptimizationReadiness(Parsed(tree)) == Some(true)
  {
    WalkTopLevel(tree, k);
    assert IsOptimizable(StmtNode(tree[k]));
  }

  /** A module is ready exactly when one of its statements holds an optimizable node. */
  lemma ReadyIffSomeStatement(tree: seq<Stmt>)
    ensures CheckOptimizationReadiness(Parsed(tree)) == Some(true) <==>
            exists k, m :: 0 <= k < |tree| && m in Walk(StmtNode(tree[k])) && IsOptimizable(m)
  {
    if exists m :: m in Walk(ModuleNode(tree)) && IsOptimizable(m) {
      var m :| m in Walk(ModuleNode(tree)) && IsOptimizable(m);
      WalkModule(tree, m);
    }
    if exists k, m :: 0 <= k < |tree| && m in Walk(StmtNode(tree[k])) && IsOptimizable(m) {
      var k, m :| 0 <= k < |tree| && m in Walk(StmtNode(tree[k])) && IsOptimizable(m);
      WalkModule(tree, m);
    }
  }

  /** Readiness depends only on which statements occur: adding statements to a ready module keeps it ready. */
  lemma ReadyKeptByMoreCode(tree: seq<Stmt>, more: seq<Stmt>)
    requires CheckOptimizationReadiness(Parsed(tree)) == Some(true)
    ensures CheckOptimizationReadiness(Parsed(tree + more)) == Some(true)
    ensures CheckOptimizationReadiness(Parsed(more + tree)) == Some(true)
  {
    ReadyIffSomeStatement(tree);
    ReadyIffSomeStatement(tree + more);
    ReadyIffSomeStatement(more + tree);
    var k, m :| 0 <= k < |tree| && m in Walk(StmtNode(tree[k])) && IsOptimizable(m);
    assert (tree + more)[k] == tree[k];
    assert (more + tree)[|more| + k] == tree[k];
  }

  /** A name or a constant. */
  predicate IsAtom(e: Expr) {
    e.Name? || e.Constant?
  }

  /** Imports, `pass` and assignments of atoms to names: nothing a rule could rewrite. */
  predicate IsPlainStmt(s: Stmt) {
    s.Import? || s.ImportFrom? || s.Pass? ||
    (s.Assign? && IsAtom(s.value) && forall t :: t in s.targets ==> t.Name?)
  }

  /** The nodes such a module is made of. */
  predicate IsPlainNode(n: Node) {
    match n
    case ModuleNode(ss) => forall s :: s in ss ==> IsPlainStmt(s)
    case StmtNode(s) => IsPlainStmt(s)
    case ExprNode(e) => IsAtom(e)
    case _ => false
  }

  lemma {:induction false} ExprNodesPlain(es: seq<Expr>, i: nat)
    requires forall e :: e in es ==> IsAtom(e)
    requires i < |ExprNodes(es)|
    ensures IsPlainNode(ExprNodes(es)[i])
  {
    if i > 0 {
      ExprNodesPlain(es[1..], i - 1);
    }
  }

  lemma PlainChildren(n: Node, i: nat)
    requires IsPlainNode(n) && i < |Children(n)|
    ensures IsPlainNode(Children(n)[i])
  {
    match n
    case ModuleNode(ss) =>
      StmtNodesIndex(ss, i);
      assert ss[i] in ss;
    case StmtNode(s) =>
      PlainAssignChildren(s, i);
    case ExprNode(e) =>
  }

  lemma PlainAssignChildren(s: Stmt, i: nat)
    requires IsPlainStmt(s) && i < |Children(StmtNode(s))|
    ensures IsPlainNode(Children(StmtNode(s))[i])
  {
    assert s.Assign?;
    forall t | t in s.targets ensures IsAtom(t) {
    }
    assert Children(StmtNode(s)) == ExprNodes(s.targets) + [ExprNode(s.value)];
    if i < |s.targets| {
      ExprNodesPlain(s.targets, i);
    }
  }

  /** Code made only of imports and assignments of names or constants to names is not ready. */
  lemma PlainCodeNotReady(tree: seq<Stmt>)
    requires forall s :: s in tree ==> IsPlainStmt(s)
    ensures CheckOptimizationReadiness(Parsed(tree)) == Some(false)
  {
    forall m, i | IsPlainNode(m) && 0 <= i < |Children(m)| ensures IsPlainNode(Children(m)[i]) {
      PlainChildren(m, i);
    }
    BfsKeeps([ModuleNode(tree)], IsPlainNode);
  }
}
