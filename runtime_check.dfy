/**
 * The older runtime-risk checker of `checks/runtime_check.py`: every
 * `while True` and every true division by a literal zero is warned about,
 * with fixed messages. A syntax error propagates, modelled as `None`.
 */
module RuntimeCheck {
  import opened Wrappers
  import opened PyAst

  const InfiniteLoopWarning: string := "Possible infinite loop detected (while True)"
  const DivisionByZeroWarning: string := "Possible division by zero detected"

  predicate IsWhileTrue(n: Node) {
    n.StmtNode? && n.s.While? && IsTrueConstant(n.s.test)
  }

  predicate IsDivisionByZero(n: Node) {
    n.ExprNode? && n.e.BinOp? && n.e.op == Div && IsZeroConstant(n.e.right)
  }

  /** What the loop appends for one walked node. */
  function NodeWarnings(n: Node): seq<string> {
    if IsWhileTrue(n) then [InfiniteLoopWarning]
    else if IsDivisionByZero(n) then [DivisionByZeroWarning]
    else []
  }

  /** `check_runtime_risks(code)`: `None` when parsing raises, else the warnings in walk order. */
  method CheckRuntimeRisks(parsed: ParseResult) returns (warnings: Option<seq<string>>)
    ensures warnings.None? <==> parsed.SyntaxError?
    ensures parsed.Parsed? ==> warnings == Some(Collect(Walk(ModuleNode(parsed.tree)), NodeWarnings))
  {
    if parsed.SyntaxError? {
      return None;
    }
    var walk := Walk(ModuleNode(parsed.tree));
    var found: seq<string> := [];
    var i := 0;
    while i < |walk|
      invariant 0 <= i <= |walk|
      invariant found == Collect(walk[..i], NodeWarnings)
    {
      var node := walk[i];
      if node.StmtNode? && node.s.While? {
        if IsTrueConstant(node.s.test) {
          found := found + [InfiniteLoopWarning];
        }
      }
      if node.ExprNode? && node.e.BinOp? && node.e.op == Div {
        if IsZeroConstant(node.e.right) {
          found := found + [DivisionByZeroWarning];
        }
      }
      CollectStep(walk, i, NodeWarnings);
      i := i + 1;
    }
    CollectFull(walk, NodeWarnings);
    return Some(found);
  }

  /**
   * A `while True` is warned about whatever its body holds, a `break`
   * included; `while 1` is not, and neither is `//` or `%` by zero; `/ 0.0`
   * is, since `0.0 == 0`.
   */
  lemma WhileTrueAlwaysWarned(body: seq<Stmt>, orelse: seq<Stmt>, line: nat, left: Expr, op: BinOperator)
    ensures NodeWarnings(StmtNode(While(Constant(BoolConst(true), true), body + [Break], orelse, line))) == [InfiniteLoopWarning]
    ensures NodeWarnings(StmtNode(While(Constant(IntConst(1), true), body, orelse, line))) == []
    ensures op != Div ==> NodeWarnings(ExprNode(BinOp(left, op, Constant(IntConst(0), true), line))) == []
    ensures NodeWarnings(ExprNode(BinOp(left, Div, Constant(FloatConst(0.0), true), line))) == [DivisionByZeroWarning]
  {
  }

  /** Each warning text appears exactly when a node of its kind is walked. */
  lemma WarningsIff(tree: seq<Stmt>)
    ensures var w := Collect(Walk(ModuleNode(tree)), NodeWarnings);
      && (InfiniteLoopWarning in w <==> exists m :: m in Walk(ModuleNode(tree)) && IsWhileTrue(m))
      && (DivisionByZeroWarning in w <==> exists m :: m in Walk(ModuleNode(tree)) && IsDivisionByZero(m))
  {
    var walk := Walk(ModuleNode(tree));
    InfiniteLoopIff(walk);
    DivisionByZeroIff(walk);
  }

  lemma InfiniteLoopIff(walk: seq<Node>)
    ensures InfiniteLoopWarning in Collect(walk, NodeWarnings) <==> exists m :: m in walk && IsWhileTrue(m)
  {
    CollectMember(walk, NodeWarnings, InfiniteLoopWarning);
    MessagesDiffer();
    if exists m :: m in walk && IsWhileTrue(m) {
      var m :| m in walk && IsWhileTrue(m);
      var i :| 0 <= i < |walk| && walk[i] == m;
      assert InfiniteLoopWarning in NodeWarnings(walk[i]);
    }
  }

  lemma DivisionByZeroIff(walk: seq<Node>)
    ensures DivisionByZeroWarning in Collect(walk, NodeWarnings) <==> exists m :: m in walk && IsDivisionByZero(m)
  {
    CollectMember(walk, NodeWarnings, DivisionByZeroWarning);
    MessagesDiffer();
    if exists m :: m in walk && IsDivisionByZero(m) {
      var m :| m in walk && IsDivisionByZero(m);
      var i :| 0 <= i < |walk| && walk[i] == m;
      assert DivisionByZeroWarning in NodeWarnings(walk[i]);
    }
  }

  lemma MessagesDiffer()
    ensures InfiniteLoopWarning != DivisionByZeroWarning
  {
    assert InfiniteLoopWarning[9] == 'i' && DivisionByZeroWarning[9] == 'd';
  }

  /** Code with neither pattern yields no warning, and code with one yields some. */
  lemma NoWarningsIff(tree: seq<Stmt>)
    ensures Collect(Walk(ModuleNode(tree)), NodeWarnings) == [] <==>
            forall m :: m in Walk(ModuleNode(tree)) ==> !IsWhileTrue(m) && !IsDivisionByZero(m)
  {
    var walk := Walk(ModuleNode(tree));
    CollectEmpty(walk, NodeWarnings);
    if forall m :: m in walk ==> !IsWhileTrue(m) && !IsDivisionByZero(m) {
      forall i | 0 <= i < |walk| ensures NodeWarnings(walk[i]) == [] {
        assert walk[i] in walk;
      }
    }
  }
}
