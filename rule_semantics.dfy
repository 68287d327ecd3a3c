/**
 * What the rewrites of `LevelOneOptimizer` mean.
 *
 * Three small evaluators give the rewritten code a meaning to be compared
 * with the original's: integer arithmetic over `+`, `-` and `*`; boolean
 * expressions built from names, `True`/`False`, `not`, `and` and `or`; and
 * straight-line programs of assignments of such expressions to names, `if`
 * and `pass`, run over an environment of boolean variables. A fourth gives
 * `len(x) == 0`-style tests a meaning over the lengths of the named
 * containers. Each evaluator answers `None` outside its fragment, and every
 * theorem is stated for code whose original meaning is defined.
 *
 * For each rule found to change a program's meaning, a lemma exhibits one
 * input on which the rule as written does so, and the theorems are proved
 * for the traversal run with the `Corrected` rule set. The arithmetic and
 * the unused-assignment theorems hold for the rules as written too.
 */
module RuleSemantics {
  import opened Wrappers
  import opened PyAst
  import opened RuleOptimizer

  // ------------------------------------------------- integer arithmetic

  /** The integer value of `e` when it is built from names, integer or boolean constants, `+`, `-` and `*`. */
  function ArithEval(e: Expr, env: string -> int): Option<int>
    decreases e
  {
    match e
    case Name(id, _) => Some(env(id))
    case Constant(c, _) => IntValue(c)
    case BinOp(l, op, r, _) =>
      if IsArithOp(op) && ArithEval(l, env).Some? && ArithEval(r, env).Some? then
        Some(Arith(op, ArithEval(l, env).value, ArithEval(r, env).value))
      else None
    case _ => None
  }

  lemma BinOpRuleArith(l: Expr, op: BinOperator, r: Expr, line: nat, eval: Evaluator, rules: RuleSet, env: string -> int)
    requires IsArithOp(op) && ArithEval(l, env).Some? && ArithEval(r, env).Some?
    ensures ArithEval(BinOpRule(l, op, r, line, eval, rules), env) ==
            Some(Arith(op, ArithEval(l, env).value, ArithEval(r, env).value))
  {
  }

  /**
   * Folding and the identities `x + 0`, `0 + x`, `x * 1`, `1 * x`, `x * 0`
   * and `0 * x` keep the value of every integer expression, applied
   * bottom-up, under either rule set.
   */
  lemma {:induction false} ArithPreserved(e: Expr, env: string -> int, eval: Evaluator, rules: RuleSet)
    requires ArithEval(e, env).Some?
    ensures ArithEval(OptExpr(e, eval, rules), env) == ArithEval(e, env)
    decreases e
  {
    if e.BinOp? {
      ArithPreserved(e.left, env, eval, rules);
      ArithPreserved(e.right, env, eval, rules);
      BinOpRuleArith(OptExpr(e.left, eval, rules), e.op, OptExpr(e.right, eval, rules), e.line, eval, rules, env);
    }
  }

  /** Two constants whose evaluation raises are left as they are, the identities aside: `1 / 0` stays. */
  lemma RaisingFoldKeepsNode(a: Const, la: bool, op: BinOperator, b: Const, lb: bool, line: nat, eval: Evaluator,
                             rules: RuleSet)
    requires op != Add && op != Mult
    requires EvalConstants(a, op, b, eval).None?
    ensures BinOpRule(Constant(a, la), op, Constant(b, lb), line, eval, rules) ==
            BinOp(Constant(a, la), op, Constant(b, lb), line)
  {
  }

  /**
   * Children are rewritten before their parent: in `(0 + 1) * x` the left
   * operand is folded to `1` first, and only then does `* 1` disappear.
   */
  lemma ChildrenFirst(x: string, line: nat, eval: Evaluator, rules: RuleSet)
    ensures var inner := BinOp(Constant(IntConst(0), true), Add, Constant(IntConst(1), true), line);
            OptExpr(BinOp(inner, Mult, Name(x, Load), line), eval, rules) == Name(x, Load)
  {
    var inner := BinOp(Constant(IntConst(0), true), Add, Constant(IntConst(1), true), line);
    assert OptExpr(inner, eval, rules) == Constant(IntConst(1), false);
  }

  /**
   * As written, `1 + 2 + 3` becomes `3 + 3`: the folded `1 + 2` is a
   * constant without a source position, so `compile` refuses the outer
   * addition and it is kept.
   */
  lemma NestedFoldStops(line: nat, eval: Evaluator)
    ensures var inner := BinOp(Constant(IntConst(1), true), Add, Constant(IntConst(2), true), line);
            OptExpr(BinOp(inner, Add, Constant(IntConst(3), true), line), eval, AsWritten) ==
            BinOp(Constant(IntConst(3), false), Add, Constant(IntConst(3), true), line)
  {
    var inner := BinOp(Constant(IntConst(1), true), Add, Constant(IntConst(2), true), line);
    assert OptExpr(inner, eval, AsWritten) == Constant(IntConst(3), false);
  }

  /** Integer arithmetic on constants only: `+`, `-` and `*` of integer literals. */
  predicate ConstantArith(e: Expr)
    decreases e
  {
    match e
    case Constant(c, _) => c.IntConst?
    case BinOp(l, op, r, _) => IsArithOp(op) && ConstantArith(l) && ConstantArith(r)
    case _ => false
  }

  /**
   * Corrected, folding reaches the top: every arithmetic expression of
   * integer literals becomes the one constant it evaluates to.
   */
  lemma {:induction false} FoldsCompletely(e: Expr, eval: Evaluator, env: string -> int)
    requires ConstantArith(e)
    ensures ArithEval(e, env).Some?
    ensures OptExpr(e, eval, Corrected).Constant?
    ensures OptExpr(e, eval, Corrected).value == IntConst(ArithEval(e, env).value)
    decreases e
  {
    if e.BinOp? {
      FoldsCompletely(e.left, eval, env);
      FoldsCompletely(e.right, eval, env);
    }
  }

  // ------------------------------------------------- boolean expressions

  /**
   * The value of a boolean expression over boolean variables: names bound in
   * `env`, `True`/`False`, `not`, `and` and `or`. An `and` or `or` with
   * fewer than two operands is not a valid expression (Python refuses to
   * compile it), so it has no value.
   */
  function BoolEval(e: Expr, env: map<string, bool>): Option<bool>
    decreases ExprSize(e), 0
  {
    match e
    case Name(id, _) => if id in env then Some(env[id]) else None
    case Constant(c, _) => if c.BoolConst? then Some(c.b) else None
    case UnaryOp(u, x) => if u == Not && BoolEval(x, env).Some? then Some(!BoolEval(x, env).value) else None
    case BoolOp(b, vs) => if |vs| < 2 then None else if b == And then AllOf(vs, env) else AnyOf(vs, env)
    case _ => None
  }

  /** The conjunction of the operands, when each has a value. */
  function AllOf(vs: seq<Expr>, env: map<string, bool>): Option<bool>
    decreases ExprsSize(vs), 1
  {
    if vs == [] then Some(true)
    else if BoolEval(vs[0], env).Some? && AllOf(vs[1..], env).Some? then
      Some(BoolEval(vs[0], env).value && AllOf(vs[1..], env).value)
    else None
  }

  /** The disjunction of the operands, when each has a value. */
  function AnyOf(vs: seq<Expr>, env: map<string, bool>): Option<bool>
    decreases ExprsSize(vs), 1
  {
    if vs == [] then Some(false)
    else if BoolEval(vs[0], env).Some? && AnyOf(vs[1..], env).Some? then
      Some(BoolEval(vs[0], env).value || AnyOf(vs[1..], env).value)
    else None
  }

  /** Dropping the literal `True` operands keeps the conjunction. */
  lemma {:induction false} DropTrueAll(vs: seq<Expr>, env: map<string, bool>)
    requires AllOf(vs, env).Some?
    ensures AllOf(DropTrue(vs), env) == AllOf(vs, env)
    decreases |vs|
  {
    if vs != [] {
      DropTrueAll(vs[1..], env);
      if !IsTrueConstant(vs[0]) {
        var kept := DropTrue(vs);
        assert kept == [vs[0]] + DropTrue(vs[1..]);
        assert kept[0] == vs[0] && kept[1..] == DropTrue(vs[1..]);
      } else {
        assert DropTrue(vs) == DropTrue(vs[1..]);
      }
    }
  }

  /** The corrected `and` rule keeps the value of the conjunction of its operands. */
  lemma AndRuleEval(vs: seq<Expr>, env: map<string, bool>)
    requires AllOf(vs, env).Some?
    ensures BoolEval(AndRule(vs), env) == AllOf(vs, env)
  {
    DropTrueAll(vs, env);
    var kept := DropTrue(vs);
    if |kept| == 1 {
      assert kept[1..] == [];
    }
  }

  /** The corrected rewrite keeps the value of every boolean expression that has one. */
  lemma {:induction false} BoolPreserved(e: Expr, env: map<string, bool>, eval: Evaluator)
    requires BoolEval(e, env).Some?
    ensures BoolEval(OptExpr(e, eval, Corrected), env) == BoolEval(e, env)
    decreases ExprSize(e), 0
  {
    if e.UnaryOp? {
      BoolPreserved(e.operand, env, eval);
    } else if e.BoolOp? {
      if e.bop == And {
        AllOfPreserved(e.values, env, eval);
        AndRuleEval(OptExprs(e.values, eval, Corrected), env);
      } else {
        AnyOfPreserved(e.values, env, eval);
      }
    }
  }

  lemma {:induction false} AllOfPreserved(vs: seq<Expr>, env: map<string, bool>, eval: Evaluator)
    requires AllOf(vs, env).Some?
    ensures AllOf(OptExprs(vs, eval, Corrected), env) == AllOf(vs, env)
    decreases ExprsSize(vs), 1
  {
    if vs != [] {
      BoolPreserved(vs[0], env, eval);
      AllOfPreserved(vs[1..], env, eval);
      var r := OptExprs(vs, eval, Corrected);
      assert r[0] == OptExpr(vs[0], eval, Corrected) && r[1..] == OptExprs(vs[1..], eval, Corrected);
    }
  }

  lemma {:induction false} AnyOfPreserved(vs: seq<Expr>, env: map<string, bool>, eval: Evaluator)
    requires AnyOf(vs, env).Some?
    ensures AnyOf(OptExprs(vs, eval, Corrected), env) == AnyOf(vs, env)
    decreases ExprsSize(vs), 1
  {
    if vs != [] {
      BoolPreserved(vs[0], env, eval);
      AnyOfPreserved(vs[1..], env, eval);
      var r := OptExprs(vs, eval, Corrected);
      assert r[0] == OptExpr(vs[0], eval, Corrected) && r[1..] == OptExprs(vs[1..], eval, Corrected);
    }
  }

  /**
   * `True and True` as written becomes an `and` with no operands, which has
   * no value (and which `ast.unparse` prints as nothing); the corrected rule
   * gives `True`.
   */
  lemma AndRuleAsWrittenEmpty(env: map<string, bool>)
    ensures var vs := [Constant(BoolConst(true), true), Constant(BoolConst(true), true)];
      && BoolEval(BoolOp(And, vs), env) == Some(true)
      && AndRuleAsWritten(vs) == BoolOp(And, [])
      && BoolEval(AndRuleAsWritten(vs), env) == None
      && AndRule(vs) == Constant(BoolConst(true), false)
  {
    var vs := [Constant(BoolConst(true), true), Constant(BoolConst(true), true)];
    assert DropTrue(vs[1..]) == [];
    assert DropTrue(vs) == [];
    assert vs[1..][1..] == [];
  }

  // ---------------------------------------------------- straight-line code

  type Env = map<string, bool>

  /** Assigning `v` to each target from left to right; only names can be assigned here. */
  function AssignAll(targets: seq<Expr>, v: bool, env: Env): Option<Env> {
    if targets == [] then Some(env)
    else if targets[0].Name? then AssignAll(targets[1..], v, env[targets[0].id := v])
    else None
  }

  /** Running one statement: an assignment of a boolean expression, an `if` or `pass`. */
  function ExecStmt(s: Stmt, env: Env): Option<Env>
    decreases StmtSize(s), 0
  {
    match s
    case Assign(ts, v) => if BoolEval(v, env).Some? then AssignAll(ts, BoolEval(v, env).value, env) else None
    case If(t, b, o) =>
      if BoolEval(t, env).None? then None
      else if BoolEval(t, env).value then Exec(b, env)
      else Exec(o, env)
    case Pass => Some(env)
    case _ => None
  }

  /** Running a statement list from the first statement to the last. */
  function Exec(ss: seq<Stmt>, env: Env): Option<Env>
    decreases StmtsSize(ss), 1
  {
    if ss == [] then Some(env)
    else if ExecStmt(ss[0], env).None? then None
    else Exec(ss[1..], ExecStmt(ss[0], env).value)
  }

  lemma ExecOne(s: Stmt, env: Env)
    ensures Exec([s], env) == ExecStmt(s, env)
  {
    assert [s][1..] == [];
  }

  /** Running `a + b` is running `a` and then `b`. */
  lemma {:induction false} ExecConcat(a: seq<Stmt>, b: seq<Stmt>, env: Env)
    ensures Exec(a + b, env) == if Exec(a, env).Some? then Exec(b, Exec(a, env).value) else None
    decreases |a|
  {
    if a == [] {
      assert a + b == b;
    } else {
      assert (a + b)[0] == a[0] && (a + b)[1..] == a[1..] + b;
      if ExecStmt(a[0], env).Some? {
        ExecConcat(a[1..], b, ExecStmt(a[0], env).value);
      }
    }
  }

  predicate AllNames(ts: seq<Expr>) {
    forall t :: t in ts ==> t.Name?
  }

  lemma {:induction false} AssignAllNames(ts: seq<Expr>, v: bool, env: Env)
    requires AssignAll(ts, v, env).Some?
    ensures AllNames(ts)
    decreases |ts|
  {
    if ts != [] {
      AssignAllNames(ts[1..], v, env[ts[0].id := v]);
      assert ts == [ts[0]] + ts[1..];
    }
  }

  lemma {:induction false} NamesUnchanged(ts: seq<Expr>, eval: Evaluator, rules: RuleSet)
    requires AllNames(ts)
    ensures OptExprs(ts, eval, rules) == ts
    decreases |ts|
  {
    if ts != [] {
      assert ts[0] in ts;
      assert ts == [ts[0]] + ts[1..];
      NamesUnchanged(ts[1..], eval, rules);
    }
  }

  /** Assigning a variable its own value to any number of targets that all name it changes nothing. */
  lemma {:induction false} AssignSelf(ts: seq<Expr>, x: string, env: Env)
    requires x in env && forall t :: t in ts ==> t.Name? && t.id == x
    ensures AssignAll(ts, env[x], env) == Some(env)
    decreases |ts|
  {
    if ts != [] {
      assert ts[0] in ts;
      assert env[x := env[x]] == env;
      assert forall t :: t in ts[1..] ==> t in ts;
      AssignSelf(ts[1..], x, env);
    }
  }

  /** The corrected rewrite of one statement keeps what it does. */
  lemma {:induction false} ExecStmtPreserved(s: Stmt, env: Env, eval: Evaluator)
    requires ExecStmt(s, env).Some?
    ensures Exec(OptStmt(s, eval, Corrected), env) == ExecStmt(s, env)
    decreases StmtSize(s), 0
  {
    match s
    case Assign(ts, v) =>
      BoolPreserved(v, env, eval);
      AssignAllNames(ts, BoolEval(v, env).value, env);
      NamesUnchanged(ts, eval, Corrected);
      var v' := OptExpr(v, eval, Corrected);
      if IsSelfAssign(ts, v') {
        AssignSelf(ts, v'.id, env);
      } else {
        ExecOne(Assign(ts, v'), env);
      }
    case If(t, b, o) =>
      BoolPreserved(t, env, eval);
      if BoolEval(t, env).value {
        ExecPreserved(b, env, eval);
      } else {
        ExecPreserved(o, env, eval);
      }
      var t', b', o' := OptExpr(t, eval, Corrected), OptStmts(b, eval, Corrected), OptStmts(o, eval, Corrected);
      if IsBoolTest(t', true) || IsBoolTest(t', false) {
      } else if IsBoolAssignIf(b', o') && b'[0].targets == o'[0].targets {
        ExecOne(Assign(b'[0].targets, t'), env);
        ExecOne(b'[0], env);
        ExecOne(o'[0], env);
      } else {
        ExecOne(If(t', b', o'), env);
      }
    case Pass =>
      ExecOne(Pass, env);
  }

  /**
   * The corrected rewrite keeps what every program of boolean assignments,
   * `if` and `pass` does, for every starting environment in which it runs.
   */
  lemma {:induction false} ExecPreserved(ss: seq<Stmt>, env: Env, eval: Evaluator)
    requires Exec(ss, env).Some?
    ensures Exec(OptStmts(ss, eval, Corrected), env) == Exec(ss, env)
    decreases StmtsSize(ss), 1
  {
    if ss != [] {
      ExecStmtPreserved(ss[0], env, eval);
      ExecPreserved(ss[1..], ExecStmt(ss[0], env).value, eval);
      ExecConcat(OptStmt(ss[0], eval, Corrected), OptStmts(ss[1..], eval, Corrected), env);
    }
  }

  /**
   * `if c: a = True` / `else: b = False` as written becomes `a = c`: with
   * `c` false the original sets `b`, the rewrite sets `a`. The corrected
   * rule leaves this `if` alone.
   */
  lemma IfRuleAsWrittenLosesElseTarget()
    ensures var test := Name("c", Load);
      var body := [Assign([Name("a", Store)], Constant(BoolConst(true), true))];
      var orelse := [Assign([Name("b", Store)], Constant(BoolConst(false), true))];
      var env := map["c" := false];
      && Exec([If(test, body, orelse)], env) == Some(env["b" := false])
      && Exec(IfRuleAsWritten(test, body, orelse), env) == Some(env["a" := false])
      && env["b" := false] != env["a" := false]
      && IfRule(test, body, orelse) == [If(test, body, orelse)]
  {
    var test := Name("c", Load);
    var body := [Assign([Name("a", Store)], Constant(BoolConst(true), true))];
    var orelse := [Assign([Name("b", Store)], Constant(BoolConst(false), true))];
    var env := map["c" := false];
    ExecOne(If(test, body, orelse), env);
    ExecOne(orelse[0], env);
    ExecOne(Assign([Name("a", Store)], test), env);
    assert "b" in env["b" := false] && "b" !in env["a" := false];
  }

  /**
   * `x = y = x` as written is deleted, although it sets `y`; the corrected
   * rule keeps it.
   */
  lemma AssignRuleAsWrittenLosesTarget()
    ensures var ts := [Name("x", Store), Name("y", Store)];
      var v := Name("x", Load);
      var env := map["x" := true, "y" := false];
      && AssignRuleAsWritten(ts, v) == []
      && Exec([Assign(ts, v)], env) == Some(env["y" := true])
      && Exec(AssignRuleAsWritten(ts, v), env) == Some(env)
      && env["y" := true] != env
      && AssignRule(ts, v) == [Assign(ts, v)]
  {
    var ts := [Name("x", Store), Name("y", Store)];
    var v := Name("x", Load);
    var env := map["x" := true, "y" := false];
    ExecOne(Assign(ts, v), env);
    assert ts[1..][1..] == [];
    assert env["x" := true] == env;
    assert !IsSelfAssign(ts, v) by {
      assert ts[1] in ts;
    }
    assert env["y" := true]["y"] != env["y"];
  }

  // ---------------------------------------------------- `len(x) == 0` tests

  /** An integer constant, or `len(x)` of a name, whose length `lens` gives. */
  function IntTerm(e: Expr, lens: string -> nat): Option<int> {
    if e.Constant? then IntValue(e.value)
    else if IsLenCall(e) && |e.args| == 1 && e.args[0].Name? && e.keywords == [] then Some(lens(e.args[0].id))
    else None
  }

  /** One integer comparison. */
  function Compares(op: CmpOp, a: int, b: int): Option<bool> {
    match op
    case Eq => Some(a == b)
    case NotEq => Some(a != b)
    case Lt => Some(a < b)
    case LtE => Some(a <= b)
    case Gt => Some(a > b)
    case GtE => Some(a >= b)
    case _ => None
  }

  /** A comparison chain `a op0 c0 op1 c1 ...`: each link in turn, stopping at the first false one. */
  function Chain(a: int, ops: seq<CmpOp>, comparators: seq<Expr>, lens: string -> nat): Option<bool>
    requires |ops| == |comparators|
    decreases |ops|
  {
    if ops == [] then Some(true)
    else match IntTerm(comparators[0], lens)
      case None => None
      case Some(b) =>
        match Compares(ops[0], a, b)
        case None => None
        case Some(holds) => if holds then Chain(b, ops[1..], comparators[1..], lens) else Some(false)
  }

  /** The truth of a test over the lengths of containers: a comparison chain, or `not x` (`x` is empty). */
  function TestEval(e: Expr, lens: string -> nat): Option<bool> {
    match e
    case Compare(l, ops, cs) =>
      if |ops| == |cs| && ops != [] && IntTerm(l, lens).Some? then Chain(IntTerm(l, lens).value, ops, cs, lens)
      else None
    case UnaryOp(u, x) => if u == Not && x.Name? then Some(lens(x.id) == 0) else None
    case _ => None
  }

  /** The corrected `len` rule keeps the truth of every test that has one. */
  lemma CompareRulePreserved(left: Expr, ops: seq<CmpOp>, comparators: seq<Expr>, lens: string -> nat)
    requires TestEval(Compare(left, ops, comparators), lens).Some?
    ensures TestEval(CompareRule(left, ops, comparators), lens) == TestEval(Compare(left, ops, comparators), lens)
  {
    if IsLenEqualsZero(left, ops, comparators) && |left.args| > 0 && |ops| == 1 {
      var n := lens(left.args[0].id);
      assert IntTerm(left, lens) == Some(n);
      assert IntTerm(comparators[0], lens) == Some(0);
      assert ops[1..] == [] && comparators[1..] == [];
      assert Chain(n, ops, comparators, lens) == Some(n == 0);
    }
  }

  /**
   * As written, `len(x) == 0 < 0` becomes `not x`: for an empty `x` the
   * chain is false and `not x` is true. The corrected rule keeps the chain.
   */
  lemma CompareRuleAsWrittenDropsChain(lens: string -> nat)
    requires lens("x") == 0
    ensures var left := Call(Name("len", Load), [Name("x", Load)], []);
      var ops := [Eq, Lt];
      var cs := [Constant(IntConst(0), true), Constant(IntConst(0), true)];
      && TestEval(Compare(left, ops, cs), lens) == Some(false)
      && TestEval(CompareRuleAsWritten(left, ops, cs), lens) == Some(true)
      && CompareRule(left, ops, cs) == Compare(left, ops, cs)
  {
    var cs := [Constant(IntConst(0), true), Constant(IntConst(0), true)];
    var ops := [Eq, Lt];
    assert ops[1..] == [Lt] && cs[1..] == [Constant(IntConst(0), true)];
  }

  // ------------------------------------------------- unused assignments

  /** `e` reads only the names in `used` and lies inside the boolean fragment. */
  predicate ReadsWithin(e: Expr, used: set<string>)
    decreases ExprSize(e), 0
  {
    match e
    case Name(id, _) => id in used
    case Constant(_, _) => true
    case UnaryOp(_, x) => ReadsWithin(x, used)
    case BoolOp(_, vs) => AllReadWithin(vs, used)
    case _ => false
  }

  predicate AllReadWithin(vs: seq<Expr>, used: set<string>)
    decreases ExprsSize(vs), 1
  {
    vs == [] || (ReadsWithin(vs[0], used) && AllReadWithin(vs[1..], used))
  }

  /** Every expression a statement evaluates reads only the names in `used`. */
  predicate StmtReadsWithin(s: Stmt, used: set<string>)
    decreases StmtSize(s), 0
  {
    match s
    case Assign(_, v) => ReadsWithin(v, used)
    case If(t, b, o) => ReadsWithin(t, used) && StmtsReadWithin(b, used) && StmtsReadWithin(o, used)
    case Pass => true
    case _ => false
  }

  predicate StmtsReadWithin(ss: seq<Stmt>, used: set<string>)
    decreases StmtsSize(ss), 1
  {
    ss == [] || (StmtReadsWithin(ss[0], used) && StmtsReadWithin(ss[1..], used))
  }

  /** Two environments that agree on the names in `used`. */
  predicate Agree(env1: Env, env2: Env, used: set<string>) {
    forall x :: x in used ==> (x in env1 <==> x in env2) && (x in env1 ==> env1[x] == env2[x])
  }

  lemma {:induction false} EvalAgree(e: Expr, env1: Env, env2: Env, used: set<string>)
    requires ReadsWithin(e, used) && Agree(env1, env2, used)
    ensures BoolEval(e, env1) == BoolEval(e, env2)
    decreases ExprSize(e), 0
  {
    match e
    case Name(_, _) =>
    case Constant(_, _) =>
    case UnaryOp(_, x) => EvalAgree(x, env1, env2, used);
    case BoolOp(_, vs) => EvalAllAgree(vs, env1, env2, used);
  }

  lemma {:induction false} EvalAllAgree(vs: seq<Expr>, env1: Env, env2: Env, used: set<string>)
    requires AllReadWithin(vs, used) && Agree(env1, env2, used)
    ensures AllOf(vs, env1) == AllOf(vs, env2) && AnyOf(vs, env1) == AnyOf(vs, env2)
    decreases ExprsSize(vs), 1
  {
    if vs != [] {
      EvalAgree(vs[0], env1, env2, used);
      EvalAllAgree(vs[1..], env1, env2, used);
    }
  }

  /** Assigning to the kept targets only keeps the environments in agreement on `used`. */
  lemma {:induction false} AssignPruned(ts: seq<Expr>, v: bool, env1: Env, env2: Env, used: set<string>)
    requires AssignAll(ts, v, env1).Some? && Agree(env1, env2, used)
    ensures AssignAll(PruneTargets(ts, used), v, env2).Some?
    ensures Agree(AssignAll(ts, v, env1).value, AssignAll(PruneTargets(ts, used), v, env2).value, used)
    decreases |ts|
  {
    if ts != [] {
      var x := ts[0].id;
      if x in used {
        assert PruneTargets(ts, used) == [ts[0]] + PruneTargets(ts[1..], used);
        assert Agree(env1[x := v], env2[x := v], used);
        AssignPruned(ts[1..], v, env1[x := v], env2[x := v], used);
        assert PruneTargets(ts, used)[1..] == PruneTargets(ts[1..], used);
      } else {
        assert PruneTargets(ts, used) == PruneTargets(ts[1..], used);
        assert Agree(env1[x := v], env2, used);
        AssignPruned(ts[1..], v, env1[x := v], env2, used);
      }
    }
  }

  /** When every target is a name, both rule sets keep the same targets. */
  lemma {:induction false} KeptTargetsOnNames(ts: seq<Expr>, used: set<string>, rules: RuleSet)
    requires AllNames(ts)
    ensures KeptTargets(ts, used, rules) == PruneTargets(ts, used)
    decreases |ts|
  {
    if ts != [] {
      assert ts[0] in ts;
      assert forall t :: t in ts[1..] ==> t in ts;
      KeptTargetsOnNames(ts[1..], used, rules);
    }
  }

  /**
   * Removing assignments to names that are never read keeps the value of
   * every name that is read, under either rule set: when every expression
   * of the program reads only names in `used`, the pruned program runs from
   * any environment that agrees on `used`, and ends agreeing on `used`.
   */
  lemma {:induction false} RemoveUnusedPreserved(ss: seq<Stmt>, used: set<string>, rules: RuleSet, env1: Env, env2: Env)
    requires StmtsReadWithin(ss, used) && Agree(env1, env2, used) && Exec(ss, env1).Some?
    ensures Exec(RemoveUnusedStmts(ss, used, rules), env2).Some?
    ensures Agree(Exec(ss, env1).value, Exec(RemoveUnusedStmts(ss, used, rules), env2).value, used)
    decreases StmtsSize(ss), 1
  {
    if ss != [] {
      var s := ss[0];
      RemoveUnusedStmtPreserved(s, used, rules, env1, env2);
      var e1 := ExecStmt(s, env1).value;
      var e2 := Exec(RemoveUnusedStmt(s, used, rules), env2).value;
      RemoveUnusedPreserved(ss[1..], used, rules, e1, e2);
      ExecConcat(RemoveUnusedStmt(s, used, rules), RemoveUnusedStmts(ss[1..], used, rules), env2);
    }
  }

  lemma {:induction false} RemoveUnusedStmtPreserved(s: Stmt, used: set<string>, rules: RuleSet, env1: Env, env2: Env)
    requires StmtReadsWithin(s, used) && Agree(env1, env2, used) && ExecStmt(s, env1).Some?
    ensures Exec(RemoveUnusedStmt(s, used, rules), env2).Some?
    ensures Agree(ExecStmt(s, env1).value, Exec(RemoveUnusedStmt(s, used, rules), env2).value, used)
    decreases StmtSize(s), 0
  {
    match s
    case Assign(ts, v) =>
      EvalAgree(v, env1, env2, used);
      AssignPruned(ts, BoolEval(v, env1).value, env1, env2, used);
      AssignAllNames(ts, BoolEval(v, env1).value, env1);
      KeptTargetsOnNames(ts, used, rules);
      var kept := PruneTargets(ts, used);
      if kept != [] {
        ExecOne(Assign(kept, v), env2);
      }
    case If(t, b, o) =>
      EvalAgree(t, env1, env2, used);
      ExecOne(If(t, RemoveUnusedStmts(b, used, rules), RemoveUnusedStmts(o, used, rules)), env2);
      if BoolEval(t, env1).value {
        RemoveUnusedPreserved(b, used, rules, env1, env2);
      } else {
        RemoveUnusedPreserved(o, used, rules, env1, env2);
      }
    case Pass =>
      ExecOne(Pass, env2);
  }

  /** Corrected, an assignment is removed exactly when every one of its targets is a name that is never read. */
  lemma AssignRemovedIff(ts: seq<Expr>, v: Expr, used: set<string>)
    ensures RemoveUnusedStmt(Assign(ts, v), used, Corrected) == [] <==> forall t :: t in ts ==> t.Name? && t.id !in used
    ensures RemoveUnusedStmt(Assign(ts, v), used, Corrected) != [] ==>
            RemoveUnusedStmt(Assign(ts, v), used, Corrected) == [Assign(PruneTargets(ts, used), v)]
  {
    var kept := PruneTargets(ts, used);
    if kept != [] {
      assert kept[0] in kept;
    }
  }

  /** As written, every target kept is a name that is read: attribute and subscript targets are always dropped. */
  lemma {:induction false} PruneTargetsAsWrittenOnlyNames(ts: seq<Expr>, used: set<string>)
    ensures forall t :: t in PruneTargetsAsWritten(ts, used) ==> t.Name? && t.id in used
    decreases |ts|
  {
    if ts != [] {
      PruneTargetsAsWrittenOnlyNames(ts[1..], used);
    }
  }

  /**
   * As written, `self.x = 1` loses its only target and is deleted, whatever
   * names are read; the corrected pass keeps it.
   */
  lemma PruneTargetsAsWrittenDropsAttribute(used: set<string>)
    ensures var t := Attribute(Name("self", Load), "x");
      && PruneTargetsAsWritten([t], used) == []
      && RemoveUnusedStmt(Assign([t], Constant(IntConst(1), true)), used, AsWritten) == []
      && PruneTargets([t], used) == [t]
      && RemoveUnusedStmt(Assign([t], Constant(IntConst(1), true)), used, Corrected) ==
         [Assign([t], Constant(IntConst(1), true))]
  {
    var t := Attribute(Name("self", Load), "x");
    PruneTargetsAsWrittenOnlyNames([t], used);
    assert [t][1..] == [];
  }

  lemma {:induction false} PruneTargetsIdempotent(ts: seq<Expr>, used: set<string>)
    ensures PruneTargets(PruneTargets(ts, used), used) == PruneTargets(ts, used)
    decreases |ts|
  {
    if ts != [] {
      PruneTargetsIdempotent(ts[1..], used);
      var kept := PruneTargets(ts, used);
      if !ts[0].Name? || ts[0].id in used {
        assert kept == [ts[0]] + PruneTargets(ts[1..], used);
        assert kept[0] == ts[0] && kept[1..] == PruneTargets(ts[1..], used);
      } else {
        assert kept == PruneTargets(ts[1..], used);
      }
    }
  }

  lemma {:induction false} PruneTargetsAsWrittenIdempotent(ts: seq<Expr>, used: set<string>)
    ensures PruneTargetsAsWritten(PruneTargetsAsWritten(ts, used), used) == PruneTargetsAsWritten(ts, used)
    decreases |ts|
  {
    if ts != [] {
      PruneTargetsAsWrittenIdempotent(ts[1..], used);
      var kept := PruneTargetsAsWritten(ts, used);
      if ts[0].Name? && ts[0].id in used {
        assert kept == [ts[0]] + PruneTargetsAsWritten(ts[1..], used);
        assert kept[0] == ts[0] && kept[1..] == PruneTargetsAsWritten(ts[1..], used);
      } else {
        assert kept == PruneTargetsAsWritten(ts[1..], used);
      }
    }
  }

  lemma KeptTargetsIdempotent(ts: seq<Expr>, used: set<string>, rules: RuleSet)
    ensures KeptTargets(KeptTargets(ts, used, rules), used, rules) == KeptTargets(ts, used, rules)
  {
    if rules.AsWritten? {
      PruneTargetsAsWrittenIdempotent(ts, used);
    } else {
      PruneTargetsIdempotent(ts, used);
    }
  }

  lemma {:induction false} RemoveUnusedConcat(a: seq<Stmt>, b: seq<Stmt>, used: set<string>, rules: RuleSet)
    ensures RemoveUnusedStmts(a + b, used, rules) == RemoveUnusedStmts(a, used, rules) + RemoveUnusedStmts(b, used, rules)
    decreases |a|
  {
    if a == [] {
      assert a + b == b;
    } else {
      assert (a + b)[0] == a[0] && (a + b)[1..] == a[1..] + b;
      RemoveUnusedConcat(a[1..], b, used, rules);
    }
  }

  lemma RemoveUnusedOne(s: Stmt, used: set<string>, rules: RuleSet)
    ensures RemoveUnusedStmts([s], used, rules) == RemoveUnusedStmt(s, used, rules)
  {
    assert [s][1..] == [];
  }

  /** With the same set of read names, a second removal pass changes nothing, under either rule set. */
  lemma {:induction false} RemoveUnusedIdempotent(ss: seq<Stmt>, used: set<string>, rules: RuleSet)
    ensures RemoveUnusedStmts(RemoveUnusedStmts(ss, used, rules), used, rules) == RemoveUnusedStmts(ss, used, rules)
    decreases StmtsSize(ss), 1
  {
    if ss != [] {
      RemoveUnusedStmtIdempotent(ss[0], used, rules);
      RemoveUnusedIdempotent(ss[1..], used, rules);
      RemoveUnusedConcat(RemoveUnusedStmt(ss[0], used, rules), RemoveUnusedStmts(ss[1..], used, rules), used, rules);
    }
  }

  lemma {:induction false} RemoveUnusedStmtIdempotent(s: Stmt, used: set<string>, rules: RuleSet)
    ensures RemoveUnusedStmts(RemoveUnusedStmt(s, used, rules), used, rules) == RemoveUnusedStmt(s, used, rules)
    decreases StmtSize(s), 0
  {
    match s
    case Assign(ts, v) =>
      var kept := KeptTargets(ts, used, rules);
      if kept != [] {
        KeptTargetsIdempotent(ts, used, rules);
        RemoveUnusedOne(Assign(kept, v), used, rules);
      }
    case FunctionDef(n, a, b, ds, r, line, y) =>
      RemoveUnusedIdempotent(b, used, rules);
      RemoveUnusedOne(FunctionDef(n, a, RemoveUnusedStmts(b, used, rules), ds, r, line, y), used, rules);
    case ClassDef(n, bs, kws, b, ds) =>
      RemoveUnusedIdempotent(b, used, rules);
      RemoveUnusedOne(ClassDef(n, bs, kws, RemoveUnusedStmts(b, used, rules), ds), used, rules);
    case For(t, i, b, o, line) =>
      RemoveUnusedIdempotent(b, used, rules);
      RemoveUnusedIdempotent(o, used, rules);
      RemoveUnusedOne(For(t, i, RemoveUnusedStmts(b, used, rules), RemoveUnusedStmts(o, used, rules), line), used, rules);
    case While(t, b, o, line) =>
      RemoveUnusedIdempotent(b, used, rules);
      RemoveUnusedIdempotent(o, used, rules);
      RemoveUnusedOne(While(t, RemoveUnusedStmts(b, used, rules), RemoveUnusedStmts(o, used, rules), line), used, rules);
    case If(t, b, o) =>
      RemoveUnusedIdempotent(b, used, rules);
      RemoveUnusedIdempotent(o, used, rules);
      RemoveUnusedOne(If(t, RemoveUnusedStmts(b, used, rules), RemoveUnusedStmts(o, used, rules)), used, rules);
    case With(items, b) =>
      RemoveUnusedIdempotent(b, used, rules);
      RemoveUnusedOne(With(items, RemoveUnusedStmts(b, used, rules)), used, rules);
    case Try(b, hs, o, f) =>
      RemoveUnusedIdempotent(b, used, rules);
      RemoveUnusedHandlersIdempotent(hs, used, rules);
      RemoveUnusedIdempotent(o, used, rules);
      RemoveUnusedIdempotent(f, used, rules);
      RemoveUnusedOne(Try(RemoveUnusedStmts(b, used, rules), RemoveUnusedHandlers(hs, used, rules),
                          RemoveUnusedStmts(o, used, rules), RemoveUnusedStmts(f, used, rules)), used, rules);
    case OtherStmt(k, es, b) =>
      RemoveUnusedIdempotent(b, used, rules);
      RemoveUnusedOne(OtherStmt(k, es, RemoveUnusedStmts(b, used, rules)), used, rules);
    case _ =>
      RemoveUnusedOne(s, used, rules);
  }

  lemma {:induction false} RemoveUnusedHandlersIdempotent(hs: seq<Handler>, used: set<string>, rules: RuleSet)
    ensures RemoveUnusedHandlers(RemoveUnusedHandlers(hs, used, rules), used, rules) == RemoveUnusedHandlers(hs, used, rules)
    decreases HandlersSize(hs), 1
  {
    if hs != [] {
      RemoveUnusedHandlerIdempotent(hs[0], used, rules);
      RemoveUnusedHandlersIdempotent(hs[1..], used, rules);
      var r := RemoveUnusedHandlers(hs, used, rules);
      assert r[0] == RemoveUnusedHandler(hs[0], used, rules) && r[1..] == RemoveUnusedHandlers(hs[1..], used, rules);
    }
  }

  lemma {:induction false} RemoveUnusedHandlerIdempotent(h: Handler, used: set<string>, rules: RuleSet)
    ensures RemoveUnusedHandler(RemoveUnusedHandler(h, used, rules), used, rules) == RemoveUnusedHandler(h, used, rules)
    decreases HandlerSize(h), 0
  {
    RemoveUnusedIdempotent(h.body, used, rules);
  }
}
