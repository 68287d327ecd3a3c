/**
 * The static complexity analysis of `checks/complexity_checker.py`: the
 * `ComplexityAnalyzer` visitor and its signals, the time and space
 * estimators, McCabe's cyclomatic complexity, the line counter and the
 * per-function aggregation of `analyze_source`.
 */
module ComplexityChecker {
  import opened Wrappers
  import opened Text
  import opened PyAst

  // ------------------------------------------------ folds over the tree

  /** The sum of `w` over `n` and all its descendants. */
  function Count(n: Node, w: Node -> nat): nat
    decreases NodeSize(n), 1
  {
    w(n) + CountChildren(n, w, |Children(n)|)
  }

  /** The sum of `Count` over the first `k` children of `n`. */
  function CountChildren(n: Node, w: Node -> nat, k: nat): nat
    requires k <= |Children(n)|
    decreases NodeSize(n), 0, k
  {
    if k == 0 then 0
    else
      ChildSmaller(n, k - 1);
      CountChildren(n, w, k - 1) + Count(Children(n)[k - 1], w)
  }

  /** The largest number of `level` nodes on one path down from `n` (`n` included). */
  function Nesting(n: Node, level: Node -> bool): nat
    decreases NodeSize(n), 1
  {
    (if level(n) then 1 else 0) + NestingChildren(n, level, |Children(n)|)
  }

  /** The largest `Nesting` among the first `k` children of `n`, or 0. */
  function NestingChildren(n: Node, level: Node -> bool, k: nat): nat
    requires k <= |Children(n)|
    decreases NodeSize(n), 0, k
  {
    if k == 0 then 0
    else
      ChildSmaller(n, k - 1);
      Max(NestingChildren(n, level, k - 1), Nesting(Children(n)[k - 1], level))
  }

  function Max(a: int, b: int): int {
    if a >= b then a else b
  }

  // ------------------------------------------------------ node classes

  /** The comprehensions that `visit_ListComp`/`visit_DictComp` count (not set comprehensions or generators). */
  predicate IsCountedComp(n: Node) {
    n.ExprNode? && (n.e.ListComp? || n.e.DictComp?)
  }

  /** The allocations of `visit_List`, `visit_Dict`, `visit_ListComp` and `visit_DictComp`. */
  function AllocWeight(n: Node): nat {
    if n.ExprNode? && (n.e.List? || n.e.Dict? || n.e.ListComp? || n.e.DictComp?) then 1 else 0
  }

  /** A subscript whose index is a slice (`a[i:j]`). */
  function SliceWeight(n: Node): nat {
    if n.ExprNode? && n.e.Subscript? && n.e.slice.Slice? then 1 else 0
  }

  /** An assignment whose value is `_ // c` or `_ / c` with a constant `c == 2`: `2` or `2.0`. */
  predicate IsHalvingValue(v: Expr) {
    v.BinOp? && (v.op == FloorDiv || v.op == Div) && v.right.Constant? && EqualsInt(v.right.value, 2)
  }

  function HalvingWeight(n: Node): nat {
    if n.StmtNode? && n.s.Assign? && IsHalvingValue(n.s.value) then 1 else 0
  }

  /** The enclosing function name in force for the children of `n`. */
  function Scope(n: Node, fname: Option<string>): Option<string> {
    if IsFunctionDef(n) then Some(n.s.name) else fname
  }

  /** A call `f(...)` where `f` is a plain name equal to the enclosing function's name. */
  predicate IsSelfCall(n: Node, fname: Option<string>) {
    n.ExprNode? && n.e.Call? && n.e.func.Name? && fname == Some(n.e.func.id)
  }

  /** The number of self-calls in `n`, each judged against the function that encloses it. */
  function SelfCalls(n: Node, fname: Option<string>): nat
    decreases NodeSize(n), 1
  {
    (if IsSelfCall(n, fname) then 1 else 0) + SelfCallsChildren(n, Scope(n, fname), |Children(n)|)
  }

  function SelfCallsChildren(n: Node, fname: Option<string>, k: nat): nat
    requires k <= |Children(n)|
    decreases NodeSize(n), 0, k
  {
    if k == 0 then 0
    else
      ChildSmaller(n, k - 1);
      SelfCallsChildren(n, fname, k - 1) + SelfCalls(Children(n)[k - 1], fname)
  }

  /** The signals dictionary `_analyze_function_node` returns. */
  datatype Signals = Signals(
    maxLoopDepth: nat,
    maxCompDepth: nat,
    recursion: bool,
    recursiveCalls: nat,
    allocations: nat,
    slicing: bool,
    hasBranchingRecursion: bool,
    hasDivideConquer: bool,
    possibleLogLoop: bool)

  /** What a fresh analyzer has gathered after visiting `n`. */
  function SignalsOf(n: Node): Signals {
    var calls := SelfCalls(n, None);
    Signals(
      maxLoopDepth := Nesting(n, IsLoop),
      maxCompDepth := Nesting(n, IsCountedComp),
      recursion := calls > 0,
      recursiveCalls := calls,
      allocations := Count(n, AllocWeight),
      slicing := Count(n, SliceWeight) > 0,
      hasBranchingRecursion := calls > 1,
      hasDivideConquer := false,
      possibleLogLoop := Count(n, HalvingWeight) > 0)
  }

  // ------------------------------------------------ the analyzer's state

  /** The twelve fields of a `ComplexityAnalyzer`, as one value. */
  datatype State = State(
    loopDepth: nat,
    maxLoopDepth: nat,
    recursion: bool,
    recursiveCalls: nat,
    allocations: nat,
    slicing: bool,
    functionName: Option<string>,
    hasBranchingRecursion: bool,
    hasDivideConquer: bool,
    comprehensionDepth: nat,
    maxCompDepth: nat,
    possibleLogLoop: bool)
  {
    /** The depths never exceed their recorded maxima. */
    predicate Valid() {
      loopDepth <= maxLoopDepth && comprehensionDepth <= maxCompDepth
    }
  }

  /**
   * The state after visiting a part of the tree that holds `loops` nested
   * loop levels, `comps` nested comprehension levels, `allocs` allocations,
   * `slices` slices, `halvings` halving assignments and `calls` recursive
   * calls: the depths and the function name are as before.
   */
  function Grow(st: State, loops: nat, comps: nat, allocs: nat, slices: nat, halvings: nat, calls: nat): State {
    st.(maxLoopDepth := Max(st.maxLoopDepth, st.loopDepth + loops),
        maxCompDepth := Max(st.maxCompDepth, st.comprehensionDepth + comps),
        allocations := st.allocations + allocs,
        slicing := st.slicing || slices > 0,
        possibleLogLoop := st.possibleLogLoop || halvings > 0,
        recursiveCalls := st.recursiveCalls + calls,
        recursion := st.recursion || calls > 0,
        hasBranchingRecursion := st.hasBranchingRecursion || (calls > 0 && st.recursiveCalls + calls > 1))
  }

  /** The state after visiting the subtree `n`. */
  function AfterNode(st: State, n: Node): State {
    Grow(st, Nesting(n, IsLoop), Nesting(n, IsCountedComp), Count(n, AllocWeight),
         Count(n, SliceWeight), Count(n, HalvingWeight), SelfCalls(n, st.functionName))
  }

  /** The state after visiting the first `k` children of `n`. */
  function AfterChildren(st: State, n: Node, k: nat): State
    requires k <= |Children(n)|
  {
    Grow(st, NestingChildren(n, IsLoop, k), NestingChildren(n, IsCountedComp, k), CountChildren(n, AllocWeight, k),
         CountChildren(n, SliceWeight, k), CountChildren(n, HalvingWeight, k), SelfCallsChildren(n, st.functionName, k))
  }

  /** Growing twice is growing once by the combined amounts. */
  lemma GrowTwice(st: State, l1: nat, c1: nat, a1: nat, s1: nat, h1: nat, r1: nat,
                  l2: nat, c2: nat, a2: nat, s2: nat, h2: nat, r2: nat)
    ensures Grow(Grow(st, l1, c1, a1, s1, h1, r1), l2, c2, a2, s2, h2, r2)
         == Grow(st, Max(l1, l2), Max(c1, c2), a1 + a2, s1 + s2, h1 + h2, r1 + r2)
  {
  }

  /** Visiting no children changes nothing. */
  lemma AfterNoChildren(st: State, n: Node)
    requires st.Valid()
    ensures AfterChildren(st, n, 0) == st
  {
  }

  /** Visiting one more child is visiting that child's subtree. */
  lemma AfterOneMoreChild(st: State, n: Node, i: nat)
    requires i < |Children(n)|
    ensures AfterChildren(st, n, i + 1) == AfterNode(AfterChildren(st, n, i), Children(n)[i])
  {
    var mid := AfterChildren(st, n, i);
    var c := Children(n)[i];
    assert mid.functionName == st.functionName;
    GrowTwice(st, NestingChildren(n, IsLoop, i), NestingChildren(n, IsCountedComp, i), CountChildren(n, AllocWeight, i),
              CountChildren(n, SliceWeight, i), CountChildren(n, HalvingWeight, i), SelfCallsChildren(n, st.functionName, i),
              Nesting(c, IsLoop), Nesting(c, IsCountedComp), Count(c, AllocWeight),
              Count(c, SliceWeight), Count(c, HalvingWeight), SelfCalls(c, st.functionName));
  }

  // ---------------------------------------------------------- the visitor

  /** `ComplexityAnalyzer`: a node visitor that accumulates complexity signals in its fields. */
  class ComplexityAnalyzer {
    var loopDepth: nat
    var maxLoopDepth: nat
    var recursion: bool
    var recursiveCalls: nat
    var allocations: nat
    var slicing: bool
    var functionName: Option<string>
    var hasBranchingRecursion: bool
    var hasDivideConquer: bool
    var comprehensionDepth: nat
    var maxCompDepth: nat
    var possibleLogLoop: bool

    constructor()
      ensures Fields() == State(0, 0, false, 0, 0, false, None, false, false, 0, 0, false)
    {
      loopDepth := 0;
      maxLoopDepth := 0;
      recursion := false;
      recursiveCalls := 0;
      allocations := 0;
      slicing := false;
      functionName := None;
      hasBranchingRecursion := false;
      hasDivideConquer := false;
      comprehensionDepth := 0;
      maxCompDepth := 0;
      possibleLogLoop := false;
    }

    function Fields(): State
      reads this
    {
      State(loopDepth, maxLoopDepth, recursion, recursiveCalls, allocations, slicing, functionName,
            hasBranchingRecursion, hasDivideConquer, comprehensionDepth, maxCompDepth, possibleLogLoop)
    }

    /** `visit(n)`: dispatches on the class of `n`, as `ast.NodeVisitor.visit` does. */
    method Visit(n: Node)
      requires Fields().Valid()
      modifies this
      decreases NodeSize(n), 2
      ensures Fields() == AfterNode(old(Fields()), n) && Fields().Valid()
    {
      if IsFunctionDef(n) {
        VisitFunctionDef(n);
      } else if IsLoop(n) {
        VisitLoop(n);
      } else if n.ExprNode? && n.e.Call? {
        VisitCall(n);
      } else if n.ExprNode? && (n.e.List? || n.e.Dict?) {
        VisitCollection(n);
      } else if IsCountedComp(n) {
        VisitComprehension(n);
      } else if n.ExprNode? && n.e.Subscript? {
        VisitSubscript(n);
      } else if n.StmtNode? && n.s.Assign? {
        VisitAssign(n);
      } else {
        GenericVisit(n);
      }
    }

    /** `visit_FunctionDef`: the children are visited with `n`'s name as the function name, which is then restored. */
    method VisitFunctionDef(n: Node)
      requires IsFunctionDef(n) && Fields().Valid()
      modifies this
      decreases NodeSize(n), 1
      ensures Fields() == AfterNode(old(Fields()), n) && Fields().Valid()
    {
      var oldFunction := functionName;
      functionName := Some(n.s.name);
      GenericVisit(n);
      functionName := oldFunction;
    }

    /** `visit_For` and `visit_While`: one loop level deeper for the children, restored afterwards. */
    method VisitLoop(n: Node)
      requires IsLoop(n) && Fields().Valid()
      modifies this
      decreases NodeSize(n), 1
      ensures Fields() == AfterNode(old(Fields()), n) && Fields().Valid()
    {
      loopDepth := loopDepth + 1;
      maxLoopDepth := Max(maxLoopDepth, loopDepth);
      GenericVisit(n);
      loopDepth := loopDepth - 1;
    }

    /** `visit_Call`: a call of the enclosing function's own name is a recursive call. */
    method VisitCall(n: Node)
      requires n.ExprNode? && n.e.Call? && Fields().Valid()
      modifies this
      decreases NodeSize(n), 1
      ensures Fields() == AfterNode(old(Fields()), n) && Fields().Valid()
    {
      if n.e.func.Name? && functionName == Some(n.e.func.id) {
        recursion := true;
        recursiveCalls := recursiveCalls + 1;
        if recursiveCalls > 1 {
          hasBranchingRecursion := true;
        }
      }
      GenericVisit(n);
    }

    /** `visit_List` and `visit_Dict`: one allocation. */
    method VisitCollection(n: Node)
      requires n.ExprNode? && (n.e.List? || n.e.Dict?) && Fields().Valid()
      modifies this
      decreases NodeSize(n), 1
      ensures Fields() == AfterNode(old(Fields()), n) && Fields().Valid()
    {
      allocations := allocations + 1;
      GenericVisit(n);
    }

    /** `visit_ListComp` and `visit_DictComp`: one allocation, one comprehension level deeper. */
    method VisitComprehension(n: Node)
      requires IsCountedComp(n) && Fields().Valid()
      modifies this
      decreases NodeSize(n), 1
      ensures Fields() == AfterNode(old(Fields()), n) && Fields().Valid()
    {
      allocations := allocations + 1;
      comprehensionDepth := comprehensionDepth + 1;
      maxCompDepth := Max(maxCompDepth, comprehensionDepth);
      GenericVisit(n);
      comprehensionDepth := comprehensionDepth - 1;
    }

    /** `visit_Subscript`: a slice index sets the slicing flag. */
    method VisitSubscript(n: Node)
      requires n.ExprNode? && n.e.Subscript? && Fields().Valid()
      modifies this
      decreases NodeSize(n), 1
      ensures Fields() == AfterNode(old(Fields()), n) && Fields().Valid()
    {
      if n.e.slice.Slice? {
        slicing := true;
      }
      GenericVisit(n);
    }

    /** `visit_Assign`: a halving assignment sets the log-loop flag. */
    method VisitAssign(n: Node)
      requires n.StmtNode? && n.s.Assign? && Fields().Valid()
      modifies this
      decreases NodeSize(n), 1
      ensures Fields() == AfterNode(old(Fields()), n) && Fields().Valid()
    {
      if IsHalvingValue(n.s.value) {
        possibleLogLoop := true;
      }
      GenericVisit(n);
    }

    /** `generic_visit(n)`: visits the children of `n` in field order. */
    method GenericVisit(n: Node)
      requires Fields().Valid()
      modifies this
      decreases NodeSize(n), 0
      ensures Fields() == AfterChildren(old(Fields()), n, |Children(n)|) && Fields().Valid()
    {
      var children := Children(n);
      var i := 0;
      AfterNoChildren(Fields(), n);
      while i < |children|
        invariant 0 <= i <= |children|
        invariant Fields() == AfterChildren(old(Fields()), n, i) && Fields().Valid()
      {
        ChildSmaller(n, i);
        Visit(children[i]);
        AfterOneMoreChild(old(Fields()), n, i);
        i := i + 1;
      }
    }
  }

  /** `_analyze_function_node`: the signals of a fresh analyzer run over one function. */
  method AnalyzeFunctionNode(f: Node) returns (signals: Signals)
    ensures signals == SignalsOf(f)
  {
    var analyzer := new ComplexityAnalyzer();
    analyzer.Visit(f);
    signals := Signals(
      analyzer.maxLoopDepth, analyzer.maxCompDepth, analyzer.recursion,
      analyzer.recursiveCalls, analyzer.allocations, analyzer.slicing,
      analyzer.hasBranchingRecursion, analyzer.hasDivideConquer, analyzer.possibleLogLoop);
  }

  // --------------------------------------------------------- estimators

  /** `"O(1)"`, `"O(n)"`, then `"O(n^d)"`: the name the estimators give a nesting depth `d`. */
  function DepthName(d: nat): string {
    if d == 0 then "O(1)" else if d == 1 then "O(n)" else "O(n^" + NatToString(d) + ")"
  }

  /** Different depths have different names. */
  lemma DepthNameInjective(d: nat, e: nat)
    requires DepthName(d) == DepthName(e)
    ensures d == e
  {
    if d >= 2 && e >= 2 {
      var x, y := NatToString(d), NatToString(e);
      assert x == DepthName(d)[4..|DepthName(d)| - 1];
      assert y == DepthName(e)[4..|DepthName(e)| - 1];
      NatToStringInjective(d, e);
    }
  }

  /** A depth name is never one of the recursion or log-loop labels. */
  lemma DepthNameNotOther(d: nat)
    ensures DepthName(d) != "O(n log n)" && DepthName(d) != "O(2^n)" && DepthName(d) != "O(log n)"
  {
    if d >= 2 {
      var r := DepthName(d);
      assert r[2] == 'n' && r[3] == '^';
      assert "O(n log n)"[3] == ' ' && "O(2^n)"[2] == '2' && "O(log n)"[2] == 'l';
    }
  }

  /**
   * `estimate_time_complexity`: recursion decides first (branching with
   * slicing, branching, slicing, plain); then a halving loop at loop depth
   * one; then the deeper of the loop and comprehension nestings.
   */
  function EstimateTime(s: Signals): (r: string)
    ensures r == "O(n log n)" <==> s.recursion && s.hasBranchingRecursion && s.slicing
    ensures r == "O(2^n)" <==> s.recursion && s.hasBranchingRecursion && !s.slicing
    ensures s.recursion && !s.hasBranchingRecursion ==> r == DepthName(if s.slicing then 2 else 1)
    ensures r == "O(log n)" <==> !s.recursion && s.possibleLogLoop && s.maxLoopDepth == 1
    ensures !s.recursion && !(s.possibleLogLoop && s.maxLoopDepth == 1) ==> r == DepthName(Max(s.maxLoopDepth, s.maxCompDepth))
  {
    var divide := s.recursion && s.slicing;
    if s.recursion then
      if s.hasBranchingRecursion then
        if divide then "O(n log n)" else "O(2^n)"
      else if s.slicing then "O(n^2)" else "O(n)"
    else if s.possibleLogLoop && s.maxLoopDepth == 1 then "O(log n)"
    else
      var effective := Max(s.maxLoopDepth, s.maxCompDepth);
      DepthNameNotOther(effective);
      if effective == 0 then "O(1)"
      else if effective == 1 then "O(n)"
      else if effective == 2 then "O(n^2)"
      else if effective == 3 then "O(n^3)"
      else "O(n^" + NatToString(effective) + ")"
  }

  /** A halving loop at loop depth one wins over any comprehension nesting. */
  lemma LogLoopOverridesComprehensions(s: Signals)
    requires !s.recursion && s.possibleLogLoop && s.maxLoopDepth == 1 && s.maxCompDepth >= 2
    ensures EstimateTime(s) == "O(log n)" && EstimateTime(s) != DepthName(Max(s.maxLoopDepth, s.maxCompDepth))
  {
    DepthNameNotOther(Max(s.maxLoopDepth, s.maxCompDepth));
  }

  /** `estimate_space_complexity`: recursion, then allocations (by comprehension nesting), else constant. */
  function EstimateSpace(s: Signals): (r: string)
    ensures s.recursion ==> r == "O(n)"
    ensures !s.recursion && s.allocations > 0 ==> r == DepthName(Max(s.maxCompDepth, 1))
    ensures r == "O(1)" <==> !s.recursion && s.allocations == 0
  {
    if s.recursion then "O(n)"
    else if s.allocations != 0 then
      if s.maxCompDepth >= 2 then "O(n^" + NatToString(s.maxCompDepth) + ")" else "O(n)"
    else "O(1)"
  }

  // -------------------------------------------------- cyclomatic complexity

  /** The members of `_BRANCH_TYPES`. */
  predicate IsBranch(n: Node) {
    || (n.StmtNode? && (n.s.If? || n.s.For? || n.s.While? || n.s.With? || n.s.Assert?))
    || n.HandlerNode?
    || n.CompNode?
  }

  /** What one walked node adds to the cyclomatic complexity. */
  function BranchWeight(n: Node): int {
    if IsBranch(n) then 1
    else if n.ExprNode? && n.e.BoolOp? then |n.e.values| - 1
    else 0
  }

  function SumWeights(ns: seq<Node>): int {
    if ns == [] then 0 else SumWeights(ns[..|ns| - 1]) + BranchWeight(ns[|ns| - 1])
  }

  /** The number of branch nodes in `ns`. */
  function Branches(ns: seq<Node>): nat {
    if ns == [] then 0 else Branches(ns[..|ns| - 1]) + (if IsBranch(ns[|ns| - 1]) then 1 else 0)
  }

  /** A boolean operation has at least two operands, as the parser builds it. */
  predicate BoolOpWellFormed(n: Node) {
    n.ExprNode? && n.e.BoolOp? ==> |n.e.values| >= 2
  }

  /** `cyclomatic_complexity`: one plus the weights of every node in the walk of `f`. */
  method CyclomaticComplexity(f: Node) returns (cc: int)
    ensures cc == 1 + SumWeights(Walk(f))
  {
    var walk := Walk(f);
    cc := 1;
    var i := 0;
    while i < |walk|
      invariant 0 <= i <= |walk|
      invariant cc == 1 + SumWeights(walk[..i])
    {
      assert walk[..i + 1][..i] == walk[..i];
      cc := cc + BranchWeight(walk[i]);
      i := i + 1;
    }
    assert walk[..|walk|] == walk;
  }

  /**
   * Over well-formed boolean operations, the weights are at least the
   * number of branches, so the complexity is at least one plus that number.
   */
  lemma {:induction false} WeightsAtLeastBranches(ns: seq<Node>)
    requires forall i :: 0 <= i < |ns| ==> BoolOpWellFormed(ns[i])
    ensures SumWeights(ns) >= Branches(ns)
  {
    if ns != [] {
      WeightsAtLeastBranches(ns[..|ns| - 1]);
    }
  }

  // ------------------------------------------------------ well-formedness

  /** Every boolean operation in the tree has at least two operands. */
  predicate WellFormed(n: Node) {
    forall m :: m in Walk(n) ==> BoolOpWellFormed(m)
  }

  /** Every node of the walk of a well-formed tree is well formed. */
  lemma WalkWellFormed(n: Node)
    requires WellFormed(n)
    ensures forall m :: m in Walk(n) ==> WellFormed(m) && BoolOpWellFormed(m)
  {
    forall m, i | WellFormed(m) && 0 <= i < |Children(m)|
      ensures WellFormed(Children(m)[i])
    {
      forall x | x in Walk(Children(m)[i]) ensures BoolOpWellFormed(x) {
        WalkNodes(m, x);
      }
    }
    BfsKeeps([n], WellFormed);
  }

  /** The cyclomatic complexity of a well-formed tree is at least one, and at least one more than its branches. */
  lemma CyclomaticAtLeastOne(f: Node)
    requires WellFormed(f)
    ensures 1 + SumWeights(Walk(f)) >= 1 + Branches(Walk(f)) >= 1
  {
    WalkWellFormed(f);
    WeightsAtLeastBranches(Walk(f));
  }

  // ------------------------------------------------------------ count_loc

  datatype Loc = Loc(total: nat, blank: nat, comment: nat, code: nat)

  predicate IsBlank(line: string) {
    Strip(line) == []
  }

  predicate IsComment(line: string) {
    "#" <= Strip(line)
  }

  function BlankLines(lines: seq<string>): nat {
    if lines == [] then 0 else (if IsBlank(lines[0]) then 1 else 0) + BlankLines(lines[1..])
  }

  function CommentLines(lines: seq<string>): nat {
    if lines == [] then 0 else (if IsComment(lines[0]) then 1 else 0) + CommentLines(lines[1..])
  }

  /** No line is both blank and a comment, so the two counts together never exceed the lines. */
  lemma {:induction false} BlankCommentDisjoint(lines: seq<string>)
    ensures BlankLines(lines) + CommentLines(lines) <= |lines|
  {
    if lines != [] {
      BlankCommentDisjoint(lines[1..]);
    }
  }

  /** `count_loc`: total, blank, comment and code line counts, with at least one code line. */
  function CountLoc(source: string): (r: Loc)
    ensures r.total == |SplitLines(source)|
    ensures r.blank + r.comment <= r.total
    ensures r.code >= 1 && (r.blank + r.comment < r.total ==> r.blank + r.comment + r.code == r.total)
    ensures r.blank + r.comment == r.total ==> r.code == 1
  {
    var lines := SplitLines(source);
    BlankCommentDisjoint(lines);
    var total := |lines|;
    var blank := BlankLines(lines);
    var comment := CommentLines(lines);
    Loc(total, blank, comment, Max(total - blank - comment, 1))
  }

  // -------------------------------------------------------- analyze_source

  /** One entry of the `functions` list (the floating-point metrics are not modelled). */
  datatype FunctionReport = FunctionReport(
    name: string,
    line: nat,
    timeComplexity: string,
    spaceComplexity: string,
    cyclomaticComplexity: int,
    signals: Signals,
    loc: Loc)

  datatype SourceAnalysis =
    | AnalysisError(error: string)
    | Analysis(loc: Loc, functions: seq<FunctionReport>, totalCyclomaticComplexity: int,
               bigODistribution: seq<(string, nat)>)

  /** The report of one function node; `segment` stands for `ast.get_source_segment`. */
  function ReportOf(n: Node, segment: Stmt -> Option<string>): FunctionReport
    requires IsFunctionDef(n)
  {
    var signals := SignalsOf(n);
    FunctionReport(n.s.name, n.s.line, EstimateTime(signals), EstimateSpace(signals),
                   1 + SumWeights(Walk(n)), signals, CountLoc(segment(n.s).GetOr("")))
  }

  /** The reports of the function definitions among `ns`, in order. */
  function Reports(ns: seq<Node>, segment: Stmt -> Option<string>): seq<FunctionReport> {
    if ns == [] then []
    else
      var last := ns[|ns| - 1];
      Reports(ns[..|ns| - 1], segment) + (if IsFunctionDef(last) then [ReportOf(last, segment)] else [])
  }

  /** The number of function definitions among `ns`. */
  function FunctionCount(ns: seq<Node>): nat {
    if ns == [] then 0 else FunctionCount(ns[..|ns| - 1]) + (if IsFunctionDef(ns[|ns| - 1]) then 1 else 0)
  }

  lemma {:induction false} ReportsLength(ns: seq<Node>, segment: Stmt -> Option<string>)
    ensures |Reports(ns, segment)| == FunctionCount(ns)
  {
    if ns != [] {
      ReportsLength(ns[..|ns| - 1], segment);
    }
  }

  function SumCyclomatic(fs: seq<FunctionReport>): int {
    if fs == [] then 0 else SumCyclomatic(fs[..|fs| - 1]) + fs[|fs| - 1].cyclomaticComplexity
  }

  /** `sum(...) or 1`. */
  function TotalCyclomatic(fs: seq<FunctionReport>): int {
    var total := SumCyclomatic(fs);
    if total == 0 then 1 else total
  }

  function TimeKeys(fs: seq<FunctionReport>): seq<string> {
    if fs == [] then [] else TimeKeys(fs[..|fs| - 1]) + [fs[|fs| - 1].timeComplexity]
  }

  /** `big_o_dist[key] = big_o_dist.get(key, 0) + 1` on an insertion-ordered dictionary. */
  function Tally(dist: seq<(string, nat)>, key: string): (r: seq<(string, nat)>)
    ensures |r| == |dist| || |r| == |dist| + 1
  {
    if dist == [] then [(key, 1)]
    else if dist[0].0 == key then [(key, dist[0].1 + 1)] + dist[1..]
    else [dist[0]] + Tally(dist[1..], key)
  }

  /** The distribution built by tallying `keys` in order. */
  function Distribution(keys: seq<string>): seq<(string, nat)> {
    if keys == [] then [] else Tally(Distribution(keys[..|keys| - 1]), keys[|keys| - 1])
  }

  function Lookup(dist: seq<(string, nat)>, key: string): nat {
    if dist == [] then 0 else if dist[0].0 == key then dist[0].1 else Lookup(dist[1..], key)
  }

  function Occurrences(keys: seq<string>, key: string): nat {
    if keys == [] then 0 else Occurrences(keys[..|keys| - 1], key) + (if keys[|keys| - 1] == key then 1 else 0)
  }

  function SumCounts(dist: seq<(string, nat)>): nat {
    if dist == [] then 0 else dist[0].1 + SumCounts(dist[1..])
  }

  predicate DistinctKeys(dist: seq<(string, nat)>) {
    forall i, j :: 0 <= i < j < |dist| ==> dist[i].0 != dist[j].0
  }

  lemma {:induction false} TallyKeys(dist: seq<(string, nat)>, key: string)
    ensures forall k :: k in KeysOf(Tally(dist, key)) <==> k in KeysOf(dist) || k == key
  {
    if dist != [] && dist[0].0 != key {
      TallyKeys(dist[1..], key);
    }
  }

  function KeysOf(dist: seq<(string, nat)>): seq<string> {
    if dist == [] then [] else [dist[0].0] + KeysOf(dist[1..])
  }

  lemma {:induction false} KeysOfIndex(dist: seq<(string, nat)>)
    ensures |KeysOf(dist)| == |dist|
    ensures forall i :: 0 <= i < |dist| ==> KeysOf(dist)[i] == dist[i].0
  {
    if dist != [] {
      KeysOfIndex(dist[1..]);
    }
  }

  /** Tallying keeps the keys distinct, counts `key` once more and leaves every other count alone. */
  lemma {:induction false} TallyFacts(dist: seq<(string, nat)>, key: string)
    requires DistinctKeys(dist)
    ensures DistinctKeys(Tally(dist, key))
    ensures forall k :: Lookup(Tally(dist, key), k) == Lookup(dist, k) + (if k == key then 1 else 0)
    ensures SumCounts(Tally(dist, key)) == SumCounts(dist) + 1
  {
    if dist != [] && dist[0].0 != key {
      var rest := dist[1..];
      assert DistinctKeys(rest) by {
        forall i, j | 0 <= i < j < |rest| ensures rest[i].0 != rest[j].0 {
          assert rest[i] == dist[i + 1] && rest[j] == dist[j + 1];
        }
      }
      TallyFacts(rest, key);
      var t := Tally(rest, key);
      TallyKeys(rest, key);
      KeysOfIndex(t);
      KeysOfIndex(rest);
      var r := Tally(dist, key);
      assert r == [dist[0]] + t;
      forall i, j | 0 <= i < j < |r| ensures r[i].0 != r[j].0 {
        if i == 0 {
          assert r[j] == t[j - 1];
          assert t[j - 1].0 in KeysOf(t);
          if t[j - 1].0 in KeysOf(rest) {
            var m :| 0 <= m < |rest| && KeysOf(rest)[m] == t[j - 1].0;
            assert rest[m] == dist[m + 1];
          }
        } else {
          assert r[i] == t[i - 1] && r[j] == t[j - 1];
        }
      }
    } else if dist != [] {
      var r := Tally(dist, key);
      forall i, j | 0 <= i < j < |r| ensures r[i].0 != r[j].0 {
        assert r[i].0 == dist[i].0 && r[j].0 == dist[j].0;
      }
      assert r[1..] == dist[1..];
      LookupRest(dist, key);
    }
  }

  /** With distinct keys, a key held by the head is absent from the rest. */
  lemma LookupRest(dist: seq<(string, nat)>, key: string)
    requires DistinctKeys(dist) && dist != [] && dist[0].0 == key
    ensures Lookup(dist[1..], key) == 0
  {
    LookupAbsent(dist[1..], key);
  }

  lemma {:induction false} LookupAbsent(dist: seq<(string, nat)>, key: string)
    requires forall i :: 0 <= i < |dist| ==> dist[i].0 != key
    ensures Lookup(dist, key) == 0
  {
    if dist != [] {
      LookupAbsent(dist[1..], key);
    }
  }

  /** The distribution has distinct keys, counts every key's occurrences, and its counts add up to the number of keys. */
  lemma {:induction false} DistributionFacts(keys: seq<string>)
    ensures DistinctKeys(Distribution(keys))
    ensures forall k :: Lookup(Distribution(keys), k) == Occurrences(keys, k)
    ensures SumCounts(Distribution(keys)) == |keys|
  {
    if keys != [] {
      DistributionFacts(keys[..|keys| - 1]);
      TallyFacts(Distribution(keys[..|keys| - 1]), keys[|keys| - 1]);
    }
  }

  /** The big-O distribution loop of `analyze_source`. */
  method BigODistribution(functions: seq<FunctionReport>) returns (dist: seq<(string, nat)>)
    ensures dist == Distribution(TimeKeys(functions))
    ensures DistinctKeys(dist) && SumCounts(dist) == |functions|
    ensures forall k :: Lookup(dist, k) == Occurrences(TimeKeys(functions), k)
  {
    dist := [];
    var i := 0;
    while i < |functions|
      invariant 0 <= i <= |functions|
      invariant dist == Distribution(TimeKeys(functions[..i]))
    {
      assert functions[..i + 1][..i] == functions[..i];
      dist := Tally(dist, functions[i].timeComplexity);
      i := i + 1;
    }
    assert functions[..|functions|] == functions;
    TimeKeysLength(functions);
    DistributionFacts(TimeKeys(functions));
  }

  lemma {:induction false} TimeKeysLength(fs: seq<FunctionReport>)
    ensures |TimeKeys(fs)| == |fs|
  {
    if fs != [] {
      TimeKeysLength(fs[..|fs| - 1]);
    }
  }

  /** The body of `analyze_source`'s loop for one function definition. */
  method AnalyzeFunction(node: Node, segment: Stmt -> Option<string>) returns (report: FunctionReport)
    requires IsFunctionDef(node)
    ensures report == ReportOf(node, segment)
  {
    var signals := AnalyzeFunctionNode(node);
    var timeCx := EstimateTime(signals);
    var spaceCx := EstimateSpace(signals);
    var cc := CyclomaticComplexity(node);
    var funcLoc := CountLoc(segment(node.s).GetOr(""));
    report := FunctionReport(node.s.name, node.s.line, timeCx, spaceCx, cc, signals, funcLoc);
  }

  /**
   * `analyze_source`: on a syntax error only the error text; otherwise the
   * file's line counts, one report per function definition in walk order,
   * the total cyclomatic complexity and the distribution of time estimates.
   */
  method AnalyzeSource(source: string, parsed: ParseResult, segment: Stmt -> Option<string>)
    returns (result: SourceAnalysis)
    ensures parsed.SyntaxError? ==> result == AnalysisError(SyntaxErrorText(parsed.msg, parsed.lineno))
    ensures parsed.Parsed? ==> result.Analysis?
    ensures result.Analysis? ==>
      && result.loc == CountLoc(source)
      && result.functions == Reports(Walk(ModuleNode(parsed.tree)), segment)
      && |result.functions| == FunctionCount(Walk(ModuleNode(parsed.tree)))
      && result.totalCyclomaticComplexity == TotalCyclomatic(result.functions)
      && result.bigODistribution == Distribution(TimeKeys(result.functions))
      && SumCounts(result.bigODistribution) == |result.functions|
  {
    if parsed.SyntaxError? {
      return AnalysisError(SyntaxErrorText(parsed.msg, parsed.lineno));
    }
    var fileLoc := CountLoc(source);
    var walk := Walk(ModuleNode(parsed.tree));
    var functions := ReportsLoop(walk, segment);
    ReportsLength(walk, segment);
    var totalCc := SumCyclomatic(functions);
    if totalCc == 0 {
      totalCc := 1;
    }
    var dist := BigODistribution(functions);
    result := Analysis(fileLoc, functions, totalCc, dist);
  }

  /** The loop of `analyze_source` over the walked nodes: one report per function definition. */
  method ReportsLoop(walk: seq<Node>, segment: Stmt -> Option<string>) returns (functions: seq<FunctionReport>)
    ensures functions == Reports(walk, segment)
  {
    functions := [];
    var i := 0;
    while i < |walk|
      invariant 0 <= i <= |walk|
      invariant functions == Reports(walk[..i], segment)
    {
      assert walk[..i + 1][..i] == walk[..i];
      if IsFunctionDef(walk[i]) {
        var report := AnalyzeFunction(walk[i], segment);
        functions := functions + [report];
      }
      i := i + 1;
    }
    assert walk[..|walk|] == walk;
  }

  /** Each function's complexity is at least one in a well-formed tree, and so is the total. */
  lemma {:induction false} TotalCyclomaticAtLeastOne(tree: seq<Stmt>, segment: Stmt -> Option<string>)
    requires WellFormed(ModuleNode(tree))
    ensures TotalCyclomatic(Reports(Walk(ModuleNode(tree)), segment)) >= 1
  {
    var walk := Walk(ModuleNode(tree));
    WalkWellFormed(ModuleNode(tree));
    ReportsPositive(walk, segment);
    if SumCyclomatic(Reports(walk, segment)) != 0 {
      assert SumCyclomatic(Reports(walk, segment)) > 0;
    }
  }

  lemma {:induction false} ReportsPositive(ns: seq<Node>, segment: Stmt -> Option<string>)
    requires forall i :: 0 <= i < |ns| ==> WellFormed(ns[i])
    ensures SumCyclomatic(Reports(ns, segment)) >= 0
  {
    if ns != [] {
      var init := ns[..|ns| - 1];
      var last := ns[|ns| - 1];
      assert forall i :: 0 <= i < |init| ==> init[i] == ns[i];
      ReportsPositive(init, segment);
      if IsFunctionDef(last) {
        CyclomaticAtLeastOne(last);
        var rs := Reports(init, segment);
        var r := rs + [ReportOf(last, segment)];
        assert Reports(ns, segment) == r;
        assert r[..|r| - 1] == rs && r[|r| - 1] == ReportOf(last, segment);
        assert ReportOf(last, segment).cyclomaticComplexity >= 1;
        assert SumCyclomatic(r) == SumCyclomatic(rs) + ReportOf(last, segment).cyclomaticComplexity;
      } else {
        assert Reports(ns, segment) == Reports(init, segment) + [] == Reports(init, segment);
      }
    }
  }
}
