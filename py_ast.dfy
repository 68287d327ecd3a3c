/**
 * The part of Python's abstract syntax tree (the `ast` module) that the
 * backend inspects and rewrites, a uniform node view of it, and `ast.walk`.
 *
 * Field names and child order follow the `_fields` of the `ast` classes.
 * The leaf nodes that carry no information any check uses (operator and
 * context nodes, `alias`) are left out: a leaf has no children, so leaving
 * it out keeps the order in which the walk meets every other node.
 */
module PyAst {
  import opened Wrappers
  import opened Text

  /**
   * The value of an `ast.Constant`. A float is the real number its literal
   * was rounded to, and an imaginary literal `3j` is `ImagConst(3.0)`;
   * bytes and `...` are `OtherConst`.
   */
  datatype Const =
    | IntConst(i: int)
    | BoolConst(b: bool)
    | FloatConst(r: real)
    | ImagConst(im: real)
    | StrConst(s: string)
    | NoneConst
    | OtherConst(repr: string)

  /** Python's `c == k` for an integer `k`: `True` is 1, `False` is 0, floats and complex numbers compare by value. */
  predicate EqualsInt(c: Const, k: int) {
    match c
    case IntConst(i) => i == k
    case BoolConst(b) => (if b then 1 else 0) == k
    case FloatConst(r) => r == k as real
    case ImagConst(im) => im == 0.0 && k == 0
    case _ => false
  }

  datatype Ctx = Load | Store | Del

  datatype BinOperator = Add | Sub | Mult | Div | FloorDiv | Mod | Pow | OtherBinOp(name: string)

  datatype UnaryOperator = Not | USub | UAdd | Invert

  datatype BoolOperator = And | Or

  datatype CmpOp = Eq | NotEq | Lt | LtE | Gt | GtE | Is | IsNot | In | NotIn

  /**
   * Expression nodes. A `Constant` that the parser made is `located`; one
   * the optimiser builds has no source position until
   * `ast.fix_missing_locations` gives it one.
   */
  datatype Expr =
    | Name(id: string, ctx: Ctx)
    | Constant(value: Const, located: bool)
    | BinOp(left: Expr, op: BinOperator, right: Expr, line: nat)
    | UnaryOp(uop: UnaryOperator, operand: Expr)
    | BoolOp(bop: BoolOperator, values: seq<Expr>)
    | Compare(left: Expr, ops: seq<CmpOp>, comparators: seq<Expr>)
    | Call(func: Expr, args: seq<Expr>, keywords: seq<Keyword>)
    | Attribute(base: Expr, attr: string)
    | Subscript(base: Expr, slice: Expr)
    | Slice(bounds: seq<Expr>)
    | List(elts: seq<Expr>)
    | Tuple(elts: seq<Expr>)
    | Dict(keys: seq<Expr>, vals: seq<Expr>)
    | ListComp(elt: Expr, generators: seq<Comprehension>)
    | SetComp(elt: Expr, generators: seq<Comprehension>)
    | GeneratorExp(elt: Expr, generators: seq<Comprehension>)
    | DictComp(key: Expr, val: Expr, generators: seq<Comprehension>)
    | Lambda(params: Arguments, body: Expr)
    | OtherExpr(kind: string, parts: seq<Expr>)

  /** `name=value` in a call or a class header (`ast.keyword`); `**value` has no name. */
  datatype Keyword = Keyword(arg: Option<string>, value: Expr)

  /** One parameter (`ast.arg`) and its annotation. */
  datatype Arg = Arg(name: string, annotation: Option<Expr>)

  /**
   * A parameter list (`ast.arguments`). `kwDefaults` holds the defaults of
   * the keyword-only parameters that have one: the `None` entries of
   * `kw_defaults` are not nodes, and the walk skips them.
   */
  datatype Arguments = Arguments(
    posonlyargs: seq<Arg>,
    args: seq<Arg>,
    vararg: Option<Arg>,
    kwonlyargs: seq<Arg>,
    kwDefaults: seq<Expr>,
    kwarg: Option<Arg>,
    defaults: seq<Expr>)

  /** One `for ... in ... if ...` clause of a comprehension (`ast.comprehension`). */
  datatype Comprehension = Comprehension(target: Expr, iter: Expr, ifs: seq<Expr>)

  /** `ast.ExceptHandler`. */
  datatype Handler = ExceptHandler(htype: Option<Expr>, body: seq<Stmt>)

  /** `expr as target` in a `with` (`ast.withitem`). */
  datatype WithItem = WithItem(contextExpr: Expr, optionalVars: Option<Expr>)

  /**
   * Statement nodes; `FunctionDef` with `isAsync` is `ast.AsyncFunctionDef`.
   * Statements with no constructor of their own (`async for`, `async with`,
   * `try*`, `match`, `raise`, `del`, ...) are `OtherStmt`, with their
   * expressions and then their statements. Their wrapper nodes (`withitem`,
   * `excepthandler`, `match_case`, patterns) are not kept: what those hold
   * is flattened into `exprs` and `body`.
   */
  datatype Stmt =
    | FunctionDef(name: string, args: Arguments, body: seq<Stmt>, decorators: seq<Expr>, returnsAnn: Option<Expr>,
                  line: nat, isAsync: bool)
    | ClassDef(name: string, bases: seq<Expr>, keywords: seq<Keyword>, body: seq<Stmt>, decorators: seq<Expr>)
    | Return(result: Option<Expr>, line: nat)
    | Assign(targets: seq<Expr>, value: Expr)
    | AugAssign(target: Expr, aop: BinOperator, value: Expr)
    | ExprStmt(value: Expr)
    | For(target: Expr, iter: Expr, body: seq<Stmt>, orelse: seq<Stmt>, line: nat)
    | While(test: Expr, body: seq<Stmt>, orelse: seq<Stmt>, line: nat)
    | If(test: Expr, body: seq<Stmt>, orelse: seq<Stmt>)
    | With(items: seq<WithItem>, body: seq<Stmt>)
    | Try(body: seq<Stmt>, handlers: seq<Handler>, orelse: seq<Stmt>, finalbody: seq<Stmt>)
    | Assert(test: Expr, msg: Option<Expr>)
    | Import(names: seq<string>)
    | ImportFrom(fromModule: Option<string>, names: seq<string>)
    | Break
    | Continue
    | Pass
    | OtherStmt(kind: string, exprs: seq<Expr>, body: seq<Stmt>)

  /** What `ast.parse` gives: a module body, or the `SyntaxError` it raised. */
  datatype ParseResult =
    | Parsed(tree: seq<Stmt>)
    | SyntaxError(msg: string, lineno: nat, text: string)

  /** Python's `str(e)` for the `SyntaxError` that `ast.parse` raises. */
  function SyntaxErrorText(msg: string, lineno: nat): string {
    msg + " (<unknown>, line " + NatToString(lineno) + ")"
  }

  /** Any node, as `ast.walk` and `ast.NodeVisitor` see it. */
  datatype Node =
    | ModuleNode(stmts: seq<Stmt>)
    | StmtNode(s: Stmt)
    | ExprNode(e: Expr)
    | CompNode(c: Comprehension)
    | HandlerNode(h: Handler)
    | ArgumentsNode(params: Arguments)
    | ArgNode(arg: Arg)
    | KeywordNode(kw: Keyword)
    | WithItemNode(item: WithItem)

  // ---------------------------------------------------------------- sizes

  function ExprSize(e: Expr): nat {
    1 + (match e
      case Name(_, _) => 0
      case Constant(_, _) => 0
      case BinOp(l, _, r, _) => ExprSize(l) + ExprSize(r)
      case UnaryOp(_, x) => ExprSize(x)
      case BoolOp(_, vs) => ExprsSize(vs)
      case Compare(l, _, cs) => ExprSize(l) + ExprsSize(cs)
      case Call(f, args, kws) => ExprSize(f) + ExprsSize(args) + KeywordsSize(kws)
      case Attribute(b, _) => ExprSize(b)
      case Subscript(b, s) => ExprSize(b) + ExprSize(s)
      case Slice(bs) => ExprsSize(bs)
      case List(xs) => ExprsSize(xs)
      case Tuple(xs) => ExprsSize(xs)
      case Dict(ks, vs) => ExprsSize(ks) + ExprsSize(vs)
      case ListComp(x, gs) => ExprSize(x) + CompsSize(gs)
      case SetComp(x, gs) => ExprSize(x) + CompsSize(gs)
      case GeneratorExp(x, gs) => ExprSize(x) + CompsSize(gs)
      case DictComp(k, v, gs) => ExprSize(k) + ExprSize(v) + CompsSize(gs)
      case Lambda(a, b) => ArgumentsSize(a) + ExprSize(b)
      case OtherExpr(_, ps) => ExprsSize(ps))
  }

  function ExprsSize(es: seq<Expr>): nat {
    if es == [] then 0 else ExprSize(es[0]) + ExprsSize(es[1..])
  }

  function OptSize(o: Option<Expr>): nat {
    match o
    case None => 0
    case Some(e) => ExprSize(e)
  }

  function KeywordSize(k: Keyword): nat {
    1 + ExprSize(k.value)
  }

  function KeywordsSize(ks: seq<Keyword>): nat {
    if ks == [] then 0 else KeywordSize(ks[0]) + KeywordsSize(ks[1..])
  }

  function ArgSize(a: Arg): nat {
    1 + OptSize(a.annotation)
  }

  function ArgsSize(xs: seq<Arg>): nat {
    if xs == [] then 0 else ArgSize(xs[0]) + ArgsSize(xs[1..])
  }

  function OptArgSize(o: Option<Arg>): nat {
    match o
    case None => 0
    case Some(a) => ArgSize(a)
  }

  function ArgumentsSize(a: Arguments): nat {
    1 + ArgsSize(a.posonlyargs) + ArgsSize(a.args) + OptArgSize(a.vararg) + ArgsSize(a.kwonlyargs) +
    ExprsSize(a.kwDefaults) + OptArgSize(a.kwarg) + ExprsSize(a.defaults)
  }

  function CompSize(c: Comprehension): nat {
    1 + ExprSize(c.target) + ExprSize(c.iter) + ExprsSize(c.ifs)
  }

  function CompsSize(cs: seq<Comprehension>): nat {
    if cs == [] then 0 else CompSize(cs[0]) + CompsSize(cs[1..])
  }

  function HandlerSize(h: Handler): nat {
    1 + OptSize(h.htype) + StmtsSize(h.body)
  }

  function HandlersSize(hs: seq<Handler>): nat {
    if hs == [] then 0 else HandlerSize(hs[0]) + HandlersSize(hs[1..])
  }

  function WithItemSize(w: WithItem): nat {
    1 + ExprSize(w.contextExpr) + OptSize(w.optionalVars)
  }

  function WithItemsSize(ws: seq<WithItem>): nat {
    if ws == [] then 0 else WithItemSize(ws[0]) + WithItemsSize(ws[1..])
  }

  function StmtSize(s: Stmt): nat {
    1 + (match s
      case FunctionDef(_, a, b, ds, r, _, _) => ArgumentsSize(a) + StmtsSize(b) + ExprsSize(ds) + OptSize(r)
      case ClassDef(_, bs, kws, b, ds) => ExprsSize(bs) + KeywordsSize(kws) + StmtsSize(b) + ExprsSize(ds)
      case Return(v, _) => OptSize(v)
      case Assign(ts, v) => ExprsSize(ts) + ExprSize(v)
      case AugAssign(t, _, v) => ExprSize(t) + ExprSize(v)
      case ExprStmt(v) => ExprSize(v)
      case For(t, i, b, o, _) => ExprSize(t) + ExprSize(i) + StmtsSize(b) + StmtsSize(o)
      case While(t, b, o, _) => ExprSize(t) + StmtsSize(b) + StmtsSize(o)
      case If(t, b, o) => ExprSize(t) + StmtsSize(b) + StmtsSize(o)
      case With(items, b) => WithItemsSize(items) + StmtsSize(b)
      case Try(b, hs, o, f) => StmtsSize(b) + HandlersSize(hs) + StmtsSize(o) + StmtsSize(f)
      case Assert(t, m) => ExprSize(t) + OptSize(m)
      case Import(_) => 0
      case ImportFrom(_, _) => 0
      case Break => 0
      case Continue => 0
      case Pass => 0
      case OtherStmt(_, es, b) => ExprsSize(es) + StmtsSize(b))
  }

  function StmtsSize(ss: seq<Stmt>): nat {
    if ss == [] then 0 else StmtSize(ss[0]) + StmtsSize(ss[1..])
  }

  function NodeSize(n: Node): nat {
    match n
    case ModuleNode(b) => 1 + StmtsSize(b)
    case StmtNode(s) => StmtSize(s)
    case ExprNode(e) => ExprSize(e)
    case CompNode(c) => CompSize(c)
    case HandlerNode(h) => HandlerSize(h)
    case ArgumentsNode(a) => ArgumentsSize(a)
    case ArgNode(a) => ArgSize(a)
    case KeywordNode(k) => KeywordSize(k)
    case WithItemNode(w) => WithItemSize(w)
  }

  function SumSizes(ns: seq<Node>): nat {
    if ns == [] then 0 else NodeSize(ns[0]) + SumSizes(ns[1..])
  }

  // ------------------------------------------------------------- children

  function ExprNodes(es: seq<Expr>): (ns: seq<Node>)
    ensures |ns| == |es|
  {
    if es == [] then [] else [ExprNode(es[0])] + ExprNodes(es[1..])
  }

  function StmtNodes(ss: seq<Stmt>): (ns: seq<Node>)
    ensures |ns| == |ss|
  {
    if ss == [] then [] else [StmtNode(ss[0])] + StmtNodes(ss[1..])
  }

  function CompNodes(cs: seq<Comprehension>): (ns: seq<Node>)
    ensures |ns| == |cs|
  {
    if cs == [] then [] else [CompNode(cs[0])] + CompNodes(cs[1..])
  }

  function HandlerNodes(hs: seq<Handler>): (ns: seq<Node>)
    ensures |ns| == |hs|
  {
    if hs == [] then [] else [HandlerNode(hs[0])] + HandlerNodes(hs[1..])
  }

  function KeywordNodes(ks: seq<Keyword>): (ns: seq<Node>)
    ensures |ns| == |ks|
  {
    if ks == [] then [] else [KeywordNode(ks[0])] + KeywordNodes(ks[1..])
  }

  function ArgNodes(xs: seq<Arg>): (ns: seq<Node>)
    ensures |ns| == |xs|
  {
    if xs == [] then [] else [ArgNode(xs[0])] + ArgNodes(xs[1..])
  }

  function WithItemNodes(ws: seq<WithItem>): (ns: seq<Node>)
    ensures |ns| == |ws|
  {
    if ws == [] then [] else [WithItemNode(ws[0])] + WithItemNodes(ws[1..])
  }

  function OptNodes(o: Option<Expr>): seq<Node> {
    match o
    case None => []
    case Some(e) => [ExprNode(e)]
  }

  function OptArgNodes(o: Option<Arg>): seq<Node> {
    match o
    case None => []
    case Some(a) => [ArgNode(a)]
  }

  /** `ast.iter_child_nodes`: the direct children, in field order. */
  function Children(n: Node): seq<Node> {
    match n
    case ModuleNode(b) => StmtNodes(b)
    case StmtNode(s) => StmtChildren(s)
    case ExprNode(e) => ExprChildren(e)
    case CompNode(c) => [ExprNode(c.target), ExprNode(c.iter)] + ExprNodes(c.ifs)
    case HandlerNode(h) => OptNodes(h.htype) + StmtNodes(h.body)
    case ArgumentsNode(a) => ArgumentsChildren(a)
    case ArgNode(a) => OptNodes(a.annotation)
    case KeywordNode(k) => [ExprNode(k.value)]
    case WithItemNode(w) => [ExprNode(w.contextExpr)] + OptNodes(w.optionalVars)
  }

  function ArgumentsChildren(a: Arguments): seq<Node> {
    ArgNodes(a.posonlyargs) + ArgNodes(a.args) + OptArgNodes(a.vararg) + ArgNodes(a.kwonlyargs) +
    ExprNodes(a.kwDefaults) + OptArgNodes(a.kwarg) + ExprNodes(a.defaults)
  }

  function StmtChildren(s: Stmt): seq<Node> {
    match s
    case FunctionDef(_, a, b, ds, r, _, _) => [ArgumentsNode(a)] + StmtNodes(b) + ExprNodes(ds) + OptNodes(r)
    case ClassDef(_, bs, kws, b, ds) => ExprNodes(bs) + KeywordNodes(kws) + StmtNodes(b) + ExprNodes(ds)
    case Return(v, _) => OptNodes(v)
    case Assign(ts, v) => ExprNodes(ts) + [ExprNode(v)]
    case AugAssign(t, _, v) => [ExprNode(t), ExprNode(v)]
    case ExprStmt(v) => [ExprNode(v)]
    case For(t, i, b, o, _) => [ExprNode(t), ExprNode(i)] + StmtNodes(b) + StmtNodes(o)
    case While(t, b, o, _) => [ExprNode(t)] + StmtNodes(b) + StmtNodes(o)
    case If(t, b, o) => [ExprNode(t)] + StmtNodes(b) + StmtNodes(o)
    case With(items, b) => WithItemNodes(items) + StmtNodes(b)
    case Try(b, hs, o, f) => StmtNodes(b) + HandlerNodes(hs) + StmtNodes(o) + StmtNodes(f)
    case Assert(t, m) => [ExprNode(t)] + OptNodes(m)
    case Import(_) => []
    case ImportFrom(_, _) => []
    case Break => []
    case Continue => []
    case Pass => []
    case OtherStmt(_, es, b) => ExprNodes(es) + StmtNodes(b)
  }

  function ExprChildren(e: Expr): seq<Node> {
    match e
    case Name(_, _) => []
    case Constant(_, _) => []
    case BinOp(l, _, r, _) => [ExprNode(l), ExprNode(r)]
    case UnaryOp(_, x) => [ExprNode(x)]
    case BoolOp(_, vs) => ExprNodes(vs)
    case Compare(l, _, cs) => [ExprNode(l)] + ExprNodes(cs)
    case Call(f, args, kws) => [ExprNode(f)] + ExprNodes(args) + KeywordNodes(kws)
    case Attribute(b, _) => [ExprNode(b)]
    case Subscript(b, s) => [ExprNode(b), ExprNode(s)]
    case Slice(bs) => ExprNodes(bs)
    case List(xs) => ExprNodes(xs)
    case Tuple(xs) => ExprNodes(xs)
    case Dict(ks, vs) => ExprNodes(ks) + ExprNodes(vs)
    case ListComp(x, gs) => [ExprNode(x)] + CompNodes(gs)
    case SetComp(x, gs) => [ExprNode(x)] + CompNodes(gs)
    case GeneratorExp(x, gs) => [ExprNode(x)] + CompNodes(gs)
    case DictComp(k, v, gs) => [ExprNode(k), ExprNode(v)] + CompNodes(gs)
    case Lambda(a, b) => [ArgumentsNode(a), ExprNode(b)]
    case OtherExpr(_, ps) => ExprNodes(ps)
  }

  // ------------------------------------------------- children are smaller

  lemma {:induction false} SumSizesConcat(a: seq<Node>, b: seq<Node>)
    ensures SumSizes(a + b) == SumSizes(a) + SumSizes(b)
  {
    if a == [] {
      assert a + b == b;
    } else {
      assert (a + b)[0] == a[0];
      assert (a + b)[1..] == a[1..] + b;
      SumSizesConcat(a[1..], b);
    }
  }

  lemma {:induction false} ExprNodesSize(es: seq<Expr>)
    ensures SumSizes(ExprNodes(es)) == ExprsSize(es)
  {
    if es != [] {
      assert ExprNodes(es)[1..] == ExprNodes(es[1..]);
      ExprNodesSize(es[1..]);
    }
  }

  lemma {:induction false} StmtNodesSize(ss: seq<Stmt>)
    ensures SumSizes(StmtNodes(ss)) == StmtsSize(ss)
  {
    if ss != [] {
      assert StmtNodes(ss)[1..] == StmtNodes(ss[1..]);
      StmtNodesSize(ss[1..]);
    }
  }

  lemma {:induction false} CompNodesSize(cs: seq<Comprehension>)
    ensures SumSizes(CompNodes(cs)) == CompsSize(cs)
  {
    if cs != [] {
      assert CompNodes(cs)[1..] == CompNodes(cs[1..]);
      CompNodesSize(cs[1..]);
    }
  }

  lemma {:induction false} HandlerNodesSize(hs: seq<Handler>)
    ensures SumSizes(HandlerNodes(hs)) == HandlersSize(hs)
  {
    if hs != [] {
      assert HandlerNodes(hs)[1..] == HandlerNodes(hs[1..]);
      HandlerNodesSize(hs[1..]);
    }
  }

  lemma {:induction false} KeywordNodesSize(ks: seq<Keyword>)
    ensures SumSizes(KeywordNodes(ks)) == KeywordsSize(ks)
  {
    if ks != [] {
      assert KeywordNodes(ks)[1..] == KeywordNodes(ks[1..]);
      KeywordNodesSize(ks[1..]);
    }
  }

  lemma {:induction false} ArgNodesSize(xs: seq<Arg>)
    ensures SumSizes(ArgNodes(xs)) == ArgsSize(xs)
  {
    if xs != [] {
      assert ArgNodes(xs)[1..] == ArgNodes(xs[1..]);
      ArgNodesSize(xs[1..]);
    }
  }

  lemma {:induction false} WithItemNodesSize(ws: seq<WithItem>)
    ensures SumSizes(WithItemNodes(ws)) == WithItemsSize(ws)
  {
    if ws != [] {
      assert WithItemNodes(ws)[1..] == WithItemNodes(ws[1..]);
      WithItemNodesSize(ws[1..]);
    }
  }

  lemma OptNodesSize(o: Option<Expr>)
    ensures SumSizes(OptNodes(o)) == OptSize(o)
  {
  }

  lemma OptArgNodesSize(o: Option<Arg>)
    ensures SumSizes(OptArgNodes(o)) == OptArgSize(o)
  {
  }

  lemma SumSizes1(a: Node)
    ensures SumSizes([a]) == NodeSize(a)
  {
    assert [a][1..] == [];
  }

  lemma SumSizes2(a: Node, b: Node)
    ensures SumSizes([a, b]) == NodeSize(a) + NodeSize(b)
  {
    assert [a, b] == [a] + [b];
    SumSizesConcat([a], [b]);
    SumSizes1(a);
    SumSizes1(b);
  }

  /** A node in front of a list adds its size. */
  lemma SumSizesCons(a: Node, rest: seq<Node>)
    ensures SumSizes([a] + rest) == NodeSize(a) + SumSizes(rest)
  {
    SumSizesConcat([a], rest);
    SumSizes1(a);
  }

  /** Four lists together are as large as the four of them. */
  lemma SumSizes4(a: seq<Node>, b: seq<Node>, c: seq<Node>, d: seq<Node>)
    ensures SumSizes(a + b + c + d) == SumSizes(a) + SumSizes(b) + SumSizes(c) + SumSizes(d)
  {
    SumSizesConcat(a + b + c, d);
    SumSizesConcat(a + b, c);
    SumSizesConcat(a, b);
  }

  lemma ArgumentsChildrenSize(a: Arguments)
    ensures SumSizes(ArgumentsChildren(a)) + 1 == ArgumentsSize(a)
  {
    var p1 := ArgNodes(a.posonlyargs) + ArgNodes(a.args) + OptArgNodes(a.vararg);
    var p2 := ArgNodes(a.kwonlyargs) + ExprNodes(a.kwDefaults) + OptArgNodes(a.kwarg);
    assert ArgumentsChildren(a) == p1 + ArgNodes(a.kwonlyargs) + ExprNodes(a.kwDefaults) + OptArgNodes(a.kwarg) +
                                   ExprNodes(a.defaults);
    SumSizes4(p1, ArgNodes(a.kwonlyargs), ExprNodes(a.kwDefaults), OptArgNodes(a.kwarg));
    SumSizesConcat(p1 + ArgNodes(a.kwonlyargs) + ExprNodes(a.kwDefaults) + OptArgNodes(a.kwarg), ExprNodes(a.defaults));
    SumSizesConcat(ArgNodes(a.posonlyargs) + ArgNodes(a.args), OptArgNodes(a.vararg));
    SumSizesConcat(ArgNodes(a.posonlyargs), ArgNodes(a.args));
    ArgNodesSize(a.posonlyargs); ArgNodesSize(a.args); OptArgNodesSize(a.vararg); ArgNodesSize(a.kwonlyargs);
    ExprNodesSize(a.kwDefaults); OptArgNodesSize(a.kwarg); ExprNodesSize(a.defaults);
  }

  lemma ExprChildrenSize(e: Expr)
    ensures SumSizes(ExprChildren(e)) + 1 == ExprSize(e)
  {
    match e
    case Name(_, _) =>
    case Constant(_, _) =>
    case BinOp(l, o, r, n) => BinOpChildrenSize(l, o, r, n);
    case UnaryOp(o, x) => UnaryOpChildrenSize(o, x);
    case BoolOp(o, vs) => BoolOpChildrenSize(o, vs);
    case Compare(l, ops, cs) => CompareChildrenSize(l, ops, cs);
    case Call(f, args, kws) => CallChildrenSize(f, args, kws);
    case Attribute(b, a) => AttributeChildrenSize(b, a);
    case Subscript(b, x) => SubscriptChildrenSize(b, x);
    case Slice(bs) => SliceChildrenSize(bs);
    case List(xs) => ListChildrenSize(xs);
    case Tuple(xs) => TupleChildrenSize(xs);
    case Dict(ks, vs) => DictChildrenSize(ks, vs);
    case ListComp(x, gs) => ListCompChildrenSize(x, gs);
    case SetComp(x, gs) => SetCompChildrenSize(x, gs);
    case GeneratorExp(x, gs) => GeneratorExpChildrenSize(x, gs);
    case DictComp(k, v, gs) => DictCompChildrenSize(k, v, gs);
    case Lambda(a, b) => LambdaChildrenSize(a, b);
    case OtherExpr(k, ps) => OtherExprChildrenSize(k, ps);
  }

  lemma BinOpChildrenSize(l: Expr, o: BinOperator, r: Expr, n: nat)
    ensures SumSizes(ExprChildren(BinOp(l, o, r, n))) + 1 == ExprSize(BinOp(l, o, r, n))
  {
    SumSizes2(ExprNode(l), ExprNode(r));
  }

  lemma UnaryOpChildrenSize(o: UnaryOperator, x: Expr)
    ensures SumSizes(ExprChildren(UnaryOp(o, x))) + 1 == ExprSize(UnaryOp(o, x))
  {
    SumSizes1(ExprNode(x));
  }

  lemma BoolOpChildrenSize(o: BoolOperator, vs: seq<Expr>)
    ensures SumSizes(ExprChildren(BoolOp(o, vs))) + 1 == ExprSize(BoolOp(o, vs))
  {
    ExprNodesSize(vs);
  }

  lemma AttributeChildrenSize(b: Expr, a: string)
    ensures SumSizes(ExprChildren(Attribute(b, a))) + 1 == ExprSize(Attribute(b, a))
  {
    SumSizes1(ExprNode(b));
  }

  lemma SubscriptChildrenSize(b: Expr, x: Expr)
    ensures SumSizes(ExprChildren(Subscript(b, x))) + 1 == ExprSize(Subscript(b, x))
  {
    SumSizes2(ExprNode(b), ExprNode(x));
  }

  lemma SliceChildrenSize(bs: seq<Expr>)
    ensures SumSizes(ExprChildren(Slice(bs))) + 1 == ExprSize(Slice(bs))
  {
    ExprNodesSize(bs);
  }

  lemma ListChildrenSize(xs: seq<Expr>)
    ensures SumSizes(ExprChildren(List(xs))) + 1 == ExprSize(List(xs))
  {
    ExprNodesSize(xs);
  }

  lemma TupleChildrenSize(xs: seq<Expr>)
    ensures SumSizes(ExprChildren(Tuple(xs))) + 1 == ExprSize(Tuple(xs))
  {
    ExprNodesSize(xs);
  }

  lemma ListCompChildrenSize(x: Expr, gs: seq<Comprehension>)
    ensures SumSizes(ExprChildren(ListComp(x, gs))) + 1 == ExprSize(ListComp(x, gs))
  {
    SumSizesCons(ExprNode(x), CompNodes(gs)); CompNodesSize(gs);
  }

  lemma SetCompChildrenSize(x: Expr, gs: seq<Comprehension>)
    ensures SumSizes(ExprChildren(SetComp(x, gs))) + 1 == ExprSize(SetComp(x, gs))
  {
    SumSizesCons(ExprNode(x), CompNodes(gs)); CompNodesSize(gs);
  }

  lemma GeneratorExpChildrenSize(x: Expr, gs: seq<Comprehension>)
    ensures SumSizes(ExprChildren(GeneratorExp(x, gs))) + 1 == ExprSize(GeneratorExp(x, gs))
  {
    SumSizesCons(ExprNode(x), CompNodes(gs)); CompNodesSize(gs);
  }

  lemma LambdaChildrenSize(a: Arguments, b: Expr)
    ensures SumSizes(ExprChildren(Lambda(a, b))) + 1 == ExprSize(Lambda(a, b))
  {
    SumSizes2(ArgumentsNode(a), ExprNode(b));
  }

  lemma OtherExprChildrenSize(k: string, ps: seq<Expr>)
    ensures SumSizes(ExprChildren(OtherExpr(k, ps))) + 1 == ExprSize(OtherExpr(k, ps))
  {
    ExprNodesSize(ps);
  }

  lemma CompareChildrenSize(l: Expr, ops: seq<CmpOp>, cs: seq<Expr>)
    ensures SumSizes(ExprChildren(Compare(l, ops, cs))) + 1 == ExprSize(Compare(l, ops, cs))
  {
    SumSizesCons(ExprNode(l), ExprNodes(cs)); ExprNodesSize(cs);
  }

  lemma CallChildrenSize(f: Expr, args: seq<Expr>, kws: seq<Keyword>)
    ensures SumSizes(ExprChildren(Call(f, args, kws))) + 1 == ExprSize(Call(f, args, kws))
  {
    SumSizesConcat([ExprNode(f)] + ExprNodes(args), KeywordNodes(kws));
    SumSizesCons(ExprNode(f), ExprNodes(args));
    ExprNodesSize(args); KeywordNodesSize(kws);
  }

  lemma DictChildrenSize(ks: seq<Expr>, vs: seq<Expr>)
    ensures SumSizes(ExprChildren(Dict(ks, vs))) + 1 == ExprSize(Dict(ks, vs))
  {
    SumSizesConcat(ExprNodes(ks), ExprNodes(vs)); ExprNodesSize(ks); ExprNodesSize(vs);
  }

  lemma DictCompChildrenSize(k: Expr, v: Expr, gs: seq<Comprehension>)
    ensures SumSizes(ExprChildren(DictComp(k, v, gs))) + 1 == ExprSize(DictComp(k, v, gs))
  {
    SumSizesConcat([ExprNode(k), ExprNode(v)], CompNodes(gs)); SumSizes2(ExprNode(k), ExprNode(v)); CompNodesSize(gs);
  }

  lemma StmtChildrenSize(s: Stmt)
    ensures SumSizes(StmtChildren(s)) + 1 == StmtSize(s)
  {
    match s
    case FunctionDef(n, a, b, ds, r, line, y) => FunctionDefChildrenSize(n, a, b, ds, r, line, y);
    case ClassDef(n, bs, kws, b, ds) => ClassDefChildrenSize(n, bs, kws, b, ds);
    case Return(v, _) => OptNodesSize(v);
    case Assign(ts, v) => AssignChildrenSize(ts, v);
    case AugAssign(t, _, v) => SumSizes2(ExprNode(t), ExprNode(v));
    case ExprStmt(v) => SumSizes1(ExprNode(v));
    case For(t, i, b, o, l) => ForChildrenSize(t, i, b, o, l);
    case While(t, b, o, l) => WhileChildrenSize(t, b, o, l);
    case If(t, b, o) => IfChildrenSize(t, b, o);
    case With(items, b) => WithChildrenSize(items, b);
    case Try(b, hs, o, f) => TryChildrenSize(b, hs, o, f);
    case Assert(t, m) => SumSizesCons(ExprNode(t), OptNodes(m)); OptNodesSize(m);
    case Import(_) =>
    case ImportFrom(_, _) =>
    case Break =>
    case Continue =>
    case Pass =>
    case OtherStmt(k, es, b) => OtherStmtChildrenSize(k, es, b);
  }

  lemma FunctionDefChildrenSize(n: string, a: Arguments, b: seq<Stmt>, ds: seq<Expr>, r: Option<Expr>,
                                line: nat, y: bool)
    ensures SumSizes(StmtChildren(FunctionDef(n, a, b, ds, r, line, y))) + 1 == StmtSize(FunctionDef(n, a, b, ds, r, line, y))
  {
    SumSizes4([ArgumentsNode(a)], StmtNodes(b), ExprNodes(ds), OptNodes(r));
    SumSizes1(ArgumentsNode(a)); StmtNodesSize(b); ExprNodesSize(ds); OptNodesSize(r);
  }

  lemma ClassDefChildrenSize(n: string, bs: seq<Expr>, kws: seq<Keyword>, b: seq<Stmt>, ds: seq<Expr>)
    ensures SumSizes(StmtChildren(ClassDef(n, bs, kws, b, ds))) + 1 == StmtSize(ClassDef(n, bs, kws, b, ds))
  {
    SumSizes4(ExprNodes(bs), KeywordNodes(kws), StmtNodes(b), ExprNodes(ds));
    ExprNodesSize(bs); KeywordNodesSize(kws); StmtNodesSize(b); ExprNodesSize(ds);
  }

  lemma AssignChildrenSize(ts: seq<Expr>, v: Expr)
    ensures SumSizes(StmtChildren(Assign(ts, v))) + 1 == StmtSize(Assign(ts, v))
  {
    SumSizesConcat(ExprNodes(ts), [ExprNode(v)]); SumSizes1(ExprNode(v)); ExprNodesSize(ts);
  }

  lemma ForChildrenSize(t: Expr, i: Expr, b: seq<Stmt>, o: seq<Stmt>, l: nat)
    ensures SumSizes(StmtChildren(For(t, i, b, o, l))) + 1 == StmtSize(For(t, i, b, o, l))
  {
    SumSizesConcat([ExprNode(t), ExprNode(i)] + StmtNodes(b), StmtNodes(o));
    SumSizesConcat([ExprNode(t), ExprNode(i)], StmtNodes(b));
    SumSizes2(ExprNode(t), ExprNode(i)); StmtNodesSize(b); StmtNodesSize(o);
  }

  lemma WhileChildrenSize(t: Expr, b: seq<Stmt>, o: seq<Stmt>, l: nat)
    ensures SumSizes(StmtChildren(While(t, b, o, l))) + 1 == StmtSize(While(t, b, o, l))
  {
    SumSizesConcat([ExprNode(t)] + StmtNodes(b), StmtNodes(o));
    SumSizesCons(ExprNode(t), StmtNodes(b)); StmtNodesSize(b); StmtNodesSize(o);
  }

  lemma IfChildrenSize(t: Expr, b: seq<Stmt>, o: seq<Stmt>)
    ensures SumSizes(StmtChildren(If(t, b, o))) + 1 == StmtSize(If(t, b, o))
  {
    SumSizesConcat([ExprNode(t)] + StmtNodes(b), StmtNodes(o));
    SumSizesCons(ExprNode(t), StmtNodes(b)); StmtNodesSize(b); StmtNodesSize(o);
  }

  lemma WithChildrenSize(items: seq<WithItem>, b: seq<Stmt>)
    ensures SumSizes(StmtChildren(With(items, b))) + 1 == StmtSize(With(items, b))
  {
    SumSizesConcat(WithItemNodes(items), StmtNodes(b)); WithItemNodesSize(items); StmtNodesSize(b);
  }

  lemma TryChildrenSize(b: seq<Stmt>, hs: seq<Handler>, o: seq<Stmt>, f: seq<Stmt>)
    ensures SumSizes(StmtChildren(Try(b, hs, o, f))) + 1 == StmtSize(Try(b, hs, o, f))
  {
    SumSizes4(StmtNodes(b), HandlerNodes(hs), StmtNodes(o), StmtNodes(f));
    StmtNodesSize(b); HandlerNodesSize(hs); StmtNodesSize(o); StmtNodesSize(f);
  }

  lemma OtherStmtChildrenSize(k: string, es: seq<Expr>, b: seq<Stmt>)
    ensures SumSizes(StmtChildren(OtherStmt(k, es, b))) + 1 == StmtSize(OtherStmt(k, es, b))
  {
    SumSizesConcat(ExprNodes(es), StmtNodes(b)); ExprNodesSize(es); StmtNodesSize(b);
  }

  /** The children of a node are, together, one node smaller than it. */
  lemma ChildrenSize(n: Node)
    ensures SumSizes(Children(n)) + 1 == NodeSize(n)
  {
    match n
    case ModuleNode(b) => StmtNodesSize(b);
    case StmtNode(s) => StmtChildrenSize(s);
    case ExprNode(e) => ExprChildrenSize(e);
    case CompNode(c) =>
      SumSizesConcat([ExprNode(c.target), ExprNode(c.iter)], ExprNodes(c.ifs));
      SumSizes2(ExprNode(c.target), ExprNode(c.iter)); ExprNodesSize(c.ifs);
    case HandlerNode(h) => SumSizesConcat(OptNodes(h.htype), StmtNodes(h.body)); OptNodesSize(h.htype); StmtNodesSize(h.body);
    case ArgumentsNode(a) => ArgumentsChildrenSize(a);
    case ArgNode(a) => OptNodesSize(a.annotation);
    case KeywordNode(k) => SumSizes1(ExprNode(k.value));
    case WithItemNode(w) =>
      SumSizesCons(ExprNode(w.contextExpr), OptNodes(w.optionalVars)); OptNodesSize(w.optionalVars);
  }

  lemma {:induction false} SumSizesElement(ns: seq<Node>, i: nat)
    requires i < |ns|
    ensures NodeSize(ns[i]) <= SumSizes(ns)
  {
    if i > 0 {
      SumSizesElement(ns[1..], i - 1);
    }
  }

  /** Each child is strictly smaller than its parent: recursion over `Children` terminates. */
  lemma ChildSmaller(n: Node, i: nat)
    requires i < |Children(n)|
    ensures NodeSize(Children(n)[i]) < NodeSize(n)
  {
    ChildrenSize(n);
    SumSizesElement(Children(n), i);
  }

  // ------------------------------------------------------------------ walk

  /** The breadth-first traversal of `ast.walk`, started from a queue of nodes. */
  function Bfs(queue: seq<Node>): seq<Node>
    decreases SumSizes(queue)
  {
    if queue == [] then []
    else
      ChildrenSize(queue[0]);
      SumSizesConcat(queue[1..], Children(queue[0]));
      [queue[0]] + Bfs(queue[1..] + Children(queue[0]))
  }

  /** `ast.walk(n)`: `n` and all its descendants, breadth first. */
  function Walk(n: Node): (w: seq<Node>)
    ensures |w| >= 1 && w[0] == n
  {
    Bfs([n])
  }

  /** Every node of a walk satisfies a property that holds of the roots and passes from a node to its children. */
  lemma {:induction false} BfsKeeps(queue: seq<Node>, p: Node -> bool)
    requires forall q :: q in queue ==> p(q)
    requires forall m, i :: p(m) && 0 <= i < |Children(m)| ==> p(Children(m)[i])
    ensures forall m :: m in Bfs(queue) ==> p(m)
    decreases SumSizes(queue)
  {
    if queue != [] {
      ChildrenSize(queue[0]);
      SumSizesConcat(queue[1..], Children(queue[0]));
      var next := queue[1..] + Children(queue[0]);
      forall q | q in next ensures p(q) {
        if q !in queue[1..] {
          var i :| 0 <= i < |Children(queue[0])| && Children(queue[0])[i] == q;
        }
      }
      BfsKeeps(next, p);
    }
  }

  /** Every queued node is walked. */
  lemma {:induction false} BfsContainsQueue(queue: seq<Node>)
    ensures forall q :: q in queue ==> q in Bfs(queue)
    decreases SumSizes(queue)
  {
    if queue != [] {
      ChildrenSize(queue[0]);
      SumSizesConcat(queue[1..], Children(queue[0]));
      BfsContainsQueue(queue[1..] + Children(queue[0]));
    }
  }

  /** A breadth-first walk from a queue visits exactly the nodes of the walks from its members. */
  lemma {:induction false} BfsNodes(queue: seq<Node>, x: Node)
    ensures x in Bfs(queue) <==> exists q :: q in queue && x in Walk(q)
    decreases SumSizes(queue), 1
  {
    if queue != [] {
      var q0 := queue[0];
      var rest := queue[1..];
      var ch := Children(q0);
      ChildrenSize(q0);
      SumSizesConcat(rest, ch);
      SumSizesConcat([], ch);
      BfsNodes(rest + ch, x);
      WalkNodes(q0, x);
      assert [q0][1..] + ch == ch;
      if exists q :: q in queue && x in Walk(q) {
        var q :| q in queue && x in Walk(q);
        if q != q0 {
          assert q in rest + ch;
        }
      }
      if exists q :: q in rest + ch && x in Walk(q) {
        var q :| q in rest + ch && x in Walk(q);
        if q in rest {
          assert q in queue;
        }
      }
    }
  }

  /** A node's walk is the node and the walks of its children. */
  lemma {:induction false} WalkNodes(n: Node, x: Node)
    ensures x in Walk(n) <==> x == n || exists c :: c in Children(n) && x in Walk(c)
    decreases NodeSize(n), 0
  {
    ChildrenSize(n);
    SumSizesConcat([], Children(n));
    SumSizes1(n);
    assert [n][1..] + Children(n) == Children(n);
    assert Walk(n) == [n] + Bfs(Children(n));
    BfsNodes(Children(n), x);
  }

  /** The children of the root are walked. */
  lemma WalkChild(n: Node, i: nat)
    requires i < |Children(n)|
    ensures Children(n)[i] in Walk(n)
  {
    ChildrenSize(n);
    SumSizesConcat([], Children(n));
    BfsContainsQueue(Children(n));
    assert [n][1..] + Children(n) == Children(n);
    assert Walk(n) == [n] + Bfs(Children(n));
  }

  lemma {:induction false} StmtNodesIndex(ss: seq<Stmt>, k: nat)
    requires k < |ss|
    ensures StmtNodes(ss)[k] == StmtNode(ss[k])
  {
    if k > 0 {
      StmtNodesIndex(ss[1..], k - 1);
    }
  }

  /** The walk of a module is the module and the walks of its statements. */
  lemma WalkModule(tree: seq<Stmt>, x: Node)
    ensures x in Walk(ModuleNode(tree)) <==>
            x == ModuleNode(tree) || exists k :: 0 <= k < |tree| && x in Walk(StmtNode(tree[k]))
  {
    WalkNodes(ModuleNode(tree), x);
    if exists c :: c in Children(ModuleNode(tree)) && x in Walk(c) {
      var c :| c in Children(ModuleNode(tree)) && x in Walk(c);
      var k :| 0 <= k < |tree| && StmtNodes(tree)[k] == c;
      StmtNodesIndex(tree, k);
    }
    if exists k :: 0 <= k < |tree| && x in Walk(StmtNode(tree[k])) {
      var k :| 0 <= k < |tree| && x in Walk(StmtNode(tree[k]));
      StmtNodesIndex(tree, k);
      assert StmtNodes(tree)[k] in Children(ModuleNode(tree));
    }
  }

  /** A top-level statement of a module is walked. */
  lemma WalkTopLevel(tree: seq<Stmt>, k: nat)
    requires k < |tree|
    ensures StmtNode(tree[k]) in Walk(ModuleNode(tree))
  {
    StmtNodesIndex(tree, k);
    WalkChild(ModuleNode(tree), k);
  }

  lemma {:induction false} ExprNodesIndex(es: seq<Expr>, k: nat)
    requires k < |es|
    ensures ExprNodes(es)[k] == ExprNode(es[k])
  {
    if k > 0 {
      ExprNodesIndex(es[1..], k - 1);
    }
  }

  /** A node walked from a child of `n` is walked from `n`. */
  lemma WalkThroughChild(n: Node, i: nat, x: Node)
    requires i < |Children(n)| && x in Walk(Children(n)[i])
    ensures x in Walk(n)
  {
    WalkNodes(n, x);
  }

  /**
   * The walk of a `def` reaches every default value and every decorator,
   * through its `arguments` child and its `decorator_list`.
   */
  lemma FunctionDefPartsWalked(s: Stmt, k: nat)
    requires s.FunctionDef?
    ensures k < |s.args.defaults| ==> ExprNode(s.args.defaults[k]) in Walk(StmtNode(s))
    ensures k < |s.decorators| ==> ExprNode(s.decorators[k]) in Walk(StmtNode(s))
  {
    if k < |s.args.defaults| {
      DefaultWalked(s.args, k);
      WalkThroughChild(StmtNode(s), 0, ExprNode(s.args.defaults[k]));
    }
    if k < |s.decorators| {
      DecoratorChild(s, k);
      WalkNodes(ExprNode(s.decorators[k]), ExprNode(s.decorators[k]));
      WalkThroughChild(StmtNode(s), 1 + |s.body| + k, ExprNode(s.decorators[k]));
    }
  }

  /** A default value is walked from its `arguments` node. */
  lemma DefaultWalked(a: Arguments, k: nat)
    requires k < |a.defaults|
    ensures ExprNode(a.defaults[k]) in Walk(ArgumentsNode(a))
  {
    var pre := ArgNodes(a.posonlyargs) + ArgNodes(a.args) + OptArgNodes(a.vararg) + ArgNodes(a.kwonlyargs) +
               ExprNodes(a.kwDefaults) + OptArgNodes(a.kwarg);
    ExprNodesIndex(a.defaults, k);
    assert Children(ArgumentsNode(a)) == pre + ExprNodes(a.defaults);
    assert Children(ArgumentsNode(a))[|pre| + k] == ExprNode(a.defaults[k]);
    WalkNodes(ExprNode(a.defaults[k]), ExprNode(a.defaults[k]));
    WalkThroughChild(ArgumentsNode(a), |pre| + k, ExprNode(a.defaults[k]));
  }

  /** The position of a decorator among the children of its `def`. */
  lemma DecoratorChild(s: Stmt, k: nat)
    requires s.FunctionDef? && k < |s.decorators|
    ensures 1 + |s.body| + k < |Children(StmtNode(s))|
    ensures Children(StmtNode(s))[1 + |s.body| + k] == ExprNode(s.decorators[k])
  {
    var front := [ArgumentsNode(s.args)] + StmtNodes(s.body);
    ExprNodesIndex(s.decorators, k);
    assert Children(StmtNode(s)) == front + ExprNodes(s.decorators) + OptNodes(s.returnsAnn);
    assert |front| == 1 + |s.body|;
  }

  // ------------------------------------------------------ node classes

  /** A constant that is exactly `True` (`value is True`). */
  predicate IsTrueConstant(e: Expr) {
    e.Constant? && e.value == BoolConst(true)
  }

  /** A constant equal to 0 in Python (`value == 0`): `0`, `False`, `0.0` or `0j`. */
  predicate IsZeroConstant(e: Expr) {
    e.Constant? && EqualsInt(e.value, 0)
  }

  /** `ast.For` or `ast.While`. */
  predicate IsLoop(n: Node) {
    n.StmtNode? && (n.s.For? || n.s.While?)
  }

  /** `ast.FunctionDef`, a `def` that is not `async def`. */
  predicate IsFunctionDef(n: Node) {
    n.StmtNode? && n.s.FunctionDef? && !n.s.isAsync
  }

  // ------------------------------------------- collecting along a walk

  /** The concatenation of `f` over `ns`, in order: what a loop over a walk appends. */
  function Collect<T>(ns: seq<Node>, f: Node -> seq<T>): seq<T> {
    if ns == [] then [] else Collect(ns[..|ns| - 1], f) + f(ns[|ns| - 1])
  }

  /** An item is collected iff some node contributes it. */
  lemma {:induction false} CollectMember<T>(ns: seq<Node>, f: Node -> seq<T>, x: T)
    ensures x in Collect(ns, f) <==> exists i :: 0 <= i < |ns| && x in f(ns[i])
  {
    if ns != [] {
      var init := ns[..|ns| - 1];
      CollectMember(init, f, x);
      if x in Collect(ns, f) && x !in Collect(init, f) {
        assert x in f(ns[|ns| - 1]);
      }
      if exists i :: 0 <= i < |ns| && x in f(ns[i]) {
        var i :| 0 <= i < |ns| && x in f(ns[i]);
        if i < |ns| - 1 {
          assert init[i] == ns[i];
        }
      }
    }
  }

  /** Nothing is collected iff no node contributes anything. */
  lemma {:induction false} CollectEmpty<T>(ns: seq<Node>, f: Node -> seq<T>)
    ensures Collect(ns, f) == [] <==> forall i :: 0 <= i < |ns| ==> f(ns[i]) == []
  {
    if ns != [] {
      var init := ns[..|ns| - 1];
      CollectEmpty(init, f);
      if Collect(ns, f) == [] {
        forall i | 0 <= i < |ns| ensures f(ns[i]) == [] {
          if i < |ns| - 1 {
            assert init[i] == ns[i];
          }
        }
      }
    }
  }

  /** One more node appends its contribution. */
  lemma CollectSnoc<T>(ns: seq<Node>, n: Node, f: Node -> seq<T>)
    ensures Collect(ns + [n], f) == Collect(ns, f) + f(n)
  {
    assert (ns + [n])[..|ns|] == ns;
  }

  /** One more node of a prefix adds that node's items. */
  lemma CollectStep<T>(ns: seq<Node>, i: nat, f: Node -> seq<T>)
    requires i < |ns|
    ensures Collect(ns[..i + 1], f) == Collect(ns[..i], f) + f(ns[i])
  {
    assert ns[..i + 1][..i] == ns[..i];
  }

  /** The whole prefix collects what the sequence does. */
  lemma CollectFull<T>(ns: seq<Node>, f: Node -> seq<T>)
    ensures Collect(ns[..|ns|], f) == Collect(ns, f)
  {
    assert ns[..|ns|] == ns;
  }
}
