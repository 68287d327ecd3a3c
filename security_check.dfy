/**
 * The older single-purpose security checker of `checks/security_check.py`:
 * imports are matched on the whole dotted name against a shorter list, and
 * only direct calls by name are looked at. A syntax error is not caught:
 * it propagates, which the result models as `None`.
 */
module SecurityCheck {
  import opened Wrappers
  import opened PyAst

  const ForbiddenImports: set<string> := {"os", "sys", "subprocess"}
  const ForbiddenFunctions: set<string> := {"eval", "exec", "open"}

  function ImportMessage(name: string): string {
    "Forbidden import detected: " + name
  }

  function CallMessage(name: string): string {
    "Forbidden function used: " + name
  }

  /** The errors for the aliases of one `import`, in order: exact matches only. */
  function AliasErrors(names: seq<string>): seq<string> {
    if names == [] then []
    else
      var last := names[|names| - 1];
      AliasErrors(names[..|names| - 1]) + (if last in ForbiddenImports then [ImportMessage(last)] else [])
  }

  /** What the loop appends for one walked node. */
  function NodeErrors(n: Node): seq<string> {
    if n.StmtNode? && n.s.Import? then AliasErrors(n.s.names)
    else if n.ExprNode? && n.e.Call? && n.e.func.Name? && n.e.func.id in ForbiddenFunctions then
      [CallMessage(n.e.func.id)]
    else []
  }

  /** `check_security(code)`: `None` when parsing raises, else every error in walk order. */
  method CheckSecurity(parsed: ParseResult) returns (errors: Option<seq<string>>)
    ensures errors.None? <==> parsed.SyntaxError?
    ensures parsed.Parsed? ==> errors == Some(Collect(Walk(ModuleNode(parsed.tree)), NodeErrors))
  {
    if parsed.SyntaxError? {
      return None;
    }
    var walk := Walk(ModuleNode(parsed.tree));
    var found: seq<string> := [];
    var i := 0;
    while i < |walk|
      invariant 0 <= i <= |walk|
      invariant found == Collect(walk[..i], NodeErrors)
    {
      var node := walk[i];
      if node.StmtNode? && node.s.Import? {
        var aliasErrors := AliasLoop(node.s.names);
        found := found + aliasErrors;
      }
      if node.ExprNode? && node.e.Call? {
        if node.e.func.Name? {
          if node.e.func.id in ForbiddenFunctions {
            found := found + [CallMessage(node.e.func.id)];
          }
        }
      }
      CollectStep(walk, i, NodeErrors);
      i := i + 1;
    }
    CollectFull(walk, NodeErrors);
    return Some(found);
  }

  /** The loop over the aliases of one `import`. */
  method AliasLoop(names: seq<string>) returns (errors: seq<string>)
    ensures errors == AliasErrors(names)
  {
    errors := [];
    var j := 0;
    while j < |names|
      invariant 0 <= j <= |names|
      invariant errors == AliasErrors(names[..j])
    {
      assert names[..j + 1][..j] == names[..j];
      if names[j] in ForbiddenImports {
        errors := errors + [ImportMessage(names[j])];
      }
      j := j + 1;
    }
    assert names[..|names|] == names;
  }

  /** The number of aliases that are exactly a forbidden module name. */
  function ForbiddenCount(names: seq<string>): nat {
    if names == [] then 0
    else ForbiddenCount(names[..|names| - 1]) + (if names[|names| - 1] in ForbiddenImports then 1 else 0)
  }

  /** One error per offending alias, each naming an alias that is exactly a forbidden name. */
  lemma {:induction false} AliasErrorsFacts(names: seq<string>)
    ensures |AliasErrors(names)| == ForbiddenCount(names)
    ensures forall x :: x in AliasErrors(names) ==> exists a :: a in names && a in ForbiddenImports && x == ImportMessage(a)
  {
    if names != [] {
      var init := names[..|names| - 1];
      AliasErrorsFacts(init);
      forall x | x in AliasErrors(names)
        ensures exists a :: a in names && a in ForbiddenImports && x == ImportMessage(a)
      {
        if x in AliasErrors(init) {
          var a :| a in init && a in ForbiddenImports && x == ImportMessage(a);
          assert a in names;
        } else {
          assert x == ImportMessage(names[|names| - 1]);
        }
      }
    }
  }

  /** An `import` of one name is flagged exactly for a forbidden name; `import os.path` is not. */
  lemma ExactNameOnly(name: string)
    ensures NodeErrors(StmtNode(Import([name]))) != [] <==> name in ForbiddenImports
    ensures NodeErrors(StmtNode(Import(["os.path"]))) == []
  {
    assert [name][..0] == [];
    assert AliasErrors([name]) == AliasErrors([]) + (if name in ForbiddenImports then [ImportMessage(name)] else []);
    assert ["os.path"][..0] == [];
    assert "os.path" !in ForbiddenImports;
  }

  /** `from ... import` statements and attribute calls are never flagged. */
  lemma FromAndAttributeNeverFlagged(m: Option<string>, names: seq<string>, base: Expr, attr: string,
                                     args: seq<Expr>, keywords: seq<Keyword>)
    ensures NodeErrors(StmtNode(ImportFrom(m, names))) == []
    ensures NodeErrors(ExprNode(Call(Attribute(base, attr), args, keywords))) == []
  {
  }

  /** A node that imports a forbidden name exactly, or calls a forbidden builtin by name. */
  predicate Offends(n: Node) {
    (n.StmtNode? && n.s.Import? && exists a :: a in n.s.names && a in ForbiddenImports) ||
    (n.ExprNode? && n.e.Call? && n.e.func.Name? && n.e.func.id in ForbiddenFunctions)
  }

  /** The scan reports nothing exactly when no walked node offends. */
  lemma NoErrorsIff(tree: seq<Stmt>)
    ensures Collect(Walk(ModuleNode(tree)), NodeErrors) == [] <==>
            forall m :: m in Walk(ModuleNode(tree)) ==> !Offends(m)
  {
    var walk := Walk(ModuleNode(tree));
    CollectEmpty(walk, NodeErrors);
    forall m | m in walk ensures NodeErrors(m) == [] <==> !Offends(m) {
      if m.StmtNode? && m.s.Import? {
        AliasErrorsFacts(m.s.names);
        AliasErrorsNonEmpty(m.s.names);
      }
    }
    if forall m :: m in walk ==> !Offends(m) {
      forall i | 0 <= i < |walk| ensures NodeErrors(walk[i]) == [] {
        assert walk[i] in walk;
      }
    }
  }

  /** Some alias is forbidden exactly when the aliases yield an error. */
  lemma {:induction false} AliasErrorsNonEmpty(names: seq<string>)
    ensures AliasErrors(names) != [] <==> exists a :: a in names && a in ForbiddenImports
  {
    if names != [] {
      var init := names[..|names| - 1];
      AliasErrorsNonEmpty(init);
      assert names == init + [names[|names| - 1]];
    }
  }
}
