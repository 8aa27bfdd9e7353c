// The semantic analyzer (analyzer/analyzer.go) and its scope of declared
// import names with reference counts (the scope API of
// internal/compiler/semantic/scope.go).

module Analysis {
  import opened Wrappers
  import opened RawAst

  /** Error kinds of the analyzer. The joined unused-variable error is the
      set of names it reports (one ErrUnusedVariable each; the source joins
      them in map iteration order, which is unspecified). */
  datatype AnalyzeError =
    | EmptyVarPath
    | UndefinedVariable(name: string)
    | UnusedVariables(names: set<string>)

  /** The declared names that have never been referenced. */
  function Unused(vars: map<string, nat>): (u: set<string>)
    ensures forall n :: n in u <==> n in vars && vars[n] == 0
  {
    set n | n in vars && vars[n] == 0
  }

  /** What checkVariableRefs returns for a scope. */
  function RefsCheck(vars: map<string, nat>): (r: Option<AnalyzeError>)
    ensures r.None? <==> forall n :: n in vars ==> vars[n] > 0
    ensures r.Some? ==> r.value == UnusedVariables(Unused(vars))
  {
    if Unused(vars) == {} then None else Some(UnusedVariables(Unused(vars)))
  }

  /** The scope after one handler call, and the handler's error. */
  datatype Visited = Visited(vars: map<string, nat>, err: Option<AnalyzeError>)

  /** checkVar: the head of the path must be declared; its count grows by one. */
  function CheckVarSpec(vars: map<string, nat>, v: Var): (r: Visited)
    ensures r.err.None? <==> |v.path| > 0 && v.path[0].name in vars
    ensures r.err.None? ==> r.vars == vars[v.path[0].name := vars[v.path[0].name] + 1]
    ensures r.err.Some? ==> r.vars == vars
    ensures r.err.Some? && |v.path| > 0 ==> r.err.value == UndefinedVariable(v.path[0].name)
  {
    if |v.path| == 0 then Visited(vars, Some(EmptyVarPath))
    else
      var name := v.path[0].name;
      if name !in vars then Visited(vars, Some(UndefinedVariable(name)))
      else Visited(vars[name := vars[name] + 1], None)
  }

  /** Visit: an import declares its name with a zero count, a var is
      checked, every other node is accepted unchanged. */
  function VisitSpec(vars: map<string, nat>, node: Node): (r: Visited)
    ensures node.ImportNode? ==> r == Visited(vars[node.imp.name.name := 0], None)
    ensures !node.ImportNode? ==> r.vars.Keys == vars.Keys
  {
    match node
    case ImportNode(imp) => Visited(vars[imp.name.name := 0], None)
    case ExprNode(VarExpr(v)) => CheckVarSpec(vars, v)
    case _ => Visited(vars, None)
  }

  /** The handler applied to the nodes in order, stopping at the first error. */
  function Walk(vars: map<string, nat>, nodes: seq<Node>): (r: Visited)
    ensures vars.Keys <= r.vars.Keys
    ensures r.err.Some? ==> exists i :: 0 <= i < |nodes| && nodes[i].ExprNode? && nodes[i].e.VarExpr?
    decreases |nodes|
  {
    if nodes == [] then Visited(vars, None)
    else
      var first := VisitSpec(vars, nodes[0]);
      if first.err.Some? then first else Walk(first.vars, nodes[1..])
  }

  /** The result of Analyze from a scope holding `vars`. */
  function AnalyzeResult(w: Visited): Result<(), AnalyzeError>
  {
    if w.err.Some? then Err(w.err.value)
    else match RefsCheck(w.vars)
      case None => Ok(())
      case Some(e) => Err(e)
  }

  class Scope {
    /** Each declared name and its reference count (`refs uint` in the
        source, whose wrap-around is not modelled). */
    var variables: map<string, nat>

    /** newScope: no names. */
    constructor()
      ensures variables == map[]
    {
      variables := map[];
    }

    /** addVariable: declare (or re-declare) a name with zero references. */
    method AddVariable(name: string)
      modifies this
      ensures variables == old(variables)[name := 0]
    {
      variables := variables[name := 0];
    }

    function HasVariable(name: string): (b: bool)
      reads this
      ensures b <==> name in variables
    {
      name in variables
    }

    /** incrRef: the source dereferences the map entry, so the name must
        be present. */
    method IncrRef(name: string)
      requires name in variables
      modifies this
      ensures variables == old(variables)[name := old(variables)[name] + 1]
    {
      variables := variables[name := variables[name] + 1];
    }

    /** checkVariableRefs: one unused-variable error per name with no
        references, joined; nothing when every name is used. */
    method CheckVariableRefs() returns (r: Option<AnalyzeError>)
      ensures r == RefsCheck(variables)
    {
      var unused: set<string> := {};
      var rest := variables.Keys;
      while rest != {}
        invariant rest <= variables.Keys
        invariant unused == set n | n in variables.Keys - rest && variables[n] == 0
        decreases rest
      {
        var n :| n in rest;
        if variables[n] == 0 {
          unused := unused + {n};
        }
        rest := rest - {n};
      }
      assert unused == Unused(variables);
      if unused == {} {
        return None;
      }
      return Some(UnusedVariables(unused));
    }
  }

  class Analyzer {
    /** Created once by New and never reset: names and counts carry over
        from one analysed file to the next. */
    const scope: Scope

    constructor()
      ensures fresh(scope) && scope.variables == map[]
    {
      scope := new Scope();
    }

    method CheckVar(v: Var) returns (err: Option<AnalyzeError>)
      modifies scope
      ensures Visited(scope.variables, err) == CheckVarSpec(old(scope.variables), v)
    {
      if |v.path| == 0 {
        return Some(EmptyVarPath);
      }
      var first := v.path[0];
      if !scope.HasVariable(first.name) {
        return Some(UndefinedVariable(first.name));
      }
      scope.IncrRef(first.name);
      return None;
    }

    method Visit(node: Node) returns (err: Option<AnalyzeError>)
      modifies scope
      ensures Visited(scope.variables, err) == VisitSpec(old(scope.variables), node)
    {
      match node {
        case ImportNode(imp) =>
          scope.AddVariable(imp.name.name);
          return None;
        case ExprNode(VarExpr(v)) =>
          err := CheckVar(v);
        case _ =>
          return None;
      }
    }

    /** Analyze: the handler over the inspect walk of the file (stopping at
        the first error, which is returned as is), then the unused check.
        The scope keeps whatever the walk did to it, even on error. */
    method Analyze(f: File) returns (r: Result<(), AnalyzeError>)
      modifies scope
      ensures scope.variables == Walk(old(scope.variables), VisitFile(f)).vars
      ensures r == AnalyzeResult(Walk(old(scope.variables), VisitFile(f)))
    {
      var nodes := VisitFile(f);
      var i := 0;
      while i < |nodes|
        invariant 0 <= i <= |nodes|
        invariant Walk(old(scope.variables), nodes) == Walk(scope.variables, nodes[i..])
        decreases |nodes| - i
      {
        var err := Visit(nodes[i]);
        assert nodes[i..][0] == nodes[i] && nodes[i..][1..] == nodes[i + 1..];
        if err.Some? {
          return Err(err.value);
        }
        i := i + 1;
      }
      var refs := scope.CheckVariableRefs();
      if refs.Some? {
        return Err(refs.value);
      }
      return Ok(());
    }
  }

  // ---- what the analysis of one file means ----

  /** The walk over a concatenation is the walk over the first part, then,
      if that part raised nothing, the walk over the second. */
  lemma {:induction false} WalkAppend(vars: map<string, nat>, a: seq<Node>, b: seq<Node>)
    ensures Walk(vars, a + b) ==
      (var w := Walk(vars, a); if w.err.Some? then w else Walk(w.vars, b))
    decreases |a|
  {
    if a == [] {
      assert a + b == b;
    } else {
      assert (a + b)[0] == a[0];
      assert (a + b)[1..] == a[1..] + b;
      var first := VisitSpec(vars, a[0]);
      if first.err.None? {
        WalkAppend(first.vars, a[1..], b);
      }
    }
  }

  /** The names the imports of a file declare. */
  function ImportNames(imports: seq<Import>): (names: set<string>)
    ensures forall i :: 0 <= i < |imports| ==> imports[i].name.name in names
    ensures forall n :: n in names ==> exists i :: 0 <= i < |imports| && imports[i].name.name == n
  {
    set i | 0 <= i < |imports| :: imports[i].name.name
  }

  /** Visiting the imports never fails; it declares every imported name
      with a zero count and leaves every other name alone. */
  lemma {:induction false} ImportsDeclare(vars: map<string, nat>, imports: seq<Import>)
    ensures var w := Walk(vars, VisitImports(imports));
      w.err.None? &&
      w.vars.Keys == vars.Keys + ImportNames(imports) &&
      (forall n :: n in ImportNames(imports) ==> w.vars[n] == 0) &&
      (forall n :: n in vars && n !in ImportNames(imports) ==> w.vars[n] == vars[n])
    decreases |imports|
  {
    if imports != [] {
      var nodes := VisitImports(imports);
      assert nodes[0] == ImportNode(imports[0]) && nodes[1..] == VisitImports(imports[1..]);
      var vars1 := vars[imports[0].name.name := 0];
      ImportsDeclare(vars1, imports[1..]);
      assert ImportNames(imports) == {imports[0].name.name} + ImportNames(imports[1..]) by {
        forall n | n in ImportNames(imports)
          ensures n in {imports[0].name.name} + ImportNames(imports[1..])
        {
          var i :| 0 <= i < |imports| && imports[i].name.name == n;
          if i > 0 {
            assert imports[1..][i - 1] == imports[i];
          }
        }
      }
    }
  }

  /** How many references in `vs` have `n` as their head. */
  function CountHead(vs: seq<Var>, n: string): (c: nat)
    ensures c <= |vs|
  {
    if vs == [] then 0
    else (if |vs[0].path| > 0 && vs[0].path[0].name == n then 1 else 0) + CountHead(vs[1..], n)
  }

  /** Every reference in `vs` has a head, and the head is in `names`. */
  predicate AllHeadsDeclared(vs: seq<Var>, names: set<string>)
  {
    forall i :: 0 <= i < |vs| ==> |vs[i].path| > 0 && vs[i].path[0].name in names
  }

  /** Below the imports the walk declares nothing: it succeeds exactly when
      every reference's head is already declared, and then each name's
      count grows by the number of references to it. */
  lemma {:induction false} BodyWalk(vars: map<string, nat>, nodes: seq<Node>)
    requires NoObjectNode(nodes)
    ensures var w := Walk(vars, nodes);
      (w.err.None? <==> AllHeadsDeclared(VarNodes(nodes), vars.Keys)) &&
      (w.err.None? ==> w.vars.Keys == vars.Keys) &&
      (w.err.None? ==> forall n :: n in vars ==> w.vars[n] == vars[n] + CountHead(VarNodes(nodes), n))
    decreases |nodes|
  {
    if nodes != [] {
      var first := VisitSpec(vars, nodes[0]);
      var rest := nodes[1..];
      assert NoObjectNode(rest) by {
        forall i | 0 <= i < |rest|
          ensures rest[i].KVNode? || (rest[i].ExprNode? && !rest[i].e.ObjectExpr?)
        {
          assert rest[i] == nodes[i + 1];
        }
      }
      assert nodes[0].KVNode? || nodes[0].ExprNode?;
      var vs := VarNodes(nodes);
      if nodes[0].ExprNode? && nodes[0].e.VarExpr? {
        var v := nodes[0].e.v;
        assert vs == [v] + VarNodes(rest);
        assert vs[1..] == VarNodes(rest);
        if first.err.None? {
          BodyWalk(first.vars, rest);
          assert first.vars.Keys == vars.Keys;
          if AllHeadsDeclared(vs, vars.Keys) {
            assert AllHeadsDeclared(VarNodes(rest), vars.Keys) by {
              forall i | 0 <= i < |VarNodes(rest)|
                ensures |VarNodes(rest)[i].path| > 0 && VarNodes(rest)[i].path[0].name in vars.Keys
              {
                assert VarNodes(rest)[i] == vs[i + 1];
              }
            }
          }
          if AllHeadsDeclared(VarNodes(rest), vars.Keys) {
            assert AllHeadsDeclared(vs, vars.Keys) by {
              forall i | 0 <= i < |vs|
                ensures |vs[i].path| > 0 && vs[i].path[0].name in vars.Keys
              {
                if i > 0 {
                  assert vs[i] == VarNodes(rest)[i - 1];
                }
              }
            }
          }
        } else {
          assert !(|vs[0].path| > 0 && vs[0].path[0].name in vars.Keys);
        }
      } else {
        assert first == Visited(vars, None);
        assert vs == VarNodes(rest);
        BodyWalk(vars, rest);
      }
    }
  }

  /** A freshly created analyzer accepts a file exactly when every variable
      reference starts with an imported name and every imported name is
      referenced; the walk fails on the first reference to an undeclared
      name, and otherwise the reported unused names are exactly the imports
      nothing refers to. */
  lemma FreshAnalysis(f: File)
    ensures var w := Walk(map[], VisitFile(f));
      var vs := VarsOfExpr(ObjectExpr(f.obj));
      (w.err.None? <==> AllHeadsDeclared(vs, ImportNames(f.imports))) &&
      (w.err.None? ==> Unused(w.vars) == set n | n in ImportNames(f.imports) && CountHead(vs, n) == 0)
  {
    var imports := VisitImports(f.imports);
    var body := VisitExpr(ObjectExpr(f.obj));
    assert VisitFile(f) == [FileNode(f)] + (imports + body);
    assert Walk(map[], VisitFile(f)) == Walk(map[], imports + body);
    WalkAppend(map[], imports, body);
    ImportsDeclare(map[], f.imports);
    var vars1 := Walk(map[], imports).vars;
    VisitExprSkipsObjects(ObjectExpr(f.obj));
    VisitExprSeesAllVars(ObjectExpr(f.obj));
    BodyWalk(vars1, body);
  }
}
