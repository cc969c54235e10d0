/** The scans the Python code chunker makes over a syntax tree before it cuts
    the tree into records: the top-level imports, the map from each imported
    name to the text of its import statement, the top-level variables, and
    the identifiers a definition uses. */
module CodeScan {
  import opened Common
  import opened Syntax

  predicate IsImport(n: Node)
  {
    n.kind == "import_statement" || n.kind == "import_from_statement"
  }

  /** The import statements among a run of nodes, in order. */
  function ImportNodes(ns: seq<Node>): seq<Node>
  {
    if ns == [] then []
    else
      var last := ns[|ns| - 1];
      ImportNodes(ns[..|ns| - 1]) + (if IsImport(last) then [last] else [])
  }

  /** collect_imports */
  method CollectImports(root: Node) returns (imports: seq<Node>)
    ensures imports == ImportNodes(root.children)
  {
    imports := [];
    for i := 0 to |root.children|
      invariant imports == ImportNodes(root.children[..i])
    {
      var child := root.children[i];
      assert root.children[..i + 1][..i] == root.children[..i];
      if IsImport(child) {
        imports := imports + [child];
      }
    }
    assert root.children[..|root.children|] == root.children;
  }

  /** The imports are exactly the import statements of the run, each kept
      where it stands: the result is the run with everything else taken out. */
  lemma {:induction false} ImportNodesSpec(ns: seq<Node>)
    ensures |ImportNodes(ns)| <= |ns|
    ensures forall n :: n in ImportNodes(ns) <==> n in ns && IsImport(n)
  {
    if ns != [] {
      var init := ns[..|ns| - 1];
      ImportNodesSpec(init);
      assert ns == init + [ns[|ns| - 1]];
    }
  }

  /** The names one child of an import statement binds: a dotted name binds
      itself, `name as alias` binds the alias. */
  function ChildBinding(c: Node, importText: string): seq<(string, string)>
    requires WellFormed(c)
  {
    if c.kind == "dotted_name" then [(c.text, importText)]
    else if c.kind == "aliased_import" then [(c.children[2].text, importText)]
    else []
  }

  function ChildBindings(cs: seq<Node>, importText: string): seq<(string, string)>
    requires forall c | c in cs :: WellFormed(c)
  {
    if cs == [] then []
    else ChildBindings(cs[..|cs| - 1], importText) + ChildBinding(cs[|cs| - 1], importText)
  }

  /** The children of an import statement that may name something: for
      `from m import ...` the children from the fourth on (the first three
      are `from`, the module and `import`), for `import ...` every child. */
  function NameChildren(imp: Node): seq<Node>
  {
    if imp.kind == "import_from_statement" then (if |imp.children| > 3 then imp.children[3..] else [])
    else if imp.kind == "import_statement" then imp.children
    else []
  }

  /** The (name, import text) pairs one import statement contributes. */
  function Bindings(imp: Node): seq<(string, string)>
    requires WellFormed(imp)
  {
    ChildBindings(NameChildren(imp), imp.text)
  }

  /** The pairs of a run of import statements, in order. */
  function AllBindings(imps: seq<Node>): seq<(string, string)>
    requires forall n | n in imps :: WellFormed(n)
  {
    if imps == [] then []
    else AllBindings(imps[..|imps| - 1]) + Bindings(imps[|imps| - 1])
  }

  /** The map a run of assignments `m[name] = text` leaves behind. */
  function Assign(m: map<string, string>, bs: seq<(string, string)>): map<string, string>
  {
    if bs == [] then m
    else Assign(m, bs[..|bs| - 1])[bs[|bs| - 1].0 := bs[|bs| - 1].1]
  }

  lemma NameChildrenWellFormed(imp: Node)
    requires WellFormed(imp)
    ensures forall c | c in NameChildren(imp) :: WellFormed(c)
  {
    if imp.kind == "import_from_statement" && |imp.children| > 3 {
      forall c | c in imp.children[3..]
        ensures WellFormed(c)
      {
        assert c in imp.children;
      }
    }
  }

  /** build_import_map */
  method BuildImportMap(imports: seq<Node>) returns (importMap: map<string, string>)
    requires forall n | n in imports :: WellFormed(n)
    ensures importMap == Assign(map[], AllBindings(imports))
  {
    importMap := map[];
    for i := 0 to |imports|
      invariant importMap == Assign(map[], AllBindings(imports[..i]))
    {
      var imp := imports[i];
      assert imports[..i + 1][..i] == imports[..i];
      NameChildrenWellFormed(imp);
      importMap := BindNames(importMap, NameChildren(imp), imp.text);
      AssignAppend(map[], AllBindings(imports[..i]), Bindings(imp));
    }
    assert imports[..|imports|] == imports;
  }

  /** The inner loop of build_import_map over the children of one import
      statement. */
  method BindNames(m: map<string, string>, names: seq<Node>, importText: string)
    returns (importMap: map<string, string>)
    requires forall c | c in names :: WellFormed(c)
    ensures importMap == Assign(m, ChildBindings(names, importText))
  {
    importMap := m;
    for j := 0 to |names|
      invariant importMap == Assign(m, ChildBindings(names[..j], importText))
    {
      var child := names[j];
      assert names[..j + 1][..j] == names[..j];
      AssignSnoc(m, ChildBindings(names[..j], importText), ChildBinding(child, importText));
      if child.kind == "dotted_name" {
        importMap := importMap[child.text := importText];
      } else if child.kind == "aliased_import" {
        importMap := importMap[child.children[2].text := importText];
      }
    }
    assert names[..|names|] == names;
  }

  lemma AssignSnoc(m: map<string, string>, bs: seq<(string, string)>, extra: seq<(string, string)>)
    requires |extra| <= 1
    ensures Assign(m, bs + extra) == if extra == [] then Assign(m, bs) else Assign(m, bs)[extra[0].0 := extra[0].1]
  {
    if extra == [] {
      assert bs + extra == bs;
    } else {
      assert (bs + extra)[..|bs|] == bs;
    }
  }

  lemma {:induction false} AssignAppend(m: map<string, string>, a: seq<(string, string)>, b: seq<(string, string)>)
    ensures Assign(m, a + b) == Assign(Assign(m, a), b)
  {
    if b == [] {
      assert a + b == a;
    } else {
      assert (a + b)[..|a + b| - 1] == a + b[..|b| - 1];
      AssignAppend(m, a, b[..|b| - 1]);
    }
  }

  /** Starting from the empty map, a name is mapped exactly when some
      assignment binds it. */
  lemma {:induction false} AssignDomain(bs: seq<(string, string)>, k: string)
    ensures k in Assign(map[], bs) <==> exists j :: 0 <= j < |bs| && bs[j].0 == k
  {
    if bs != [] {
      var init := bs[..|bs| - 1];
      AssignDomain(init, k);
      if exists j :: 0 <= j < |bs| && bs[j].0 == k {
        var j :| 0 <= j < |bs| && bs[j].0 == k;
        if j < |init| { assert init[j].0 == k; }
      }
      if exists j :: 0 <= j < |init| && init[j].0 == k {
        var j :| 0 <= j < |init| && init[j].0 == k;
        assert bs[j] == init[j];
      }
    }
  }

  /** A mapped name is mapped to the text of the LAST assignment that binds
      it. */
  lemma {:induction false} AssignLastWins(bs: seq<(string, string)>, k: string)
    requires k in Assign(map[], bs)
    ensures exists j :: 0 <= j < |bs| && bs[j] == (k, Assign(map[], bs)[k])
                        && forall j' :: j < j' < |bs| ==> bs[j'].0 != k
  {
    var init := bs[..|bs| - 1];
    var last := bs[|bs| - 1];
    if last.0 == k {
      assert bs[|bs| - 1] == (k, Assign(map[], bs)[k]);
    } else {
      AssignLastWins(init, k);
      var j :| 0 <= j < |init| && init[j] == (k, Assign(map[], init)[k])
               && forall j' :: j < j' < |init| ==> init[j'].0 != k;
      assert bs[j] == init[j];
      assert forall j' :: j < j' < |bs| ==> bs[j'].0 != k by {
        forall j' | j < j' < |bs|
          ensures bs[j'].0 != k
        {
          if j' < |init| { assert bs[j'] == init[j']; }
        }
      }
    }
  }

  /** The import map: each imported name or alias maps to the text of the
      last import statement that binds it. */
  lemma ImportMapSpec(imports: seq<Node>, k: string)
    requires forall n | n in imports :: WellFormed(n)
    ensures var m := Assign(map[], AllBindings(imports)); var bs := AllBindings(imports);
      && (k in m <==> exists j :: 0 <= j < |bs| && bs[j].0 == k)
      && (k in m ==> exists j :: 0 <= j < |bs| && bs[j] == (k, m[k]) && forall j' :: j < j' < |bs| ==> bs[j'].0 != k)
  {
    AssignDomain(AllBindings(imports), k);
    if k in Assign(map[], AllBindings(imports)) {
      AssignLastWins(AllBindings(imports), k);
    }
  }

  /** The name a top-level statement `name = ...` assigns, if it is one. */
  function AssignedName(n: Node): Option<string>
    requires WellFormed(n)
  {
    if n.kind == "expression_statement" then
      var assignment := n.children[0];
      if assignment.kind == "assignment" && assignment.left.Some? && assignment.left.value.kind == "identifier"
      then Some(assignment.left.value.text)
      else None
    else None
  }

  /** The names the top-level assignments of a run of statements assign, in
      order (a name assigned twice is listed twice). */
  function ModuleVariables(ns: seq<Node>): seq<string>
    requires forall n | n in ns :: WellFormed(n)
  {
    if ns == [] then []
    else
      var last := AssignedName(ns[|ns| - 1]);
      ModuleVariables(ns[..|ns| - 1]) + (if last.Some? then [last.value] else [])
  }

  /** collect_module_variables */
  method CollectModuleVariables(root: Tree) returns (moduleVariables: seq<string>)
    ensures moduleVariables == ModuleVariables(root.children)
  {
    moduleVariables := [];
    for i := 0 to |root.children|
      invariant moduleVariables == ModuleVariables(root.children[..i])
    {
      var child := root.children[i];
      assert root.children[..i + 1][..i] == root.children[..i];
      assert WellFormed(root) && child in root.children;
      assert WellFormed(child);
      if child.kind == "expression_statement" {
        var assignment := child.children[0];
        if assignment.kind == "assignment" {
          var target := assignment.left;
          if target.Some? && target.value.kind == "identifier" {
            moduleVariables := moduleVariables + [target.value.text];
          }
        }
      }
    }
    assert root.children[..|root.children|] == root.children;
  }

  /** A name is a module variable exactly when some top-level statement
      assigns it, and there are no more of them than statements. */
  lemma ModuleVariablesSpec(ns: seq<Node>, x: string)
    requires forall n | n in ns :: WellFormed(n)
    ensures |ModuleVariables(ns)| <= |ns|
    ensures x in ModuleVariables(ns) <==> exists i :: 0 <= i < |ns| && AssignedName(ns[i]) == Some(x)
  {
    ModuleVariablesLength(ns);
    if x in ModuleVariables(ns) {
      var i := ModuleVariableSource(ns, x);
    }
    forall i | 0 <= i < |ns| && AssignedName(ns[i]) == Some(x)
      ensures x in ModuleVariables(ns)
    {
      ModuleVariableListed(ns, i);
    }
  }

  lemma {:induction false} ModuleVariablesLength(ns: seq<Node>)
    requires forall n | n in ns :: WellFormed(n)
    ensures |ModuleVariables(ns)| <= |ns|
  {
    if ns != [] {
      ModuleVariablesLength(ns[..|ns| - 1]);
    }
  }

  /** Every listed name comes from a top-level assignment. */
  lemma {:induction false} ModuleVariableSource(ns: seq<Node>, x: string) returns (i: nat)
    requires forall n | n in ns :: WellFormed(n)
    requires x in ModuleVariables(ns)
    ensures i < |ns| && AssignedName(ns[i]) == Some(x)
  {
    var init, n := ns[..|ns| - 1], ns[|ns| - 1];
    assert WellFormed(n) by { assert n in ns; }
    if x in ModuleVariables(init) {
      i := ModuleVariableSource(init, x);
      assert ns[i] == init[i];
    } else {
      i := |ns| - 1;
    }
  }

  /** Every top-level assignment's name is listed. */
  lemma {:induction false} ModuleVariableListed(ns: seq<Node>, i: nat)
    requires forall n | n in ns :: WellFormed(n)
    requires i < |ns| && AssignedName(ns[i]).Some?
    ensures AssignedName(ns[i]).value in ModuleVariables(ns)
  {
    var init, n := ns[..|ns| - 1], ns[|ns| - 1];
    if i < |init| {
      assert ns[i] == init[i];
      ModuleVariableListed(init, i);
    }
  }

  /** collect_identifiers: the identifiers of a tree, where a function or
      class definition contributes only the identifiers of its parameters and
      return type (its name and body are not visited). */
  function Idents(n: Node): set<string>
    decreases n, 1
  {
    if n.kind == "identifier" then {n.text}
    else if IsDefinition(n) then
      (if n.parameters.Some? then Idents(n.parameters.value) else {})
      + (if n.returnType.Some? then Idents(n.returnType.value) else {})
    else IdentsOf(n.children)
  }

  function IdentsOf(ns: seq<Node>): set<string>
    decreases ns, 0
  {
    if ns == [] then {} else IdentsOf(ns[..|ns| - 1]) + Idents(ns[|ns| - 1])
  }

  /** collect_identifiers_from_type_annotations: the texts of the `type`,
      `type_identifier` and `identifier` nodes of a tree, not looking inside
      them. */
  function TypeNames(n: Node): set<string>
    decreases n, 1
  {
    if n.kind == "type" || n.kind == "type_identifier" || n.kind == "identifier" then {n.text}
    else TypeNamesOf(n.children)
  }

  function TypeNamesOf(ns: seq<Node>): set<string>
    decreases ns, 0
  {
    if ns == [] then {} else TypeNamesOf(ns[..|ns| - 1]) + TypeNames(ns[|ns| - 1])
  }

  /** An identifier the collector can reach: an identifier node, or one
      below a node that is neither an identifier nor a definition, or one in
      the parameters or return type of a definition. */
  ghost predicate Visible(n: Node, x: string)
    decreases n
  {
    if n.kind == "identifier" then n.text == x
    else if IsDefinition(n) then
      (n.parameters.Some? && Visible(n.parameters.value, x))
      || (n.returnType.Some? && Visible(n.returnType.value, x))
    else exists i :: 0 <= i < |n.children| && Visible(n.children[i], x)
  }

  lemma {:induction false} IdentsIffVisible(n: Node, x: string)
    ensures x in Idents(n) <==> Visible(n, x)
    decreases n, 1
  {
    if n.kind == "identifier" {
    } else if IsDefinition(n) {
      if n.parameters.Some? { IdentsIffVisible(n.parameters.value, x); }
      if n.returnType.Some? { IdentsIffVisible(n.returnType.value, x); }
    } else {
      IdentsOfIffVisible(n.children, x);
    }
  }

  lemma {:induction false} IdentsOfIffVisible(ns: seq<Node>, x: string)
    ensures x in IdentsOf(ns) <==> exists i :: 0 <= i < |ns| && Visible(ns[i], x)
    decreases ns, 0
  {
    if ns != [] {
      var init := ns[..|ns| - 1];
      IdentsOfIffVisible(init, x);
      IdentsIffVisible(ns[|ns| - 1], x);
      if exists i :: 0 <= i < |ns| && Visible(ns[i], x) {
        var i :| 0 <= i < |ns| && Visible(ns[i], x);
        if i < |init| { assert init[i] == ns[i]; }
      }
      if exists i :: 0 <= i < |init| && Visible(init[i], x) {
        var i :| 0 <= i < |init| && Visible(init[i], x);
        assert ns[i] == init[i];
      }
    }
  }

  /** A name the type-annotation collector can reach: the text of a `type`,
      `type_identifier` or `identifier` node that has no such node above it. */
  ghost predicate TypeVisible(n: Node, x: string)
    decreases n
  {
    if n.kind == "type" || n.kind == "type_identifier" || n.kind == "identifier" then n.text == x
    else exists i :: 0 <= i < |n.children| && TypeVisible(n.children[i], x)
  }

  lemma {:induction false} TypeNamesIffVisible(n: Node, x: string)
    ensures x in TypeNames(n) <==> TypeVisible(n, x)
    decreases n, 1
  {
    if !(n.kind == "type" || n.kind == "type_identifier" || n.kind == "identifier") {
      TypeNamesOfIffVisible(n.children, x);
    }
  }

  lemma {:induction false} TypeNamesOfIffVisible(ns: seq<Node>, x: string)
    ensures x in TypeNamesOf(ns) <==> exists i :: 0 <= i < |ns| && TypeVisible(ns[i], x)
    decreases ns, 0
  {
    if ns != [] {
      var init := ns[..|ns| - 1];
      TypeNamesOfIffVisible(init, x);
      TypeNamesIffVisible(ns[|ns| - 1], x);
      if exists i :: 0 <= i < |ns| && TypeVisible(ns[i], x) {
        var i :| 0 <= i < |ns| && TypeVisible(ns[i], x);
        if i < |init| { assert init[i] == ns[i]; }
      }
      if exists i :: 0 <= i < |init| && TypeVisible(init[i], x) {
        var i :| 0 <= i < |init| && TypeVisible(init[i], x);
        assert ns[i] == init[i];
      }
    }
  }

  /** The identifier set the collectors add to, shared by reference between
      the recursive calls as in the source. */
  class IdentifierSet {
    var names: set<string>

    constructor ()
      ensures names == {}
    {
      names := {};
    }

    method CollectIdentifiers(node: Node)
      modifies this
      ensures names == old(names) + Idents(node)
      decreases node, 1
    {
      if node.kind == "identifier" {
        names := names + {node.text};
      } else if IsDefinition(node) {
        if node.parameters.Some? {
          CollectIdentifiers(node.parameters.value);
        }
        if node.returnType.Some? {
          CollectIdentifiers(node.returnType.value);
        }
      } else {
        CollectEach(node.children);
      }
    }

    method CollectEach(ns: seq<Node>)
      modifies this
      ensures names == old(names) + IdentsOf(ns)
      decreases ns, 0
    {
      for i := 0 to |ns|
        invariant names == old(names) + IdentsOf(ns[..i])
      {
        assert ns[..i + 1][..i] == ns[..i];
        CollectIdentifiers(ns[i]);
      }
      assert ns[..|ns|] == ns;
    }

    method CollectTypeNames(node: Node)
      modifies this
      ensures names == old(names) + TypeNames(node)
      decreases node, 1
    {
      if node.kind == "type" || node.kind == "type_identifier" || node.kind == "identifier" {
        names := names + {node.text};
      } else {
        CollectEachTypeNames(node.children);
      }
    }

    method CollectEachTypeNames(ns: seq<Node>)
      modifies this
      ensures names == old(names) + TypeNamesOf(ns)
      decreases ns, 0
    {
      for i := 0 to |ns|
        invariant names == old(names) + TypeNamesOf(ns[..i])
      {
        assert ns[..i + 1][..i] == ns[..i];
        CollectTypeNames(ns[i]);
      }
      assert ns[..|ns|] == ns;
    }
  }
}
