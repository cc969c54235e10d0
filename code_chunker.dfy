/** The Python code chunker: it walks the syntax tree of a module and emits
    one record per class, function and method, each carrying the context a
    reader needs to understand it: the import statements and module
    variables it uses and the class or function it sits in.

    Python iterates a set in an order of its own; the methods below pick
    set elements in an unspecified order to match, and the specification
    functions describe the records with those lists turned into sets. */
module CodeChunker {
  import opened Common
  import opened Syntax
  import opened CodeScan

  /** The "type" of a record. The code chunker emits the first three; the
      renderer also knows "module". */
  datatype Kind = Function | Class | Method | Module

  /** The context dict of a record. The source inserts its keys in this
      order, and only the ones that apply; an absent list is None. */
  datatype Context = Context(
    imports: Option<seq<string>>,
    moduleVariables: Option<seq<string>>,
    parentClass: Option<string>,
    parentFunction: Option<string>)

  /** A record: its type, name, source text and context (None when empty). */
  datatype CodeChunk = CodeChunk(kind: Kind, name: string, definition: string, context: Option<Context>)

  /** The context dict handed down to the process functions: the enclosing
      class and function, when there is one. */
  datatype Scope = Scope(parentClass: Option<string>, parentFunction: Option<string>)

  const TopScope := Scope(None, None)

  /** A context with its lists read as sets. */
  datatype ContextShape = ContextShape(
    imports: set<string>,
    moduleVariables: set<string>,
    parentClass: Option<string>,
    parentFunction: Option<string>)

  datatype ChunkShape = ChunkShape(kind: Kind, name: string, definition: string, context: Option<ContextShape>)

  function Elements(xs: seq<string>): set<string>
  {
    set x | x in xs
  }

  predicate NoDuplicates(xs: seq<string>)
  {
    forall i, j :: 0 <= i < j < |xs| ==> xs[i] != xs[j]
  }

  function ElementsOf(o: Option<seq<string>>): set<string>
  {
    if o.Some? then Elements(o.value) else {}
  }

  /** A list the source stores in a context: present only when non-empty,
      and without repetitions. */
  predicate ListOk(o: Option<seq<string>>)
  {
    o.None? || (o.value != [] && NoDuplicates(o.value))
  }

  predicate Listed(ctx: Option<Context>)
  {
    ctx.None? || (ListOk(ctx.value.imports) && ListOk(ctx.value.moduleVariables))
  }

  predicate AllListed(chunks: seq<CodeChunk>)
  {
    forall i | 0 <= i < |chunks| :: Listed(chunks[i].context)
  }

  function ContextShapeOf(ctx: Option<Context>): Option<ContextShape>
  {
    if ctx.None? then None
    else Some(ContextShape(ElementsOf(ctx.value.imports), ElementsOf(ctx.value.moduleVariables),
                           ctx.value.parentClass, ctx.value.parentFunction))
  }

  function ShapeOf(c: CodeChunk): ChunkShape
  {
    ChunkShape(c.kind, c.name, c.definition, ContextShapeOf(c.context))
  }

  function Shapes(chunks: seq<CodeChunk>): (r: seq<ChunkShape>)
    ensures |r| == |chunks|
    ensures forall i :: 0 <= i < |chunks| ==> r[i] == ShapeOf(chunks[i])
  {
    seq(|chunks|, i requires 0 <= i < |chunks| => ShapeOf(chunks[i]))
  }

  lemma ShapesAppend(a: seq<CodeChunk>, b: seq<CodeChunk>)
    ensures Shapes(a + b) == Shapes(a) + Shapes(b)
    ensures AllListed(a) && AllListed(b) ==> AllListed(a + b)
  {
    assert forall i :: 0 <= i < |a + b| ==> Shapes(a + b)[i] == (Shapes(a) + Shapes(b))[i];
    if AllListed(a) && AllListed(b) {
      forall i | 0 <= i < |a + b|
        ensures Listed((a + b)[i].context)
      {
        if i >= |a| { assert (a + b)[i] == b[i - |a|]; }
      }
    }
  }

  /** One step of a loop that appends the records of one child. */
  lemma ShapesStep(chunks: seq<CodeChunk>, more: seq<CodeChunk>, head: seq<ChunkShape>, done: seq<ChunkShape>,
                   next: seq<ChunkShape>)
    requires Shapes(chunks) == head + done && Shapes(more) == next
    requires AllListed(chunks) && AllListed(more)
    ensures Shapes(chunks + more) == head + (done + next)
    ensures AllListed(chunks + more)
  {
    ShapesAppend(chunks, more);
  }

  /** The import statements of the identifiers found in the import map. */
  function UsedImports(ids: set<string>, importMap: map<string, string>): set<string>
  {
    set i | i in ids && i in importMap :: importMap[i]
  }

  /** The identifiers that are module variables. */
  function UsedVariables(ids: set<string>, moduleVariables: seq<string>): set<string>
  {
    set i | i in ids && i in moduleVariables
  }

  /** The context of a record using the identifiers `ids` inside `scope`:
      none at all when it uses no import or module variable and has no
      enclosing class or function. */
  function ContextSpec(ids: set<string>, importMap: map<string, string>, moduleVariables: seq<string>,
                       scope: Scope): Option<ContextShape>
  {
    var imports := UsedImports(ids, importMap);
    var variables := UsedVariables(ids, moduleVariables);
    if imports == {} && variables == {} && scope.parentClass.None? && scope.parentFunction.None? then None
    else Some(ContextShape(imports, variables, scope.parentClass, scope.parentFunction))
  }

  /** list(set(xs)) for the set of xs: its elements once each, in some order. */
  method ListOfSet(s: set<string>) returns (xs: seq<string>)
    ensures Elements(xs) == s && NoDuplicates(xs)
  {
    xs := [];
    var rest := s;
    while rest != {}
      invariant rest <= s
      invariant Elements(xs) == s - rest && NoDuplicates(xs)
      decreases |rest|
    {
      var x :| x in rest;
      ElementsSnoc(xs, x);
      xs := xs + [x];
      rest := rest - {x};
    }
  }

  lemma ElementsSnoc(xs: seq<string>, x: string)
    ensures Elements(xs + [x]) == Elements(xs) + {x}
    ensures NoDuplicates(xs) && x !in Elements(xs) ==> NoDuplicates(xs + [x])
  {
    assert forall y :: y in xs + [x] <==> y in xs || y == x;
    if NoDuplicates(xs) && x !in Elements(xs) {
      forall i, j | 0 <= i < j < |xs + [x]|
        ensures (xs + [x])[i] != (xs + [x])[j]
      {
        if j == |xs| { assert xs[i] in Elements(xs); }
      }
    }
  }

  lemma UsedAdd(done: set<string>, x: string, importMap: map<string, string>, moduleVariables: seq<string>)
    ensures UsedImports(done + {x}, importMap)
         == UsedImports(done, importMap) + (if x in importMap then {importMap[x]} else {})
    ensures UsedVariables(done + {x}, moduleVariables)
         == UsedVariables(done, moduleVariables) + (if x in moduleVariables then {x} else {})
  {
  }

  /** The loop over the identifier set shared by the process functions:
      look each identifier up in the import map and the module variables. */
  method CollectUsed(ids: set<string>, importMap: map<string, string>, moduleVariables: seq<string>)
    returns (usedImports: seq<string>, usedModuleVars: seq<string>)
    ensures Elements(usedImports) == UsedImports(ids, importMap)
    ensures Elements(usedModuleVars) == UsedVariables(ids, moduleVariables)
    ensures NoDuplicates(usedModuleVars)
  {
    usedImports := [];
    usedModuleVars := [];
    var rest := ids;
    ghost var done: set<string> := {};
    while rest != {}
      invariant done + rest == ids && done !! rest
      invariant Elements(usedImports) == UsedImports(done, importMap)
      invariant Elements(usedModuleVars) == UsedVariables(done, moduleVariables)
      invariant NoDuplicates(usedModuleVars)
      decreases |rest|
    {
      var ident :| ident in rest;
      CollectStep(done, ident, usedImports, usedModuleVars, importMap, moduleVariables);
      if ident in importMap {
        usedImports := usedImports + [importMap[ident]];
      }
      if ident in moduleVariables {
        usedModuleVars := usedModuleVars + [ident];
      }
      rest := rest - {ident};
      done := done + {ident};
    }
  }

  lemma CollectStep(done: set<string>, ident: string, usedImports: seq<string>, usedModuleVars: seq<string>,
                    importMap: map<string, string>, moduleVariables: seq<string>)
    requires ident !in done
    requires Elements(usedImports) == UsedImports(done, importMap)
    requires Elements(usedModuleVars) == UsedVariables(done, moduleVariables)
    requires NoDuplicates(usedModuleVars)
    ensures var imports := if ident in importMap then usedImports + [importMap[ident]] else usedImports;
      Elements(imports) == UsedImports(done + {ident}, importMap)
    ensures var variables := if ident in moduleVariables then usedModuleVars + [ident] else usedModuleVars;
      Elements(variables) == UsedVariables(done + {ident}, moduleVariables) && NoDuplicates(variables)
  {
    UsedAdd(done, ident, importMap, moduleVariables);
    if ident in importMap {
      ElementsSnoc(usedImports, importMap[ident]);
    }
    if ident in moduleVariables {
      ElementsSnoc(usedModuleVars, ident);
    }
  }

  /** The context a process function builds from the identifiers it
      collected and the scope it was given. */
  method BuildContext(ids: set<string>, importMap: map<string, string>, moduleVariables: seq<string>,
                      scope: Scope)
    returns (ctx: Option<Context>)
    ensures ContextShapeOf(ctx) == ContextSpec(ids, importMap, moduleVariables, scope)
    ensures Listed(ctx)
  {
    var usedImports, usedModuleVars := CollectUsed(ids, importMap, moduleVariables);
    var imports: Option<seq<string>> := None;
    if usedImports != [] {
      assert usedImports[0] in Elements(usedImports);
      var distinct := ListOfSet(Elements(usedImports));
      assert distinct != [] by {
        assert usedImports[0] in Elements(distinct);
      }
      imports := Some(distinct);
    }
    var variables: Option<seq<string>> := None;
    if usedModuleVars != [] {
      assert usedModuleVars[0] in Elements(usedModuleVars);
      variables := Some(usedModuleVars);
    }
    assert usedImports == [] ==> Elements(usedImports) == {};
    assert usedModuleVars == [] ==> Elements(usedModuleVars) == {};
    assert ElementsOf(imports) == UsedImports(ids, importMap);
    assert ElementsOf(variables) == UsedVariables(ids, moduleVariables);
    if imports.None? && variables.None? && scope.parentClass.None? && scope.parentFunction.None? {
      ctx := None;
    } else {
      ctx := Some(Context(imports, variables, scope.parentClass, scope.parentFunction));
    }
  }

  /** The first node at or after position i whose kind is one of `kinds`. */
  function FirstOfKind(ns: seq<Node>, i: nat, kinds: set<string>): (r: Option<Node>)
    requires i <= |ns|
    ensures r.Some? ==> r.value in ns && r.value.kind in kinds
    decreases |ns| - i
  {
    if i == |ns| then None
    else if ns[i].kind in kinds then Some(ns[i])
    else FirstOfKind(ns, i + 1, kinds)
  }

  const DefinitionKinds: set<string> := {"function_definition", "class_definition"}

  /** The record process_decorated_definition emits: named after the inner
      definition, holding the text of the whole decorated node, with the
      identifiers of the whole node. */
  function DecoratedChunks(node: Node, scope: Scope, importMap: map<string, string>,
                           moduleVariables: seq<string>): seq<ChunkShape>
    requires WellFormed(node)
  {
    var def := FirstOfKind(node.children, 0, DefinitionKinds);
    if def.None? then []
    else
      assert WellFormed(def.value);
      var kind := if def.value.kind == "function_definition" then (if scope.parentClass.Some? then Method else Function)
                  else Class;
      [ChunkShape(kind, def.value.name.value.text, node.text,
                  ContextSpec(Idents(node), importMap, moduleVariables, scope))]
  }

  method ProcessDecoratedDefinition(node: Node, scope: Scope, importMap: map<string, string>,
                                    moduleVariables: seq<string>)
    returns (chunks: seq<CodeChunk>)
    requires WellFormed(node)
    ensures Shapes(chunks) == DecoratedChunks(node, scope, importMap, moduleVariables)
    ensures AllListed(chunks)
  {
    chunks := [];
    var identifiers := new IdentifierSet();
    identifiers.CollectIdentifiers(node);
    var funcDef: Option<Node> := None;
    for i := 0 to |node.children|
      invariant funcDef.None?
      invariant FirstOfKind(node.children, i, DefinitionKinds) == FirstOfKind(node.children, 0, DefinitionKinds)
    {
      var child := node.children[i];
      if child.kind == "function_definition" || child.kind == "class_definition" {
        funcDef := Some(child);
        assert funcDef == FirstOfKind(node.children, 0, DefinitionKinds);
        break;
      }
    }
    assert funcDef == FirstOfKind(node.children, 0, DefinitionKinds);
    assert identifiers.names == Idents(node);
    if funcDef.Some? {
      var def := funcDef.value;
      assert WellFormed(def);
      var funcName := def.name.value.text;
      var funcCode := node.text;
      var funcContext := BuildContext(identifiers.names, importMap, moduleVariables, scope);
      var kind := if def.kind == "function_definition" then Function else Class;
      if scope.parentClass.Some? && def.kind == "function_definition" {
        kind := Method;
      }
      chunks := [CodeChunk(kind, funcName, funcCode, funcContext)];
    }
  }

  /** The identifiers process_function collects for a definition: those of
      its body, and the type names of its parameters and return type. */
  function FunctionIdents(node: Node): set<string>
    requires node.body.Some?
  {
    Idents(node.body.value)
    + (if node.parameters.Some? then TypeNames(node.parameters.value) else {})
    + (if node.returnType.Some? then TypeNames(node.returnType.value) else {})
  }

  /** The record of a function itself: a method inside a class scope. */
  function FunctionRecord(node: Node, scope: Scope, importMap: map<string, string>,
                          moduleVariables: seq<string>): ChunkShape
    requires node.name.Some? && node.body.Some?
  {
    ChunkShape(if scope.parentClass.Some? then Method else Function, node.name.value.text, node.text,
               ContextSpec(FunctionIdents(node), importMap, moduleVariables, scope))
  }

  /** The records of a function: its own, then those of the functions and
      decorated definitions directly in its body. A nested function gets the
      function as its parent; a nested decorated definition gets the
      function's own scope. */
  function FunctionChunks(node: Node, scope: Scope, importMap: map<string, string>,
                          moduleVariables: seq<string>): seq<ChunkShape>
    requires WellFormed(node) && node.name.Some? && node.body.Some?
    decreases node, 1
  {
    assert WellFormed(node.body.value);
    [FunctionRecord(node, scope, importMap, moduleVariables)]
    + NestedChunks(node.body.value.children, node.name.value.text, scope, importMap, moduleVariables)
  }

  function NestedChunks(cs: seq<Node>, funcName: string, scope: Scope, importMap: map<string, string>,
                        moduleVariables: seq<string>): seq<ChunkShape>
    requires forall c | c in cs :: WellFormed(c)
    decreases cs, 0
  {
    if cs == [] then []
    else
      var c := cs[|cs| - 1];
      assert WellFormed(c) by { assert c in cs; }
      NestedChunks(cs[..|cs| - 1], funcName, scope, importMap, moduleVariables)
      + NestedChunk(c, funcName, scope, importMap, moduleVariables)
  }

  /** The records of one statement of a function body. */
  function NestedChunk(c: Node, funcName: string, scope: Scope, importMap: map<string, string>,
                       moduleVariables: seq<string>): seq<ChunkShape>
    requires WellFormed(c)
    decreases c, 2
  {
    if c.kind == "function_definition" then
      FunctionChunks(c, scope.(parentFunction := Some(funcName)), importMap, moduleVariables)
    else if c.kind == "decorated_definition" then
      DecoratedChunks(c, scope, importMap, moduleVariables)
    else []
  }

  lemma NestedChunksSnoc(cs: seq<Node>, i: nat, funcName: string, scope: Scope, importMap: map<string, string>,
                         moduleVariables: seq<string>)
    requires i < |cs| && forall c | c in cs :: WellFormed(c)
    ensures NestedChunks(cs[..i + 1], funcName, scope, importMap, moduleVariables)
         == NestedChunks(cs[..i], funcName, scope, importMap, moduleVariables)
            + NestedChunk(cs[i], funcName, scope, importMap, moduleVariables)
  {
    assert cs[..i + 1][..i] == cs[..i];
  }

  /** The identifier collection and context building of process_function. */
  method FunctionContext(node: Node, scope: Scope, importMap: map<string, string>, moduleVariables: seq<string>)
    returns (funcContext: Option<Context>)
    requires node.body.Some?
    ensures ContextShapeOf(funcContext) == ContextSpec(FunctionIdents(node), importMap, moduleVariables, scope)
    ensures Listed(funcContext)
  {
    var identifiers := new IdentifierSet();
    var funcBody := node.body.value;
    identifiers.CollectIdentifiers(funcBody);
    if node.parameters.Some? {
      identifiers.CollectTypeNames(node.parameters.value);
    }
    if node.returnType.Some? {
      identifiers.CollectTypeNames(node.returnType.value);
    }
    assert identifiers.names == FunctionIdents(node);
    funcContext := BuildContext(identifiers.names, importMap, moduleVariables, scope);
  }

  method ProcessFunction(node: Node, scope: Scope, importMap: map<string, string>, moduleVariables: seq<string>)
    returns (chunks: seq<CodeChunk>)
    requires WellFormed(node) && node.name.Some? && node.body.Some?
    ensures Shapes(chunks) == FunctionChunks(node, scope, importMap, moduleVariables)
    ensures AllListed(chunks)
    decreases node
  {
    var funcName := node.name.value.text;
    var funcCode := node.text;
    var funcContext := FunctionContext(node, scope, importMap, moduleVariables);
    var kind := Function;
    if scope.parentClass.Some? {
      kind := Method;
    }
    chunks := [CodeChunk(kind, funcName, funcCode, funcContext)];
    ghost var head := [FunctionRecord(node, scope, importMap, moduleVariables)];
    assert Shapes(chunks) == head;
    var funcBody := node.body.value;
    assert WellFormed(funcBody);
    var children := funcBody.children;
    for i := 0 to |children|
      invariant Shapes(chunks) == head + NestedChunks(children[..i], funcName, scope, importMap, moduleVariables)
      invariant AllListed(chunks)
    {
      var child := children[i];
      assert WellFormed(child) by { assert child in children; }
      ghost var done := NestedChunks(children[..i], funcName, scope, importMap, moduleVariables);
      NestedChunksSnoc(children, i, funcName, scope, importMap, moduleVariables);
      var more: seq<CodeChunk> := [];
      if child.kind == "function_definition" {
        more := ProcessFunction(child, scope.(parentFunction := Some(funcName)), importMap, moduleVariables);
      } else if child.kind == "decorated_definition" {
        more := ProcessDecoratedDefinition(child, scope, importMap, moduleVariables);
      }
      ShapesStep(chunks, more, head, done, NestedChunk(child, funcName, scope, importMap, moduleVariables));
      chunks := chunks + more;
    }
    assert children[..|children|] == children;
  }

  /** What process_class gathers from a class body: the attribute lines, the
      __init__ method (the last one wins), the other methods in order, and
      the identifiers of the attributes. */
  datatype ClassParts = ClassParts(attributes: seq<string>, init: Option<Node>, others: seq<Node>,
                                   identifiers: set<string>)

  /** A member process_class hands on: a function definition, or a decorated
      definition around one. */
  predicate MethodNode(m: Node)
  {
    WellFormed(m) && (m.kind == "function_definition" || m.kind == "decorated_definition")
  }

  const FunctionKind: set<string> := {"function_definition"}

  /** The name of the method a class member defines, if it defines one. */
  function MethodName(child: Node): Option<string>
    requires WellFormed(child)
  {
    if child.kind == "function_definition" then Some(child.name.value.text)
    else if child.kind == "decorated_definition" then
      var f := FirstOfKind(child.children, 0, FunctionKind);
      if f.None? then None
      else
        assert WellFormed(f.value);
        Some(f.value.name.value.text)
    else None
  }

  /** One step of the scan of a class body. Anything else in the body, a
      nested class among it, is passed over. */
  function ClassStep(parts: ClassParts, child: Node): ClassParts
    requires WellFormed(child)
  {
    if child.kind == "expression_statement" then
      var assignment := child.children[0];
      if assignment.kind == "assignment" then
        parts.(attributes := parts.attributes + [assignment.text],
               identifiers := parts.identifiers + Idents(assignment))
      else if assignment.kind == "typed_parameter" then
        parts.(attributes := parts.attributes + [assignment.text],
               identifiers := parts.identifiers + TypeNames(assignment))
      else parts
    else
      var name := MethodName(child);
      if name.None? then parts
      else if name.value == "__init__" then parts.(init := Some(child))
      else parts.(others := parts.others + [child])
  }

  function ClassScan(cs: seq<Node>): (parts: ClassParts)
    requires forall c | c in cs :: WellFormed(c)
    ensures forall m | m in parts.others :: MethodNode(m)
  {
    if cs == [] then ClassParts([], None, [], {})
    else ClassStep(ClassScan(cs[..|cs| - 1]), cs[|cs| - 1])
  }

  /** The class's own definition as process_class rebuilds it: the header
      `class Name:` (bases dropped), each attribute on its own line indented
      by four spaces, then the __init__ text after a blank line. */
  function ClassDefinition(name: string, attributes: seq<string>, init: Option<Node>): string
  {
    Join(["class " + name + ":"] + Indented(attributes)
         + (if init.Some? then Split("\n\n    " + init.value.text, '\n') else []), "\n")
  }

  function Indented(attributes: seq<string>): (lines: seq<string>)
    ensures |lines| == |attributes|
    ensures forall i :: 0 <= i < |attributes| ==> lines[i] == "    " + attributes[i]
  {
    seq(|attributes|, i requires 0 <= i < |attributes| => "    " + attributes[i])
  }

  /** The records of the methods of a class, in order. */
  function MethodChunks(ms: seq<Node>, scope: Scope, importMap: map<string, string>,
                        moduleVariables: seq<string>): seq<ChunkShape>
    requires forall m | m in ms :: MethodNode(m)
  {
    if ms == [] then []
    else
      var m := ms[|ms| - 1];
      assert MethodNode(m) by { assert m in ms; }
      MethodChunks(ms[..|ms| - 1], scope, importMap, moduleVariables)
      + MethodChunk(m, scope, importMap, moduleVariables)
  }

  /** The records of one method of a class. */
  function MethodChunk(m: Node, scope: Scope, importMap: map<string, string>,
                       moduleVariables: seq<string>): seq<ChunkShape>
    requires MethodNode(m)
  {
    if m.kind == "decorated_definition" then DecoratedChunks(m, scope, importMap, moduleVariables)
    else FunctionChunks(m, scope, importMap, moduleVariables)
  }

  lemma MethodChunksSnoc(ms: seq<Node>, i: nat, scope: Scope, importMap: map<string, string>,
                         moduleVariables: seq<string>)
    requires i < |ms| && forall m | m in ms :: MethodNode(m)
    ensures MethodNode(ms[i])
    ensures MethodChunks(ms[..i + 1], scope, importMap, moduleVariables)
         == MethodChunks(ms[..i], scope, importMap, moduleVariables) + MethodChunk(ms[i], scope, importMap, moduleVariables)
  {
    assert ms[i] in ms;
    assert ms[..i + 1][..i] == ms[..i];
  }

  /** The records of a class: its own, whose context holds only the imports
      and module variables its attributes use, then the records of its
      methods other than __init__ with the class as their parent. */
  function ClassChunks(node: Node, scope: Scope, importMap: map<string, string>,
                       moduleVariables: seq<string>): seq<ChunkShape>
    requires WellFormed(node) && node.name.Some? && node.body.Some?
  {
    assert WellFormed(node.body.value);
    var name := node.name.value.text;
    var parts := ClassScan(node.body.value.children);
    [ChunkShape(Class, name, ClassDefinition(name, parts.attributes, parts.init),
                ContextSpec(parts.identifiers, importMap, moduleVariables, TopScope))]
    + MethodChunks(parts.others, scope.(parentClass := Some(name)), importMap, moduleVariables)
  }

  lemma ClassScanSnoc(cs: seq<Node>, i: nat)
    requires i < |cs| && forall c | c in cs :: WellFormed(c)
    ensures WellFormed(cs[i])
    ensures ClassScan(cs[..i + 1]) == ClassStep(ClassScan(cs[..i]), cs[i])
  {
    assert cs[i] in cs;
    assert cs[..i + 1][..i] == cs[..i];
  }

  /** The scan loop of process_class over the class body. */
  method ScanClassBody(body: Node) returns (parts: ClassParts)
    requires WellFormed(body)
    ensures parts == ClassScan(body.children)
  {
    var classAttributes: seq<string> := [];
    var initMethod: Option<Node> := None;
    var otherMethods: seq<Node> := [];
    var identifiers := new IdentifierSet();
    for i := 0 to |body.children|
      invariant ClassParts(classAttributes, initMethod, otherMethods, identifiers.names)
             == ClassScan(body.children[..i])
    {
      ClassScanSnoc(body.children, i);
      classAttributes, initMethod, otherMethods :=
        ScanMember(body.children[i], identifiers, classAttributes, initMethod, otherMethods);
    }
    assert body.children[..|body.children|] == body.children;
    parts := ClassParts(classAttributes, initMethod, otherMethods, identifiers.names);
  }

  /** One iteration of the scan of a class body. */
  method ScanMember(child: Node, identifiers: IdentifierSet, attributes: seq<string>, init: Option<Node>,
                    others: seq<Node>)
    returns (classAttributes: seq<string>, initMethod: Option<Node>, otherMethods: seq<Node>)
    requires WellFormed(child)
    modifies identifiers
    ensures ClassParts(classAttributes, initMethod, otherMethods, identifiers.names)
         == ClassStep(ClassParts(attributes, init, others, old(identifiers.names)), child)
  {
    classAttributes, initMethod, otherMethods := attributes, init, others;
    if child.kind == "expression_statement" {
      var assignment := child.children[0];
      if assignment.kind == "assignment" {
        classAttributes := classAttributes + [assignment.text];
        identifiers.CollectIdentifiers(assignment);
      } else if assignment.kind == "typed_parameter" {
        classAttributes := classAttributes + [assignment.text];
        identifiers.CollectTypeNames(assignment);
      }
    } else if child.kind == "function_definition" {
      var funcName := child.name.value.text;
      if funcName == "__init__" {
        initMethod := Some(child);
      } else {
        otherMethods := otherMethods + [child];
      }
    } else if child.kind == "decorated_definition" {
      var funcDef: Option<Node> := None;
      for j := 0 to |child.children|
        invariant funcDef.None?
        invariant FirstOfKind(child.children, j, FunctionKind) == FirstOfKind(child.children, 0, FunctionKind)
      {
        if child.children[j].kind == "function_definition" {
          funcDef := Some(child.children[j]);
          assert funcDef == FirstOfKind(child.children, 0, FunctionKind);
          break;
        }
      }
      if funcDef.Some? {
        assert WellFormed(funcDef.value);
        var funcName := funcDef.value.name.value.text;
        if funcName == "__init__" {
          initMethod := Some(child);
        } else {
          otherMethods := otherMethods + [child];
        }
      }
    }
  }

  /** The lines of the rebuilt class definition, as process_class collects
      them before joining. */
  method ClassDefinitionLines(className: string, classAttributes: seq<string>, initMethod: Option<Node>)
    returns (classDefinition: string)
    ensures classDefinition == ClassDefinition(className, classAttributes, initMethod)
  {
    var classDefLines := ["class " + className + ":"];
    for i := 0 to |classAttributes|
      invariant classDefLines == ["class " + className + ":"] + Indented(classAttributes[..i])
    {
      classDefLines := classDefLines + ["    " + classAttributes[i]];
    }
    assert classAttributes[..|classAttributes|] == classAttributes;
    ghost var header := classDefLines;
    if initMethod.Some? {
      var initCode := "\n\n    " + initMethod.value.text;
      var initLines := Split(initCode, '\n');
      for i := 0 to |initLines|
        invariant classDefLines == header + initLines[..i]
      {
        classDefLines := classDefLines + [initLines[i]];
      }
      assert initLines[..|initLines|] == initLines;
    } else {
      assert header + [] == header;
    }
    classDefinition := Join(classDefLines, "\n");
  }

  method ProcessClass(node: Node, scope: Scope, importMap: map<string, string>, moduleVariables: seq<string>)
    returns (chunks: seq<CodeChunk>)
    requires WellFormed(node) && node.name.Some? && node.body.Some?
    ensures Shapes(chunks) == ClassChunks(node, scope, importMap, moduleVariables)
    ensures AllListed(chunks)
  {
    var className := node.name.value.text;
    var classBody := node.body.value;
    assert WellFormed(classBody);
    var parts := ScanClassBody(classBody);
    var classContext := BuildContext(parts.identifiers, importMap, moduleVariables, TopScope);
    var classDefinition := ClassDefinitionLines(className, parts.attributes, parts.init);
    chunks := [CodeChunk(Class, className, classDefinition, classContext)];
    ghost var classShape := Shapes(chunks);
    var methodScope := scope.(parentClass := Some(className));
    var otherMethods := parts.others;
    for i := 0 to |otherMethods|
      invariant Shapes(chunks) == classShape + MethodChunks(otherMethods[..i], methodScope, importMap, moduleVariables)
      invariant AllListed(chunks)
    {
      var method_ := otherMethods[i];
      ghost var done := MethodChunks(otherMethods[..i], methodScope, importMap, moduleVariables);
      MethodChunksSnoc(otherMethods, i, methodScope, importMap, moduleVariables);
      var more := ProcessMethod(method_, methodScope, importMap, moduleVariables);
      ShapesStep(chunks, more, classShape, done, MethodChunk(method_, methodScope, importMap, moduleVariables));
      chunks := chunks + more;
    }
    assert otherMethods[..|otherMethods|] == otherMethods;
  }

  /** The branches of the loop of process_class on one of the other methods. */
  method ProcessMethod(method_: Node, methodScope: Scope, importMap: map<string, string>, moduleVariables: seq<string>)
    returns (more: seq<CodeChunk>)
    requires MethodNode(method_)
    ensures Shapes(more) == MethodChunk(method_, methodScope, importMap, moduleVariables)
    ensures AllListed(more)
  {
    if method_.kind == "decorated_definition" {
      more := ProcessDecoratedDefinition(method_, methodScope, importMap, moduleVariables);
    } else {
      more := ProcessFunction(method_, methodScope, importMap, moduleVariables);
    }
  }

  /** The records of the top-level statements of a module, in order. */
  function RootChunks(cs: seq<Node>, importMap: map<string, string>, moduleVariables: seq<string>): seq<ChunkShape>
    requires forall c | c in cs :: WellFormed(c)
  {
    if cs == [] then []
    else
      var c := cs[|cs| - 1];
      assert WellFormed(c) by { assert c in cs; }
      RootChunks(cs[..|cs| - 1], importMap, moduleVariables) + RootChunk(c, importMap, moduleVariables)
  }

  /** The records of one top-level statement of a module. */
  function RootChunk(c: Node, importMap: map<string, string>, moduleVariables: seq<string>): seq<ChunkShape>
    requires WellFormed(c)
  {
    if c.kind == "class_definition" then ClassChunks(c, TopScope, importMap, moduleVariables)
    else if c.kind == "function_definition" then FunctionChunks(c, TopScope, importMap, moduleVariables)
    else if c.kind == "decorated_definition" then DecoratedChunks(c, TopScope, importMap, moduleVariables)
    else []
  }

  lemma RootChunksSnoc(cs: seq<Node>, i: nat, importMap: map<string, string>, moduleVariables: seq<string>)
    requires i < |cs| && forall c | c in cs :: WellFormed(c)
    ensures WellFormed(cs[i])
    ensures RootChunks(cs[..i + 1], importMap, moduleVariables)
         == RootChunks(cs[..i], importMap, moduleVariables) + RootChunk(cs[i], importMap, moduleVariables)
  {
    assert cs[i] in cs;
    assert cs[..i + 1][..i] == cs[..i];
  }

  method ProcessRoot(root: Tree, importMap: map<string, string>, moduleVariables: seq<string>)
    returns (chunks: seq<CodeChunk>)
    ensures Shapes(chunks) == RootChunks(root.children, importMap, moduleVariables)
    ensures AllListed(chunks)
  {
    chunks := [];
    var moduleCodeLines: seq<string> := [];
    var moduleImports: seq<string> := [];
    assert WellFormed(root);
    for i := 0 to |root.children|
      invariant Shapes(chunks) == RootChunks(root.children[..i], importMap, moduleVariables)
      invariant AllListed(chunks)
    {
      var child := root.children[i];
      RootChunksSnoc(root.children, i, importMap, moduleVariables);
      if child.kind == "import_statement" || child.kind == "import_from_statement" {
        moduleCodeLines := moduleCodeLines + [child.text];
        moduleImports := moduleImports + [child.text];
      }
      var more := ProcessRootChild(child, importMap, moduleVariables);
      ShapesAppend(chunks, more);
      chunks := chunks + more;
    }
    assert root.children[..|root.children|] == root.children;
  }

  /** The branches of the loop of process_root on one child of the module. */
  method ProcessRootChild(child: Node, importMap: map<string, string>, moduleVariables: seq<string>)
    returns (more: seq<CodeChunk>)
    requires WellFormed(child)
    ensures Shapes(more) == RootChunk(child, importMap, moduleVariables)
    ensures AllListed(more)
  {
    more := [];
    if child.kind == "class_definition" {
      more := ProcessClass(child, TopScope, importMap, moduleVariables);
    } else if child.kind == "function_definition" {
      more := ProcessFunction(child, TopScope, importMap, moduleVariables);
    } else if child.kind == "decorated_definition" {
      more := ProcessDecoratedDefinition(child, TopScope, importMap, moduleVariables);
    }
  }
}
