/** What the code chunker's records promise: which enclosing class and
    function a record names, how many records a class gives, what the
    rebuilt class definition looks like, and what the scan of a class body
    keeps and drops. */
module CodeChunkerFacts {
  import opened Common
  import opened Syntax
  import opened CodeScan
  import opened CodeChunker

  function ParentClassOf(r: ChunkShape): Option<string>
  {
    if r.context.None? then None else r.context.value.parentClass
  }

  function ParentFunctionOf(r: ChunkShape): Option<string>
  {
    if r.context.None? then None else r.context.value.parentFunction
  }

  /** A "method" record names its class, a "function" record names none. */
  predicate KindAgrees(r: ChunkShape)
  {
    (r.kind == Method ==> ParentClassOf(r).Some?) && (r.kind == Function ==> ParentClassOf(r).None?)
  }

  /** A record built in a scope names the scope's class and function. */
  predicate InScope(r: ChunkShape, scope: Scope)
  {
    ParentClassOf(r) == scope.parentClass && KindAgrees(r)
  }

  /** A context names exactly the class and function of the scope it was
      built in, and is absent only when it would be empty. */
  lemma ContextSpecScope(ids: set<string>, importMap: map<string, string>, moduleVariables: seq<string>,
                         scope: Scope)
    ensures var ctx := ContextSpec(ids, importMap, moduleVariables, scope);
      (ctx.None? ==> scope == TopScope && UsedImports(ids, importMap) == {}
                     && UsedVariables(ids, moduleVariables) == {})
      && (ctx.Some? ==> ctx.value.parentClass == scope.parentClass && ctx.value.parentFunction == scope.parentFunction
                        && ctx.value.imports == UsedImports(ids, importMap)
                        && ctx.value.moduleVariables == UsedVariables(ids, moduleVariables))
  {
  }

  /** A decorated definition gives at most one record: none when it wraps
      no function or class, else one named after the first function or
      class it wraps, holding the text of the whole decorated node. */
  lemma DecoratedChunksSpec(node: Node, scope: Scope, importMap: map<string, string>, moduleVariables: seq<string>)
    requires WellFormed(node)
    ensures var rs := DecoratedChunks(node, scope, importMap, moduleVariables);
      var def := FirstOfKind(node.children, 0, DefinitionKinds);
      |rs| <= 1
      && (|rs| == 1 <==> exists c :: c in node.children && c.kind in DefinitionKinds)
      && (|rs| == 1 ==> def.Some? && def.value.name.Some? && rs[0].definition == node.text && rs[0].name == def.value.name.value.text
                        && InScope(rs[0], scope) && ParentFunctionOf(rs[0]) == scope.parentFunction)
  {
    FirstOfKindFinds(node.children, 0, DefinitionKinds);
    ContextSpecScope(Idents(node), importMap, moduleVariables, scope);
  }

  lemma {:induction false} FirstOfKindFinds(ns: seq<Node>, i: nat, kinds: set<string>)
    requires i <= |ns|
    ensures FirstOfKind(ns, i, kinds).None? <==> forall j | i <= j < |ns| :: ns[j].kind !in kinds
    decreases |ns| - i
  {
    if i < |ns| {
      FirstOfKindFinds(ns, i + 1, kinds);
    }
  }

  /** Every record of a function names the function's own class, and a
      method record is one exactly when there is a class. */
  lemma {:induction false} FunctionChunksScope(node: Node, scope: Scope, importMap: map<string, string>,
                                               moduleVariables: seq<string>)
    requires WellFormed(node) && node.name.Some? && node.body.Some?
    ensures forall r | r in FunctionChunks(node, scope, importMap, moduleVariables) :: InScope(r, scope)
    decreases node, 1
  {
    assert WellFormed(node.body.value);
    ContextSpecScope(FunctionIdents(node), importMap, moduleVariables, scope);
    NestedChunksScope(node.body.value.children, node.name.value.text, scope, importMap, moduleVariables);
  }

  lemma {:induction false} NestedChunksScope(cs: seq<Node>, funcName: string, scope: Scope,
                                             importMap: map<string, string>, moduleVariables: seq<string>)
    requires forall c | c in cs :: WellFormed(c)
    ensures forall r | r in NestedChunks(cs, funcName, scope, importMap, moduleVariables) :: InScope(r, scope)
    decreases cs, 0
  {
    if cs != [] {
      var c := cs[|cs| - 1];
      assert WellFormed(c) by { assert c in cs; }
      NestedChunksScope(cs[..|cs| - 1], funcName, scope, importMap, moduleVariables);
      if c.kind == "function_definition" {
        var inner := scope.(parentFunction := Some(funcName));
        FunctionChunksScope(c, inner, importMap, moduleVariables);
        forall r | r in FunctionChunks(c, inner, importMap, moduleVariables) ensures InScope(r, scope) {
          assert InScope(r, inner);
        }
      } else if c.kind == "decorated_definition" {
        DecoratedChunksSpec(c, scope, importMap, moduleVariables);
      }
    }
  }

  /** Inside a function body, a nested function gets the function as its
      parent, while a nested decorated definition keeps the function's own
      scope and so does not name the function. */
  lemma NestedScopes(c: Node, funcName: string, scope: Scope, importMap: map<string, string>,
                     moduleVariables: seq<string>)
    requires WellFormed(c)
    ensures c.kind == "function_definition" ==>
              var rs := NestedChunk(c, funcName, scope, importMap, moduleVariables);
              rs != [] && ParentFunctionOf(rs[0]) == Some(funcName) && rs[0].name == c.name.value.text
    ensures c.kind == "decorated_definition" ==>
              forall r | r in NestedChunk(c, funcName, scope, importMap, moduleVariables) ::
                ParentFunctionOf(r) == scope.parentFunction
  {
    if c.kind == "function_definition" {
      ContextSpecScope(FunctionIdents(c), importMap, moduleVariables, scope.(parentFunction := Some(funcName)));
    } else if c.kind == "decorated_definition" {
      DecoratedChunksSpec(c, scope, importMap, moduleVariables);
    }
  }

  lemma {:induction false} MethodChunksScope(ms: seq<Node>, scope: Scope, importMap: map<string, string>,
                                             moduleVariables: seq<string>)
    requires forall m | m in ms :: MethodNode(m)
    ensures forall r | r in MethodChunks(ms, scope, importMap, moduleVariables) :: InScope(r, scope)
  {
    if ms != [] {
      var m := ms[|ms| - 1];
      assert MethodNode(m) by { assert m in ms; }
      MethodChunksScope(ms[..|ms| - 1], scope, importMap, moduleVariables);
      if m.kind == "decorated_definition" {
        DecoratedChunksSpec(m, scope, importMap, moduleVariables);
      } else {
        FunctionChunksScope(m, scope, importMap, moduleVariables);
      }
    }
  }

  /** The class record comes first and names no class or function; every
      later record of the class is one of its methods and names the class. */
  lemma ClassChunksScope(node: Node, scope: Scope, importMap: map<string, string>, moduleVariables: seq<string>)
    requires WellFormed(node) && node.name.Some? && node.body.Some?
    ensures var rs := ClassChunks(node, scope, importMap, moduleVariables);
      rs != [] && rs[0].kind == Class && rs[0].name == node.name.value.text
      && ParentClassOf(rs[0]).None? && ParentFunctionOf(rs[0]).None?
      && forall j | 1 <= j < |rs| :: rs[j].kind != Function && KindAgrees(rs[j])
                                      && ParentClassOf(rs[j]) == Some(node.name.value.text)
  {
    assert WellFormed(node.body.value);
    var name := node.name.value.text;
    var parts := ClassScan(node.body.value.children);
    var methodScope := scope.(parentClass := Some(name));
    var ms := MethodChunks(parts.others, methodScope, importMap, moduleVariables);
    var rs := ClassChunks(node, scope, importMap, moduleVariables);
    ClassHead(node, scope, importMap, moduleVariables);
    MethodChunksScope(parts.others, methodScope, importMap, moduleVariables);
    forall j | 1 <= j < |rs|
      ensures rs[j].kind != Function && KindAgrees(rs[j]) && ParentClassOf(rs[j]) == Some(name)
    {
      assert rs[j] == ms[j - 1] && ms[j - 1] in ms;
    }
  }

  /** The class record itself, followed by the method records. */
  lemma ClassHead(node: Node, scope: Scope, importMap: map<string, string>, moduleVariables: seq<string>)
    requires WellFormed(node) && node.name.Some? && node.body.Some?
    ensures var rs := ClassChunks(node, scope, importMap, moduleVariables);
      var name := node.name.value.text;
      rs != [] && rs[0].kind == Class && rs[0].name == name
      && ParentClassOf(rs[0]).None? && ParentFunctionOf(rs[0]).None?
      && (forall c | c in node.body.value.children :: WellFormed(c))
      && rs[1..] == MethodChunks(ClassScan(node.body.value.children).others, scope.(parentClass := Some(name)),
                                 importMap, moduleVariables)
  {
    assert WellFormed(node.body.value);
    ContextSpecScope(ClassScan(node.body.value.children).identifiers, importMap, moduleVariables, TopScope);
  }

  /** Every record of a module agrees with its context: a method names its
      class and a function names none. */
  lemma {:induction false} RootChunksAgree(cs: seq<Node>, importMap: map<string, string>, moduleVariables: seq<string>)
    requires forall c | c in cs :: WellFormed(c)
    ensures forall r | r in RootChunks(cs, importMap, moduleVariables) :: KindAgrees(r)
  {
    if cs != [] {
      var c := cs[|cs| - 1];
      assert WellFormed(c) by { assert c in cs; }
      RootChunksAgree(cs[..|cs| - 1], importMap, moduleVariables);
      var rs := RootChunk(c, importMap, moduleVariables);
      if c.kind == "class_definition" {
        ClassChunksScope(c, TopScope, importMap, moduleVariables);
        forall r | r in rs ensures KindAgrees(r) {
          var j :| 0 <= j < |rs| && rs[j] == r;
          if j == 0 { ContextSpecScope(ClassScan(c.body.value.children).identifiers, importMap, moduleVariables, TopScope); }
        }
      } else if c.kind == "function_definition" {
        FunctionChunksScope(c, TopScope, importMap, moduleVariables);
      } else if c.kind == "decorated_definition" {
        DecoratedChunksSpec(c, TopScope, importMap, moduleVariables);
      }
    }
  }

  /** The class members the scan keeps as methods other than __init__: a
      function, or a decorated definition around one, with any other name. */
  predicate OtherMethod(c: Node)
    requires WellFormed(c)
  {
    MethodName(c).Some? && MethodName(c).value != "__init__"
  }

  function OtherMethods(cs: seq<Node>): (ms: seq<Node>)
    requires forall c | c in cs :: WellFormed(c)
    ensures forall m | m in ms :: m in cs
  {
    if cs == [] then []
    else
      var c := cs[|cs| - 1];
      assert WellFormed(c) by { assert c in cs; }
      OtherMethods(cs[..|cs| - 1]) + (if OtherMethod(c) then [c] else [])
  }

  /** A class body without its nested classes. */
  function WithoutClasses(cs: seq<Node>): seq<Node>
  {
    if cs == [] then []
    else
      var c := cs[|cs| - 1];
      WithoutClasses(cs[..|cs| - 1]) + (if c.kind == "class_definition" then [] else [c])
  }

  lemma {:induction false} WithoutClassesWellFormed(cs: seq<Node>)
    requires forall c | c in cs :: WellFormed(c)
    ensures forall c | c in WithoutClasses(cs) :: WellFormed(c) && c in cs
  {
    if cs != [] {
      WithoutClassesWellFormed(cs[..|cs| - 1]);
      forall c | c in WithoutClasses(cs) ensures WellFormed(c) && c in cs {
        if c in WithoutClasses(cs[..|cs| - 1]) {
          assert c in cs[..|cs| - 1];
        }
      }
    }
  }

  lemma ClassScanSnocOf(cs: seq<Node>, c: Node)
    requires forall x | x in cs + [c] :: WellFormed(x)
    ensures ClassScan(cs + [c]) == ClassStep(ClassScan(cs), c)
  {
    assert (cs + [c])[..|cs|] == cs;
    assert c in cs + [c];
  }

  /** The scan of a class body gives the same attributes, __init__, other
      methods and identifiers once its nested classes are taken out: a
      nested class contributes nothing. */
  lemma {:induction false} ClassScanIgnoresClasses(cs: seq<Node>)
    requires forall c | c in cs :: WellFormed(c)
    ensures forall c | c in WithoutClasses(cs) :: WellFormed(c)
    ensures ClassScan(WithoutClasses(cs)) == ClassScan(cs)
  {
    WithoutClassesWellFormed(cs);
    if cs != [] {
      var init := cs[..|cs| - 1];
      var c := cs[|cs| - 1];
      assert WellFormed(c) by { assert c in cs; }
      assert forall x | x in init :: WellFormed(x) by {
        forall x | x in init ensures WellFormed(x) { assert x in cs; }
      }
      ClassScanIgnoresClasses(init);
      var scanned := ClassScan(init);
      assert ClassScan(cs) == ClassStep(scanned, c);
      if c.kind != "class_definition" {
        assert WithoutClasses(cs) == WithoutClasses(init) + [c];
        WithoutClassesWellFormed(init);
        ClassScanSnocOf(WithoutClasses(init), c);
      } else {
        assert WithoutClasses(cs) == WithoutClasses(init);
        assert ClassStep(scanned, c) == scanned;
      }
    }
  }

  /** The scan keeps the methods other than __init__ in source order. */
  lemma {:induction false} ClassScanOthers(cs: seq<Node>)
    requires forall c | c in cs :: WellFormed(c)
    ensures ClassScan(cs).others == OtherMethods(cs)
  {
    if cs != [] {
      var c := cs[|cs| - 1];
      assert WellFormed(c) by { assert c in cs; }
      ClassScanOthers(cs[..|cs| - 1]);
    }
  }

  /** A method with no function or decorated definition directly in its body. */
  predicate PlainMethod(m: Node)
  {
    WellFormed(m) && m.kind == "function_definition" && m.name.Some? && m.body.Some?
    && forall c | c in m.body.value.children :: c.kind != "function_definition" && c.kind != "decorated_definition"
  }

  /** One function record per method. */
  function PlainRecords(ms: seq<Node>, scope: Scope, importMap: map<string, string>,
                        moduleVariables: seq<string>): (rs: seq<ChunkShape>)
    requires forall j | 0 <= j < |ms| :: PlainMethod(ms[j])
    ensures |rs| == |ms|
    ensures forall j | 0 <= j < |ms| :: PlainMethod(ms[j]) && rs[j] == FunctionRecord(ms[j], scope, importMap, moduleVariables)
  {
    seq(|ms|, j requires 0 <= j < |ms| => assert PlainMethod(ms[j]); FunctionRecord(ms[j], scope, importMap, moduleVariables))
  }

  lemma {:induction false} NestedChunksNone(cs: seq<Node>, funcName: string, scope: Scope,
                                            importMap: map<string, string>, moduleVariables: seq<string>)
    requires forall c | c in cs :: WellFormed(c) && c.kind != "function_definition" && c.kind != "decorated_definition"
    ensures NestedChunks(cs, funcName, scope, importMap, moduleVariables) == []
  {
    if cs != [] {
      assert cs[|cs| - 1] in cs;
      NestedChunksNone(cs[..|cs| - 1], funcName, scope, importMap, moduleVariables);
    }
  }

  /** A plain method gives its own record and nothing else. */
  lemma PlainFunctionChunks(m: Node, scope: Scope, importMap: map<string, string>, moduleVariables: seq<string>)
    requires PlainMethod(m)
    ensures MethodNode(m)
    ensures MethodChunk(m, scope, importMap, moduleVariables) == [FunctionRecord(m, scope, importMap, moduleVariables)]
  {
    assert WellFormed(m.body.value);
    NestedChunksNone(m.body.value.children, m.name.value.text, scope, importMap, moduleVariables);
  }

  /** Plain methods give one record each, in order, and nothing else. */
  lemma {:induction false} MethodChunksPlain(ms: seq<Node>, scope: Scope, importMap: map<string, string>,
                                             moduleVariables: seq<string>)
    requires forall j | 0 <= j < |ms| :: PlainMethod(ms[j])
    ensures forall m | m in ms :: MethodNode(m)
    ensures MethodChunks(ms, scope, importMap, moduleVariables) == PlainRecords(ms, scope, importMap, moduleVariables)
  {
    forall m | m in ms ensures MethodNode(m) {
      var j :| 0 <= j < |ms| && ms[j] == m;
      PlainFunctionChunks(m, scope, importMap, moduleVariables);
    }
    if ms != [] {
      var m := ms[|ms| - 1];
      var front := ms[..|ms| - 1];
      MethodChunksPlain(front, scope, importMap, moduleVariables);
      PlainFunctionChunks(m, scope, importMap, moduleVariables);
      PlainRecordsSnoc(ms, scope, importMap, moduleVariables);
    }
  }

  lemma PlainRecordsSnoc(ms: seq<Node>, scope: Scope, importMap: map<string, string>, moduleVariables: seq<string>)
    requires ms != [] && forall j | 0 <= j < |ms| :: PlainMethod(ms[j])
    ensures PlainRecords(ms, scope, importMap, moduleVariables)
         == PlainRecords(ms[..|ms| - 1], scope, importMap, moduleVariables)
            + [FunctionRecord(ms[|ms| - 1], scope, importMap, moduleVariables)]
  {
    var n := |ms| - 1;
    var a := PlainRecords(ms, scope, importMap, moduleVariables);
    var b := PlainRecords(ms[..n], scope, importMap, moduleVariables) + [FunctionRecord(ms[n], scope, importMap, moduleVariables)];
    forall j | 0 <= j < |a| ensures a[j] == b[j] {
      if j < n {
        assert ms[..n][j] == ms[j];
      }
    }
  }

  /** process_class on a class whose methods are all plain: one class record,
      then one method record per method other than __init__, in source
      order, each naming the class. */
  lemma ClassChunksPlain(node: Node, scope: Scope, importMap: map<string, string>, moduleVariables: seq<string>)
    requires WellFormed(node) && node.name.Some? && node.body.Some?
    requires forall c | c in node.body.value.children ::
               c.kind == "decorated_definition" || c.kind == "function_definition" ==> PlainMethod(c)
    ensures WellFormed(node.body.value)
    ensures var rs := ClassChunks(node, scope, importMap, moduleVariables);
      var others := OtherMethods(node.body.value.children);
      |rs| == 1 + |others|
      && forall j | 0 <= j < |others| ::
           others[j].kind == "function_definition" && others[j].name.Some?
           && rs[j + 1].kind == Method && rs[j + 1].name == others[j].name.value.text
           && rs[j + 1].definition == others[j].text && ParentClassOf(rs[j + 1]) == Some(node.name.value.text)
  {
    assert WellFormed(node.body.value);
    var cs := node.body.value.children;
    var name := node.name.value.text;
    var methodScope := scope.(parentClass := Some(name));
    ClassScanOthers(cs);
    var others := ClassScan(cs).others;
    forall j | 0 <= j < |others| ensures PlainMethod(others[j]) {
      assert others[j] in others;
      assert others[j] in cs && MethodNode(others[j]);
    }
    MethodChunksPlain(others, methodScope, importMap, moduleVariables);
    var rs := ClassChunks(node, scope, importMap, moduleVariables);
    var ms := PlainRecords(others, methodScope, importMap, moduleVariables);
    assert rs[1..] == ms;
    forall j | 0 <= j < |others|
      ensures others[j].kind == "function_definition" && others[j].name.Some?
           && rs[j + 1].kind == Method && rs[j + 1].name == others[j].name.value.text
           && rs[j + 1].definition == others[j].text && ParentClassOf(rs[j + 1]) == Some(name)
    {
      assert others[j] in others;
      assert rs[j + 1] == ms[j];
      ContextSpecScope(FunctionIdents(others[j]), importMap, moduleVariables, methodScope);
    }
  }

  /** The attribute lines of a rebuilt class, each on a new line indented
      by four spaces. */
  function AttributeBlock(attributes: seq<string>): string
  {
    if attributes == [] then ""
    else AttributeBlock(attributes[..|attributes| - 1]) + "\n    " + attributes[|attributes| - 1]
  }

  lemma {:induction false} HeaderAndAttributes(header: string, attributes: seq<string>)
    ensures Join([header] + Indented(attributes), "\n") == header + AttributeBlock(attributes)
  {
    if attributes != [] {
      var front := attributes[..|attributes| - 1];
      var last := attributes[|attributes| - 1];
      HeaderAndAttributes(header, front);
      assert [header] + Indented(attributes) == [header] + Indented(front) + ["    " + last];
      JoinSnoc([header] + Indented(front), "    " + last, "\n");
    }
  }

  /** The class definition process_class rebuilds: `class Name:` with the
      bases dropped, the attribute lines, and the __init__ text after a
      blank line; no other method's text appears in it. */
  lemma ClassDefinitionSpec(name: string, attributes: seq<string>, init: Option<Node>)
    ensures ClassDefinition(name, attributes, init)
         == "class " + name + ":" + AttributeBlock(attributes)
            + (if init.Some? then "\n\n\n    " + init.value.text else "")
  {
    var head := ["class " + name + ":"] + Indented(attributes);
    HeaderAndAttributes("class " + name + ":", attributes);
    if init.Some? {
      var lines := Split("\n\n    " + init.value.text, '\n');
      JoinAppend(head, lines, "\n");
      JoinSplit("\n\n    " + init.value.text, '\n');
    } else {
      assert head + [] == head;
    }
  }
}
