/** The syntax trees the tree-sitter parsers produce, as values: a node has a
    kind ("module", "function_definition", "atx_heading", ...), the source
    text it spans, its children in source order, and the named fields the
    chunkers look up with child_by_field_name. */
module Syntax {
  import opened Common

  datatype Node = Node(
    kind: string,
    text: string,
    children: seq<Node>,
    name: Option<Node>,
    body: Option<Node>,
    parameters: Option<Node>,
    returnType: Option<Node>,
    left: Option<Node>)

  /** A leaf without fields. */
  function Leaf(kind: string, text: string): Node
  {
    Node(kind, text, [], None, None, None, None, None)
  }

  predicate IsDefinition(n: Node)
  {
    n.kind == "function_definition" || n.kind == "class_definition"
  }

  /** What the Python grammar guarantees of every tree the parser returns and
      the code chunker relies on: definitions have a name and a body, an
      expression statement has a first child, an aliased import has the
      shape `name as alias`. */
  predicate WellFormed(n: Node)
    decreases n
  {
    && (IsDefinition(n) ==> n.name.Some? && n.body.Some?)
    && (n.kind == "expression_statement" ==> |n.children| >= 1)
    && (n.kind == "aliased_import" ==> |n.children| >= 3)
    && (forall c | c in n.children :: WellFormed(c))
    && (n.name.Some? ==> WellFormed(n.name.value))
    && (n.body.Some? ==> WellFormed(n.body.value))
    && (n.parameters.Some? ==> WellFormed(n.parameters.value))
    && (n.returnType.Some? ==> WellFormed(n.returnType.value))
    && (n.left.Some? ==> WellFormed(n.left.value))
  }

  /** A tree as the parser hands it over. */
  type Tree = n: Node | WellFormed(n) witness Leaf("module", "")

  /** extract_text_from_node: the text of a childless node, otherwise the
      texts of its children run together. */
  function ExtractText(n: Node): string
    decreases n
  {
    if |n.children| == 0 && n.text != "" then n.text else ExtractTexts(n.children)
  }

  function ExtractTexts(ns: seq<Node>): string
    decreases ns
  {
    if ns == [] then "" else ExtractText(ns[0]) + ExtractTexts(ns[1..])
  }

  /** The texts of a sequence of nodes. */
  function Texts(ns: seq<Node>): (ts: seq<string>)
    ensures |ts| == |ns| && forall i :: 0 <= i < |ns| ==> ts[i] == ns[i].text
  {
    seq(|ns|, i requires 0 <= i < |ns| => ns[i].text)
  }

  /** A node whose children, at every level, cover its text without gaps. */
  predicate Gapless(n: Node)
    decreases n
  {
    (|n.children| > 0 ==> n.text == Flatten(Texts(n.children)))
    && forall c | c in n.children :: Gapless(c)
  }

  /** When the children of every node cover its text without gaps (no
      whitespace between tokens), extracting the text gives back the node's
      own text. */
  lemma {:induction false} ExtractTextOfGapless(n: Node)
    requires Gapless(n)
    ensures ExtractText(n) == n.text
    decreases n, 1
  {
    if |n.children| > 0 {
      ExtractTextsOfGapless(n.children);
    }
  }

  lemma {:induction false} ExtractTextsOfGapless(ns: seq<Node>)
    requires forall c | c in ns :: Gapless(c)
    ensures ExtractTexts(ns) == Flatten(Texts(ns))
    decreases ns, 0
  {
    if ns != [] {
      ExtractTextOfGapless(ns[0]);
      ExtractTextsOfGapless(ns[1..]);
      assert Texts(ns)[1..] == Texts(ns[1..]);
    }
  }

  /** The text of a run of nodes followed by one more node. */
  lemma {:induction false} ExtractTextsSnoc(ns: seq<Node>, n: Node)
    ensures ExtractTexts(ns + [n]) == ExtractTexts(ns) + ExtractText(n)
  {
    if ns == [] {
      assert [n][1..] == [];
    } else {
      assert (ns + [n])[1..] == ns[1..] + [n];
      ExtractTextsSnoc(ns[1..], n);
    }
  }
}
