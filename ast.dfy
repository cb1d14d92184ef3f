/**
  The parts of a parsed module that the codemod inspects.

  The structure of the syntax tree is immutable (`Tree`): nodes are numbered,
  every child has a larger number than its parent, and `parent` gives each
  node's parent (or -1 at the top).  The only things the codemod changes in
  place are the value of a string literal and the name of an identifier; both
  are kept in the `text` store, one entry per node.  Babel's
  `scope.getBinding(name)` is the given map `bindings`, which names the node
  the binding comes from (its `path`) and the nodes that reference it.
 */
module Ast {
  import opened Options
  import opened JsStrings

  type Id = nat

  datatype Node =
    | StringLiteral                                    // value in the text store
    | Identifier                                       // name in the text store
    | OtherLiteral                                     // numeric, boolean, null, ... literals
    | ObjectExpression(properties: seq<Id>)
    | ObjectProperty(key: Id, computed: bool, value: Id)
    | ArrayExpression(elements: seq<Id>)
    | Conditional(test: Id, consequent: Id, alternate: Id)
    | MemberExpression(obj: Id, property: Id, computed: bool)
    | Call(callee: Id, arguments: seq<Id>)
    | SpreadElement(argument: Id)
    | VariableDeclarator(id: Id, init: Option<Id>)
    | ObjectPattern(properties: seq<Id>)
    | RestElement(argument: Id)
    | ImportSpecifier(imported: Id, local: Id, source: string)  // source of the enclosing import
    | JsxOpeningElement(elementName: JsxName, attributes: seq<Id>)
    | JsxAttribute(attrName: AttrName, attrValue: Option<Id>)
    | JsxSpreadAttribute(argument: Id)
    | Other(children: seq<Id>)                         // any other kind, children in visiting order

  /** The name of a JSX element: `Box`, `Braid.Box` or `svg:rect`; name nodes are not visited. */
  datatype JsxName =
    | JsxIdentifier(name: string)
    | JsxMemberName(base: JsxName, property: string)
    | JsxNamespacedName(namespace: string, local: string)

  /** The name of a JSX attribute: `background` or `xlink:href`. */
  datatype AttrName = PlainName(name: string) | NamespacedAttrName(namespace: string, local: string)

  /** The child nodes in the order Babel's traversal visits them. */
  function Children(n: Node): (r: seq<Id>)
    ensures n.StringLiteral? || n.Identifier? || n.OtherLiteral? ==> r == []
    ensures n.Call? ==> r != [] && r[0] == n.callee && r[1..] == n.arguments
  {
    match n
    case StringLiteral => []
    case Identifier => []
    case OtherLiteral => []
    case ObjectExpression(properties) => properties
    case ObjectProperty(key, _, value) => [key, value]
    case ArrayExpression(elements) => elements
    case Conditional(test, consequent, alternate) => [test, consequent, alternate]
    case MemberExpression(obj, property, _) => [obj, property]
    case Call(callee, arguments) => [callee] + arguments
    case SpreadElement(argument) => [argument]
    case VariableDeclarator(id, init) => if init.Some? then [id, init.value] else [id]
    case ObjectPattern(properties) => properties
    case RestElement(argument) => [argument]
    case ImportSpecifier(imported, local, _) => [imported, local]
    case JsxOpeningElement(_, attributes) => attributes
    case JsxAttribute(_, attrValue) => if attrValue.Some? then [attrValue.value] else []
    case JsxSpreadAttribute(argument) => [argument]
    case Other(children) => children
  }

  /** A binding as `scope.getBinding` returns it. */
  datatype Binding = Binding(path: Id, references: seq<Id>)

  datatype Tree = Tree(nodes: seq<Node>, parent: seq<int>, bindings: map<string, Binding>)

  ghost predicate WellFormed(t: Tree)
  {
    && |t.parent| == |t.nodes|
    && (forall i, k | 0 <= i < |t.nodes| && 0 <= k < |Children(t.nodes[i])| ::
          i < Children(t.nodes[i])[k] < |t.nodes| && t.parent[Children(t.nodes[i])[k]] == i)
    && (forall i | 0 <= i < |t.nodes| :: -1 <= t.parent[i] < i)
    && (forall name | name in t.bindings ::
          && t.bindings[name].path < |t.nodes|
          && forall r | r in t.bindings[name].references :: r < |t.nodes|)
  }

  /** Node `i` lies below its parent, and names as children only later nodes whose parent it is. */
  ghost predicate NodeFits(t: Tree, i: int)
    requires |t.parent| == |t.nodes| && 0 <= i < |t.nodes|
  {
    && -1 <= t.parent[i] < i
    && forall k | 0 <= k < |Children(t.nodes[i])| ::
         i < Children(t.nodes[i])[k] < |t.nodes| && t.parent[Children(t.nodes[i])[k]] == i
  }

  /** A tree is well formed when each of its nodes fits and every binding names nodes of the tree. */
  lemma WellFormedByNodes(t: Tree)
    requires |t.parent| == |t.nodes| && forall i | 0 <= i < |t.nodes| :: NodeFits(t, i)
    requires forall name | name in t.bindings ::
               t.bindings[name].path < |t.nodes| && forall r | r in t.bindings[name].references :: r < |t.nodes|
    ensures WellFormed(t)
  {
    forall i, k | 0 <= i < |t.nodes| && 0 <= k < |Children(t.nodes[i])|
      ensures i < Children(t.nodes[i])[k] < |t.nodes| && t.parent[Children(t.nodes[i])[k]] == i
    {
      assert NodeFits(t, i);
    }
    forall i | 0 <= i < |t.nodes|
      ensures -1 <= t.parent[i] < i
    {
      assert NodeFits(t, i);
    }
  }

  /** The fields of a node name nodes of the tree, numbered above it. */
  lemma FieldsInTree(t: Tree, i: Id)
    requires WellFormed(t) && i < |t.nodes|
    ensures t.nodes[i].ObjectProperty? ==> i < t.nodes[i].key < |t.nodes| && i < t.nodes[i].value < |t.nodes|
    ensures t.nodes[i].MemberExpression? ==>
      i < t.nodes[i].obj < |t.nodes| && i < t.nodes[i].property < |t.nodes|
    ensures t.nodes[i].VariableDeclarator? ==>
      i < t.nodes[i].id < |t.nodes| && (t.nodes[i].init.Some? ==> i < t.nodes[i].init.value < |t.nodes|)
    ensures t.nodes[i].ImportSpecifier? ==>
      i < t.nodes[i].imported < |t.nodes| && i < t.nodes[i].local < |t.nodes|
    ensures t.nodes[i].RestElement? || t.nodes[i].JsxSpreadAttribute? ==> i < t.nodes[i].argument < |t.nodes|
    ensures t.nodes[i].JsxAttribute? && t.nodes[i].attrValue.Some? ==> i < t.nodes[i].attrValue.value < |t.nodes|
    ensures t.nodes[i].Call? ==> i < t.nodes[i].callee < |t.nodes|
    ensures t.nodes[i].Call? ==> forall k | 0 <= k < |t.nodes[i].arguments| :: i < t.nodes[i].arguments[k] < |t.nodes|
    ensures t.nodes[i].ObjectPattern? ==>
      forall k | 0 <= k < |t.nodes[i].properties| :: i < t.nodes[i].properties[k] < |t.nodes|
  {
    var kids := Children(t.nodes[i]);
    assert forall k | 0 <= k < |kids| :: i < kids[k] < |t.nodes|;
    match t.nodes[i]
    case Call(callee, arguments) =>
      assert callee == kids[0];
      assert forall k | 0 <= k < |arguments| :: arguments[k] == kids[k + 1];
    case ObjectProperty(key, _, value) =>
      assert key == kids[0] && value == kids[1];
    case MemberExpression(obj, property, _) =>
      assert obj == kids[0] && property == kids[1];
    case ImportSpecifier(imported, local, _) =>
      assert imported == kids[0] && local == kids[1];
    case VariableDeclarator(id, init) =>
      assert id == kids[0];
      if init.Some? {
        assert init.value == kids[1];
      }
    case RestElement(argument) =>
      assert argument == kids[0];
    case JsxSpreadAttribute(argument) =>
      assert argument == kids[0];
    case JsxAttribute(_, attrValue) =>
      if attrValue.Some? {
        assert attrValue.value == kids[0];
      }
    case _ =>
  }

  /** The diagnostics the codemod emits; their rendered text is not modelled. */
  datatype Warning =
    | UntraceableImport(variable: string, source: string, prop: Option<string>, component: string)
    | UntraceableProperty(owner: Option<string>)
    | TooManyRecurses

  /**
    What a pass changes: the text store, the warnings kept in
    `file.metadata.warnings`, and the lines written to the console.
   */
  datatype Store = Store(text: seq<string>, warnings: seq<Warning>, console: seq<Warning>)

  /** One file being transformed: its tree, and the state the passes change in place. */
  class SourceFile {
    const tree: Tree
    const text: array<string>
    var warnings: seq<Warning>
    var console: seq<Warning>

    ghost predicate Valid()
    {
      WellFormed(tree) && text.Length == |tree.nodes|
    }

    function Snapshot(): Store
      reads this, text
    {
      Store(text[..], warnings, console)
    }

    constructor (tree: Tree, initial: seq<string>)
      requires WellFormed(tree) && |initial| == |tree.nodes|
      ensures Valid() && this.tree == tree && fresh(text)
      ensures Snapshot() == Store(initial, [], [])
    {
      this.tree := tree;
      this.text := new string[|initial|](i requires 0 <= i < |initial| => initial[i]);
      warnings := [];
      console := [];
    }
  }

  /** An import declaration's specifiers, as the two `Program.enter` scans read them. */
  datatype ImportedName = IdentifierName(name: string) | StringName(value: string)

  datatype Specifier =
    | NamedSpecifier(local: string, imported: ImportedName)
    | DefaultSpecifier(local: string)
    | NamespaceSpecifier(local: string)

  datatype Statement =
    | ImportDeclaration(source: string, specifiers: seq<Specifier>)
    | OtherStatement

  /** The test `/braid-design-system(?:\/css)?$/` applied to an import's source. */
  predicate IsBraidSource(source: string)
    ensures IsBraidSource(source) ==> |source| >= |"braid-design-system"|
    ensures source == "braid-design-system" || source == "braid-design-system/css" ==> IsBraidSource(source)
  {
    EndsWith(source, "braid-design-system") || EndsWith(source, "braid-design-system/css")
  }
}
