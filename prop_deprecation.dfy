/**
  The prop-deprecation plugin (`codemod/prop-deprecation/babel-plugin.ts`).

  `Program.enter` records which local names stand for the table's owners
  (`import { Box as B } from 'braid-design-system'`) and the namespace name
  of `import * as Braid from ...`.  Then, for every JSX opening element that
  names a tracked owner, and for every call of a tracked owner, its own copy
  of the value tracer follows the values passed in and rewrites the string
  literals through the table.

  This tracer differs from the one in `SubVisitor`: its ObjectProperty
  handler does not descend, it sets `this.propName` on the traversal's
  context object, so that the name sticks for the rest of that traversal;
  and it reports to the console instead of to the file's warnings.
 */
module PropDeprecation {
  import opened Options
  import opened DeprecatedPropMap
  import opened Ast
  import opened Helpers
  import SubVisitor

  /**
    The tracer's context object (`this` inside the visitor): the owner, `this.propName`,
    whether `this.propLocation` is set, and how deep the traversals are nested.
   */
  datatype Context = Context(component: string, prop: Option<string>, located: bool, recurses: nat)

  /** JavaScript truthiness of `this.propName`. */
  predicate HasProp(prop: Option<string>)
    ensures HasProp(prop) ==> prop.Some? && PropKey(prop) == prop.value && |PropKey(prop)| > 0
  {
    prop.Some? && prop.value != ""
  }

  /**
    The store after a traversal, the prop name and location its context object
    ended with, and whether it ended by throwing.
   */
  datatype Traced = Traced(store: Store, prop: Option<string>, located: bool, thrown: bool)

  /** A traversal that ended normally, its context object as `ctx` says. */
  function Normal(st: Store, ctx: Context): Traced
  {
    Traced(st, ctx.prop, ctx.located, false)
  }

  /** The context object after a visit that ended in `r`: only the prop name and its location change. */
  function Carry(ctx: Context, r: Traced): Context
  {
    ctx.(prop := r.prop, located := r.located)
  }

  // ---------------------------------------------------------------------------
  // The tracer, as functions

  function AfterTrace(t: Tree, st: Store, id: Id, ctx: Context): (r: Traced)
    requires SubVisitor.Fits(t, st) && id < |t.nodes|
    ensures |r.store.text| == |t.nodes|
    decreases SubVisitor.Budget(ctx.recurses), |t.nodes| - id, 2, 0
  {
    var h := AfterTraceHandler(t, st, id, ctx);
    if h.thrown then h
    else AfterTraceAll(t, h.store, Children(t.nodes[id]), id, Carry(ctx, h))
  }

  /** `path.traverse(subVisitor, ctx)`: the context object is shared by all the visits; an exception ends the traversal. */
  function AfterTraceAll(t: Tree, st: Store, kids: seq<Id>, parent: int, ctx: Context): (r: Traced)
    requires SubVisitor.Fits(t, st) && SubVisitor.Below(t, kids, parent)
    ensures |r.store.text| == |t.nodes|
    decreases SubVisitor.Budget(ctx.recurses), |t.nodes| - parent, 0, |kids|
  {
    if kids == [] then Normal(st, ctx)
    else
      var v := AfterTrace(t, st, kids[0], ctx);
      if v.thrown then v
      else AfterTraceAll(t, v.store, kids[1..], parent, Carry(ctx, v))
  }

  /**
    One handler of the tracer.  The warning about an imported identifier prints
    a code frame of `this.propLocation`; `createHighlightedCodeFrame`
    destructures its location argument, so when no location is set it throws a
    `TypeError` before anything is printed.
   */
  function AfterTraceHandler(t: Tree, st: Store, id: Id, ctx: Context): (r: Traced)
    requires SubVisitor.Fits(t, st) && id < |t.nodes|
    ensures |r.store.text| == |t.nodes|
    decreases SubVisitor.Budget(ctx.recurses), |t.nodes| - id, 1, 0
  {
    FieldsInTree(t, id);
    match t.nodes[id]
    case StringLiteral =>
      if ctx.recurses > 9 then Normal(st.(console := st.console + [TooManyRecurses]), ctx)
      else Normal(st.(text := st.text[id := UpdatedValue(ctx.component, ctx.prop, st.text[id])]), ctx)
    case ObjectProperty(key, computed, _) =>
      if !HasProp(ctx.prop) && !computed && t.nodes[key].Identifier? then Traced(st, Some(st.text[key]), true, false)
      else if t.nodes[key].StringLiteral? then Traced(st, Some(st.text[key]), true, false)
      else Normal(st.(console := st.console + [UntraceableProperty(Some(ctx.component))]), ctx)
    case Identifier =>
      if ctx.recurses > 9 then Normal(st.(console := st.console + [TooManyRecurses]), ctx)
      else if st.text[id] !in t.bindings then Normal(st, ctx)
      else
        var b := t.bindings[st.text[id]];
        FieldsInTree(t, b.path);
        (match t.nodes[b.path]
         case VariableDeclarator(_, init) =>
           if init.None? then Normal(st, ctx)
           else if t.nodes[init.value].StringLiteral? then
             Normal(st.(text := st.text[init.value := UpdatedValue(ctx.component, ctx.prop, st.text[init.value])]), ctx)
           else
             var nested := AfterTraceAll(t, st, Children(t.nodes[init.value]), init.value, ctx.(recurses := ctx.recurses + 1));
             Traced(nested.store, ctx.prop, ctx.located, nested.thrown)
         case ImportSpecifier(_, local, source) =>
           if ctx.located then
             Normal(st.(console := st.console + [UntraceableImport(st.text[local], source, ctx.prop, ctx.component)]), ctx)
           else Traced(st, ctx.prop, ctx.located, true)
         case _ => Normal(st, ctx))
    case _ => Normal(st, ctx)
  }

  // ---------------------------------------------------------------------------
  // Program.enter: which names refer to the table's owners

  /** The plugin's state: set to empty by `pre()`, filled by `Program.enter`. */
  datatype PluginState = PluginState(importNames: map<string, string>, namespace: Option<string>)

  const Pre := PluginState(map[], None)

  /** `r` keeps every name `s` tracks, and each name it tracks anew, or re-tracks, stands for an owner. */
  predicate ExtendsWithOwners(s: PluginState, r: PluginState)
  {
    && s.importNames.Keys <= r.importNames.Keys
    && forall k | k in r.importNames ::
         r.importNames[k] in Owners || (k in s.importNames && r.importNames[k] == s.importNames[k])
  }

  function ScanSpecifier(s: PluginState, spec: Specifier): (r: PluginState)
    ensures ExtendsWithOwners(s, r)
  {
    match spec
    case NamedSpecifier(local, imported) =>
      if imported.IdentifierName? && imported.name in Owners
      then s.(importNames := s.importNames[local := imported.name])
      else s
    case NamespaceSpecifier(local) => s.(namespace := Some(local))
    case DefaultSpecifier(_) => s
  }

  function ScanSpecifiers(s: PluginState, specs: seq<Specifier>): (r: PluginState)
    ensures ExtendsWithOwners(s, r)
    decreases |specs|
  {
    if specs == [] then s else ScanSpecifiers(ScanSpecifier(s, specs[0]), specs[1..])
  }

  function ScanStatement(s: PluginState, statement: Statement): (r: PluginState)
    ensures ExtendsWithOwners(s, r)
    ensures !(statement.ImportDeclaration? && IsBraidSource(statement.source)) ==> r == s
  {
    if statement.ImportDeclaration? && IsBraidSource(statement.source)
    then ScanSpecifiers(s, statement.specifiers)
    else s
  }

  function ScanStatements(s: PluginState, body: seq<Statement>): (r: PluginState)
    ensures ExtendsWithOwners(s, r)
    decreases |body|
  {
    if body == [] then s else ScanStatements(ScanStatement(s, body[0]), body[1..])
  }

  // ---------------------------------------------------------------------------
  // JSXOpeningElement and CallExpression

  /** The owner a JSX element name stands for, if the plugin tracks it. */
  function ElementName(s: PluginState, name: JsxName): (r: Option<string>)
    ensures r.Some? && name.JsxIdentifier? ==> name.name in s.importNames && r.value == s.importNames[name.name]
    ensures r.Some? && name.JsxMemberName? ==> name.base.JsxIdentifier? && s.namespace == Some(name.base.name) && r.value == name.property
    ensures name.JsxNamespacedName? ==> r.None?
  {
    match name
    case JsxMemberName(base, property) =>
      if base.JsxIdentifier? && Some(base.name) == s.namespace then Some(property) else None
    case JsxIdentifier(n) => if n in s.importNames then Some(s.importNames[n]) else None
    case JsxNamespacedName(_, _) => None
  }

  /** The file after the plugin's visitors have run so far, and whether one of them threw. */
  datatype Visited = Visited(store: Store, thrown: bool)

  /** A traversal by the tracer, as a visitor's outcome. */
  function Outcome(r: Traced): Visited
  {
    Visited(r.store, r.thrown)
  }

  /**
    One attribute of a tracked element with owner `component`.  An attribute's
    own value gives the tracer a prop name and a location; a spread gives it
    neither.
   */
  function AfterAttribute(t: Tree, st: Store, attr: Id, component: string): (r: Visited)
    requires SubVisitor.Fits(t, st) && attr < |t.nodes|
    ensures |r.store.text| == |t.nodes|
  {
    FieldsInTree(t, attr);
    match t.nodes[attr]
    case JsxAttribute(name, value) =>
      if name.NamespacedAttrName? || value.None? then Visited(st, false)
      else if t.nodes[value.value].StringLiteral? then
        Visited(st.(text := st.text[value.value := UpdatedValue(component, Some(name.name), st.text[value.value])]), false)
      else
        Outcome(AfterTraceAll(t, st, Children(t.nodes[value.value]), value.value,
                              Context(component, Some(name.name), true, 0)))
    case JsxSpreadAttribute(argument) =>
      Outcome(AfterTraceAll(t, st, [argument], attr, Context(component, None, false, 0)))
    case _ => Visited(st, false)
  }

  function AfterAttributes(t: Tree, st: Store, attrs: seq<Id>, parent: Id, component: string): (r: Visited)
    requires SubVisitor.Fits(t, st) && SubVisitor.Below(t, attrs, parent)
    ensures |r.store.text| == |t.nodes|
    decreases |attrs|
  {
    if attrs == [] then Visited(st, false)
    else
      var a := AfterAttribute(t, st, attrs[0], component);
      if a.thrown then a else AfterAttributes(t, a.store, attrs[1..], parent, component)
  }

  function AfterOpeningElement(t: Tree, st: Store, s: PluginState, id: Id): (r: Visited)
    requires SubVisitor.Fits(t, st) && id < |t.nodes| && t.nodes[id].JsxOpeningElement?
    ensures |r.store.text| == |t.nodes|
  {
    var owner := ElementName(s, t.nodes[id].elementName);
    if owner.Some? && owner.value != "" then
      assert t.nodes[id].attributes == Children(t.nodes[id]);
      AfterAttributes(t, st, t.nodes[id].attributes, id, owner.value)
    else Visited(st, false)
  }

  /** One argument of a call whose callee stands for the owner `component`; the tracer gets neither a prop name nor a location. */
  function AfterArgument(t: Tree, st: Store, call: Id, arg: Id, component: string): (r: Visited)
    requires SubVisitor.Fits(t, st) && call < |t.nodes| && t.nodes[call].Call? && arg in t.nodes[call].arguments
    ensures |r.store.text| == |t.nodes|
  {
    FieldsInTree(t, call);
    var ctx := Context(component, None, false, 0);
    if t.nodes[arg].Identifier? then
      if st.text[arg] !in t.bindings then Visited(st, false)
      else
        var b := t.bindings[st.text[arg]];
        Outcome(AfterTraceAll(t, st, Children(t.nodes[b.path]), b.path, ctx))
    else if t.nodes[arg].ObjectExpression? then
      var first := DeArray(Many(t.nodes[call].arguments)).value;
      Outcome(AfterTraceAll(t, st, Children(t.nodes[first]), first, ctx))
    else Visited(st, false)
  }

  /** `path.node.arguments.forEach(...)`, from the argument numbered `i` on. */
  function AfterArguments(t: Tree, st: Store, call: Id, i: nat, component: string): (r: Visited)
    requires SubVisitor.Fits(t, st) && call < |t.nodes| && t.nodes[call].Call?
    requires i <= |t.nodes[call].arguments|
    ensures |r.store.text| == |t.nodes|
    decreases |t.nodes[call].arguments| - i
  {
    if i == |t.nodes[call].arguments| then Visited(st, false)
    else
      var a := AfterArgument(t, st, call, t.nodes[call].arguments[i], component);
      if a.thrown then a else AfterArguments(t, a.store, call, i + 1, component)
  }

  function AfterCall(t: Tree, st: Store, s: PluginState, id: Id): (r: Visited)
    requires SubVisitor.Fits(t, st) && id < |t.nodes| && t.nodes[id].Call?
    ensures |r.store.text| == |t.nodes|
  {
    FieldsInTree(t, id);
    var callee := t.nodes[id].callee;
    if !t.nodes[callee].Identifier? then Visited(st, false)
    else if st.text[callee] !in s.importNames || s.importNames[st.text[callee]] == "" then Visited(st, false)
    else AfterArguments(t, st, id, 0, s.importNames[st.text[callee]])
  }

  /** What the plugin's visitor does on entering node `id`. */
  function AfterSite(t: Tree, st: Store, s: PluginState, id: Id): (r: Visited)
    requires SubVisitor.Fits(t, st) && id < |t.nodes|
    ensures |r.store.text| == |t.nodes|
  {
    match t.nodes[id]
    case JsxOpeningElement(_, _) => AfterOpeningElement(t, st, s, id)
    case Call(_, _) => AfterCall(t, st, s, id)
    case _ => Visited(st, false)
  }

  /**
    The plugin's traversal of the program from node `id`, entering each node
    before its children.  An exception from a visitor ends the transform of the
    file, and nothing of it is written.
   */
  function AfterProgram(t: Tree, st: Store, s: PluginState, id: Id): (r: Visited)
    requires SubVisitor.Fits(t, st) && id < |t.nodes|
    ensures |r.store.text| == |t.nodes|
    decreases |t.nodes| - id, 1, 0
  {
    var v := AfterSite(t, st, s, id);
    if v.thrown then v else AfterProgramAll(t, v.store, s, Children(t.nodes[id]), id)
  }

  function AfterProgramAll(t: Tree, st: Store, s: PluginState, kids: seq<Id>, parent: int): (r: Visited)
    requires SubVisitor.Fits(t, st) && SubVisitor.Below(t, kids, parent)
    ensures |r.store.text| == |t.nodes|
    decreases |t.nodes| - parent, 0, |kids|
  {
    if kids == [] then Visited(st, false)
    else
      var v := AfterProgram(t, st, s, kids[0]);
      if v.thrown then v else AfterProgramAll(t, v.store, s, kids[1..], parent)
  }

  // ---------------------------------------------------------------------------
  // What Program.enter records

  /** An import specifier the scan records under the local name `local`. */
  predicate TracksAs(spec: Specifier, local: string)
  {
    spec.NamedSpecifier? && spec.local == local && spec.imported.IdentifierName? && spec.imported.name in Owners
  }

  /** Statement `i` is an import from Braid. */
  predicate IsBraidImport(body: seq<Statement>, i: int)
  {
    0 <= i < |body| && body[i].ImportDeclaration? && IsBraidSource(body[i].source)
  }

  /** Some import from Braid brings in a table owner under the local name `local`. */
  ghost predicate ImportsOwnerAs(body: seq<Statement>, local: string)
  {
    exists i, j :: IsBraidImport(body, i) && 0 <= j < |body[i].specifiers| && TracksAs(body[i].specifiers[j], local)
  }

  ghost predicate NamesOwners(s: PluginState)
  {
    forall k | k in s.importNames :: s.importNames[k] in Owners
  }

  lemma {:induction false} SpecifiersTrack(s: PluginState, specs: seq<Specifier>, local: string)
    ensures NamesOwners(s) ==> NamesOwners(ScanSpecifiers(s, specs))
    ensures local in ScanSpecifiers(s, specs).importNames
        <==> local in s.importNames || exists j | 0 <= j < |specs| :: TracksAs(specs[j], local)
    decreases |specs|
  {
    if specs != [] {
      var next := ScanSpecifier(s, specs[0]);
      SpecifiersTrack(next, specs[1..], local);
      assert local in next.importNames <==> local in s.importNames || TracksAs(specs[0], local);
      if exists j | 0 <= j < |specs[1..]| :: TracksAs(specs[1..][j], local) {
        var j :| 0 <= j < |specs[1..]| && TracksAs(specs[1..][j], local);
        assert TracksAs(specs[j + 1], local);
      }
      if exists j | 0 <= j < |specs| :: TracksAs(specs[j], local) {
        var j :| 0 <= j < |specs| && TracksAs(specs[j], local);
        if j > 0 {
          assert TracksAs(specs[1..][j - 1], local);
        }
      }
    }
  }

  /**
    After `Program.enter`, a local name is tracked exactly when an import
    from Braid brings in a table owner under that name, and it always stands
    for a table owner.
   */
  lemma {:induction false} ScanTracksExactlyBraidOwners(s: PluginState, body: seq<Statement>, local: string)
    ensures NamesOwners(s) ==> NamesOwners(ScanStatements(s, body))
    ensures local in ScanStatements(s, body).importNames <==> local in s.importNames || ImportsOwnerAs(body, local)
    decreases |body|
  {
    if body != [] {
      var next := ScanStatement(s, body[0]);
      ScanTracksExactlyBraidOwners(next, body[1..], local);
      if IsBraidImport(body, 0) {
        SpecifiersTrack(s, body[0].specifiers, local);
      }
      assert local in next.importNames
         <==> local in s.importNames
              || (IsBraidImport(body, 0)
                  && exists j | 0 <= j < |body[0].specifiers| :: TracksAs(body[0].specifiers[j], local));
      if ImportsOwnerAs(body[1..], local) {
        var i, j :| IsBraidImport(body[1..], i) && 0 <= j < |body[1..][i].specifiers| && TracksAs(body[1..][i].specifiers[j], local);
        assert IsBraidImport(body, i + 1) && TracksAs(body[i + 1].specifiers[j], local);
      }
      if ImportsOwnerAs(body, local) {
        var i, j :| IsBraidImport(body, i) && 0 <= j < |body[i].specifiers| && TracksAs(body[i].specifiers[j], local);
        if i > 0 {
          assert IsBraidImport(body[1..], i - 1) && TracksAs(body[1..][i - 1].specifiers[j], local);
        }
      }
    }
  }

  /** A file with no import from Braid leaves the plugin's state as `pre()` set it. */
  lemma {:induction false} ForeignImportsAreIgnored(s: PluginState, body: seq<Statement>)
    requires forall i | 0 <= i < |body| :: !IsBraidImport(body, i)
    ensures ScanStatements(s, body) == s
    decreases |body|
  {
    if body != [] {
      assert !IsBraidImport(body, 0);
      assert forall i | 0 <= i < |body[1..]| :: !IsBraidImport(body[1..], i) by {
        forall i | 0 <= i < |body[1..]|
          ensures !IsBraidImport(body[1..], i)
        {
          assert !IsBraidImport(body, i + 1);
        }
      }
      ForeignImportsAreIgnored(s, body[1..]);
    }
  }

  // ---------------------------------------------------------------------------
  // What the plugin does to a file, over every tree

  /** The plugin only rewrites string literals through the table; it reports on the console, never to the file's warnings. */
  ghost predicate ConsoleOnly(t: Tree, a: Store, b: Store)
  {
    Evolves(t, a, b) && b.warnings == a.warnings
  }

  lemma ConsoleOnlyTransitive(t: Tree, a: Store, b: Store, c: Store)
    requires ConsoleOnly(t, a, b) && ConsoleOnly(t, b, c)
    ensures ConsoleOnly(t, a, c)
  {
    EvolvesTransitive(t, a, b, c);
  }

  lemma {:induction false} TraceConsoleOnly(t: Tree, st: Store, id: Id, ctx: Context)
    requires SubVisitor.Fits(t, st) && id < |t.nodes|
    ensures ConsoleOnly(t, st, AfterTrace(t, st, id, ctx).store)
    decreases SubVisitor.Budget(ctx.recurses), |t.nodes| - id, 2, 0
  {
    var h := AfterTraceHandler(t, st, id, ctx);
    TraceHandlerConsoleOnly(t, st, id, ctx);
    if !h.thrown {
      TraceAllConsoleOnly(t, h.store, Children(t.nodes[id]), id, Carry(ctx, h));
      ConsoleOnlyTransitive(t, st, h.store, AfterTrace(t, st, id, ctx).store);
    }
  }

  lemma {:induction false} TraceAllConsoleOnly(t: Tree, st: Store, kids: seq<Id>, parent: int, ctx: Context)
    requires SubVisitor.Fits(t, st) && SubVisitor.Below(t, kids, parent)
    ensures ConsoleOnly(t, st, AfterTraceAll(t, st, kids, parent, ctx).store)
    decreases SubVisitor.Budget(ctx.recurses), |t.nodes| - parent, 0, |kids|
  {
    if kids != [] {
      var v := AfterTrace(t, st, kids[0], ctx);
      TraceConsoleOnly(t, st, kids[0], ctx);
      if !v.thrown {
        TraceAllConsoleOnly(t, v.store, kids[1..], parent, Carry(ctx, v));
        ConsoleOnlyTransitive(t, st, v.store, AfterTraceAll(t, st, kids, parent, ctx).store);
      }
    }
  }

  lemma {:induction false} TraceHandlerConsoleOnly(t: Tree, st: Store, id: Id, ctx: Context)
    requires SubVisitor.Fits(t, st) && id < |t.nodes|
    ensures ConsoleOnly(t, st, AfterTraceHandler(t, st, id, ctx).store)
    decreases SubVisitor.Budget(ctx.recurses), |t.nodes| - id, 1, 1
  {
    FieldsInTree(t, id);
    match t.nodes[id]
    case StringLiteral =>
      if ctx.recurses <= 9 {
        UpdateEvolves(t, st, id, ctx.component, ctx.prop);
      }
    case Identifier =>
      IdentifierHandlerConsoleOnly(t, st, id, ctx);
    case _ =>
  }

  lemma {:induction false} IdentifierHandlerConsoleOnly(t: Tree, st: Store, id: Id, ctx: Context)
    requires SubVisitor.Fits(t, st) && id < |t.nodes| && t.nodes[id].Identifier?
    ensures ConsoleOnly(t, st, AfterTraceHandler(t, st, id, ctx).store)
    decreases SubVisitor.Budget(ctx.recurses), |t.nodes| - id, 1, 0
  {
    if ctx.recurses <= 9 && st.text[id] in t.bindings {
      var b := t.bindings[st.text[id]];
      FieldsInTree(t, b.path);
      match t.nodes[b.path]
      case VariableDeclarator(_, init) =>
        if init.Some? {
          if t.nodes[init.value].StringLiteral? {
            UpdateEvolves(t, st, init.value, ctx.component, ctx.prop);
          } else {
            TraceAllConsoleOnly(t, st, Children(t.nodes[init.value]), init.value, ctx.(recurses := ctx.recurses + 1));
          }
        }
      case _ =>
    }
  }

  lemma AttributeConsoleOnly(t: Tree, st: Store, attr: Id, component: string)
    requires SubVisitor.Fits(t, st) && attr < |t.nodes|
    ensures ConsoleOnly(t, st, AfterAttribute(t, st, attr, component).store)
  {
    FieldsInTree(t, attr);
    match t.nodes[attr]
    case JsxAttribute(name, value) =>
      if name.PlainName? && value.Some? {
        if t.nodes[value.value].StringLiteral? {
          UpdateEvolves(t, st, value.value, component, Some(name.name));
        } else {
          TraceAllConsoleOnly(t, st, Children(t.nodes[value.value]), value.value,
                              Context(component, Some(name.name), true, 0));
        }
      }
    case JsxSpreadAttribute(argument) =>
      TraceAllConsoleOnly(t, st, [argument], attr, Context(component, None, false, 0));
    case _ =>
  }

  lemma {:induction false} AttributesConsoleOnly(t: Tree, st: Store, attrs: seq<Id>, parent: Id, component: string)
    requires SubVisitor.Fits(t, st) && SubVisitor.Below(t, attrs, parent)
    ensures ConsoleOnly(t, st, AfterAttributes(t, st, attrs, parent, component).store)
    decreases |attrs|
  {
    if attrs != [] {
      var mid := AfterAttribute(t, st, attrs[0], component);
      AttributeConsoleOnly(t, st, attrs[0], component);
      if !mid.thrown {
        AttributesConsoleOnly(t, mid.store, attrs[1..], parent, component);
        ConsoleOnlyTransitive(t, st, mid.store, AfterAttributes(t, st, attrs, parent, component).store);
      }
    }
  }

  lemma ArgumentConsoleOnly(t: Tree, st: Store, call: Id, arg: Id, component: string)
    requires SubVisitor.Fits(t, st) && call < |t.nodes| && t.nodes[call].Call? && arg in t.nodes[call].arguments
    ensures ConsoleOnly(t, st, AfterArgument(t, st, call, arg, component).store)
  {
    FieldsInTree(t, call);
    var ctx := Context(component, None, false, 0);
    if t.nodes[arg].Identifier? && st.text[arg] in t.bindings {
      var b := t.bindings[st.text[arg]];
      TraceAllConsoleOnly(t, st, Children(t.nodes[b.path]), b.path, ctx);
    } else if t.nodes[arg].ObjectExpression? {
      var first := DeArray(Many(t.nodes[call].arguments)).value;
      TraceAllConsoleOnly(t, st, Children(t.nodes[first]), first, ctx);
    }
  }

  lemma {:induction false} ArgumentsConsoleOnly(t: Tree, st: Store, call: Id, i: nat, component: string)
    requires SubVisitor.Fits(t, st) && call < |t.nodes| && t.nodes[call].Call?
    requires i <= |t.nodes[call].arguments|
    ensures ConsoleOnly(t, st, AfterArguments(t, st, call, i, component).store)
    decreases |t.nodes[call].arguments| - i
  {
    if i < |t.nodes[call].arguments| {
      var mid := AfterArgument(t, st, call, t.nodes[call].arguments[i], component);
      ArgumentConsoleOnly(t, st, call, t.nodes[call].arguments[i], component);
      if !mid.thrown {
        ArgumentsConsoleOnly(t, mid.store, call, i + 1, component);
        ConsoleOnlyTransitive(t, st, mid.store, AfterArguments(t, st, call, i, component).store);
      }
    }
  }

  lemma SiteConsoleOnly(t: Tree, st: Store, s: PluginState, id: Id)
    requires SubVisitor.Fits(t, st) && id < |t.nodes|
    ensures ConsoleOnly(t, st, AfterSite(t, st, s, id).store)
  {
    FieldsInTree(t, id);
    match t.nodes[id]
    case JsxOpeningElement(name, attributes) =>
      var owner := ElementName(s, name);
      if owner.Some? && owner.value != "" {
        assert attributes == Children(t.nodes[id]);
        AttributesConsoleOnly(t, st, attributes, id, owner.value);
      }
    case Call(callee, _) =>
      if t.nodes[callee].Identifier? && st.text[callee] in s.importNames {
        ArgumentsConsoleOnly(t, st, id, 0, s.importNames[st.text[callee]]);
      }
    case _ =>
  }

  /**
    The whole pass over a file, up to its end or up to the exception that ends
    it: every string literal is either left alone or set to the value the table
    maps it to, only string literals change, the file's warnings stay as they
    were, and the console only grows.
   */
  lemma {:induction false} ProgramConsoleOnly(t: Tree, st: Store, s: PluginState, id: Id)
    requires SubVisitor.Fits(t, st) && id < |t.nodes|
    ensures ConsoleOnly(t, st, AfterProgram(t, st, s, id).store)
    decreases |t.nodes| - id, 1, 0
  {
    var mid := AfterSite(t, st, s, id);
    SiteConsoleOnly(t, st, s, id);
    if !mid.thrown {
      ProgramAllConsoleOnly(t, mid.store, s, Children(t.nodes[id]), id);
      ConsoleOnlyTransitive(t, st, mid.store, AfterProgram(t, st, s, id).store);
    }
  }

  lemma {:induction false} ProgramAllConsoleOnly(t: Tree, st: Store, s: PluginState, kids: seq<Id>, parent: int)
    requires SubVisitor.Fits(t, st) && SubVisitor.Below(t, kids, parent)
    ensures ConsoleOnly(t, st, AfterProgramAll(t, st, s, kids, parent).store)
    decreases |t.nodes| - parent, 0, |kids|
  {
    if kids != [] {
      var mid := AfterProgram(t, st, s, kids[0]);
      ProgramConsoleOnly(t, st, s, kids[0]);
      if !mid.thrown {
        ProgramAllConsoleOnly(t, mid.store, s, kids[1..], parent);
        ConsoleOnlyTransitive(t, st, mid.store, AfterProgramAll(t, st, s, kids, parent).store);
      }
    }
  }

  /** A file that imports nothing from Braid comes out of the plugin exactly as it went in. */
  lemma {:induction false} ForeignFileIsUntouched(t: Tree, st: Store, body: seq<Statement>, id: Id)
    requires SubVisitor.Fits(t, st) && id < |t.nodes|
    requires forall i | 0 <= i < |body| :: !IsBraidImport(body, i)
    ensures AfterProgram(t, st, ScanStatements(Pre, body), id) == Visited(st, false)
  {
    ForeignImportsAreIgnored(Pre, body);
    UntrackedProgramIsUntouched(t, st, id);
  }

  lemma {:induction false} UntrackedProgramIsUntouched(t: Tree, st: Store, id: Id)
    requires SubVisitor.Fits(t, st) && id < |t.nodes|
    ensures AfterProgram(t, st, Pre, id) == Visited(st, false)
    decreases |t.nodes| - id, 1, 0
  {
    assert AfterSite(t, st, Pre, id) == Visited(st, false);
    UntrackedProgramAllIsUntouched(t, st, Children(t.nodes[id]), id);
  }

  lemma {:induction false} UntrackedProgramAllIsUntouched(t: Tree, st: Store, kids: seq<Id>, parent: int)
    requires SubVisitor.Fits(t, st) && SubVisitor.Below(t, kids, parent)
    ensures AfterProgramAll(t, st, Pre, kids, parent) == Visited(st, false)
    decreases |t.nodes| - parent, 0, |kids|
  {
    if kids != [] {
      UntrackedProgramIsUntouched(t, st, kids[0]);
      UntrackedProgramAllIsUntouched(t, st, kids[1..], parent);
    }
  }

  // ---------------------------------------------------------------------------
  // Names and calls the plugin leaves alone

  /** A name with no binding in scope, within the nesting limit: the Identifier handler does nothing. */
  lemma UnboundIdentifierIsNoOp(t: Tree, st: Store, id: Id, ctx: Context)
    requires SubVisitor.Fits(t, st) && id < |t.nodes| && t.nodes[id].Identifier? && st.text[id] !in t.bindings
    requires ctx.recurses <= 9
    ensures AfterTraceHandler(t, st, id, ctx) == Normal(st, ctx)
  {
  }

  /**
    A call is traced only when its callee is a name that an import from the
    library binds to an owner; any other call leaves the file as it is.
   */
  lemma UntrackedCallIsIgnored(t: Tree, st: Store, s: PluginState, id: Id)
    requires SubVisitor.Fits(t, st) && id < |t.nodes| && t.nodes[id].Call? && t.nodes[id].callee < |t.nodes|
    requires var callee := t.nodes[id].callee;
             !t.nodes[callee].Identifier? || st.text[callee] !in s.importNames || s.importNames[st.text[callee]] == ""
    ensures AfterCall(t, st, s, id) == Visited(st, false)
  {
  }

  /**
    An object among the arguments of a tracked call: `deArray` of the argument
    list is its first argument, so the tracer follows the first argument's
    children, whichever argument the object is.
   */
  lemma ObjectArgumentTracesFirst(t: Tree, st: Store, call: Id, arg: Id, component: string)
    requires SubVisitor.Fits(t, st) && call < |t.nodes| && t.nodes[call].Call? && arg in t.nodes[call].arguments
    requires arg < |t.nodes| && t.nodes[arg].ObjectExpression?
    ensures t.nodes[call].arguments != [] && t.nodes[call].arguments[0] < |t.nodes|
    ensures var first := t.nodes[call].arguments[0];
            AfterArgument(t, st, call, arg, component)
              == Outcome(AfterTraceAll(t, st, Children(t.nodes[first]), first, Context(component, None, false, 0)))
  {
    FieldsInTree(t, call);
    assert t.nodes[call].arguments[0] == Children(t.nodes[call])[1];
  }

  /** An unbound name passed to a tracked call: nothing is traced. */
  lemma UnboundArgumentIsIgnored(t: Tree, st: Store, call: Id, arg: Id, component: string)
    requires SubVisitor.Fits(t, st) && call < |t.nodes| && t.nodes[call].Call? && arg in t.nodes[call].arguments
    requires arg < |t.nodes| && t.nodes[arg].Identifier? && st.text[arg] !in t.bindings
    ensures AfterArgument(t, st, call, arg, component) == Visited(st, false)
  {
  }

  // ---------------------------------------------------------------------------
  // The import warning and `this.propLocation`

  /** An imported name met while the context object holds a location: one console warning, and the traversal goes on. */
  lemma ImportedIdentifierWarns(t: Tree, st: Store, id: Id, ctx: Context)
    requires SubVisitor.Fits(t, st) && id < |t.nodes| && t.nodes[id].Identifier?
    requires ctx.recurses <= 9 && st.text[id] in t.bindings && t.nodes[t.bindings[st.text[id]].path].ImportSpecifier?
    requires ctx.located
    ensures t.nodes[t.bindings[st.text[id]].path].local < |st.text|
    ensures var spec := t.nodes[t.bindings[st.text[id]].path];
            AfterTraceHandler(t, st, id, ctx)
              == Normal(st.(console := st.console + [UntraceableImport(st.text[spec.local], spec.source, ctx.prop, ctx.component)]), ctx)
  {
    FieldsInTree(t, t.bindings[st.text[id]].path);
  }

  /**
    An imported name met while no location is set: building the warning's
    code frame throws, before anything is printed, and the traversal ends.
   */
  lemma ImportedIdentifierThrows(t: Tree, st: Store, id: Id, ctx: Context)
    requires SubVisitor.Fits(t, st) && id < |t.nodes| && t.nodes[id].Identifier?
    requires ctx.recurses <= 9 && st.text[id] in t.bindings && t.nodes[t.bindings[st.text[id]].path].ImportSpecifier?
    requires !ctx.located
    ensures AfterTraceHandler(t, st, id, ctx) == Traced(st, ctx.prop, false, true)
  {
    FieldsInTree(t, t.bindings[st.text[id]].path);
  }

  /**
    `<Box {...styles} />` where `styles` is imported: the spread's tracer has no
    location, so the attribute's visit throws, and nothing of it is kept.
   */
  lemma SpreadOfImportThrows(t: Tree, st: Store, attr: Id, arg: Id, component: string)
    requires SubVisitor.Fits(t, st) && attr < |t.nodes| && t.nodes[attr] == JsxSpreadAttribute(arg)
    requires arg < |t.nodes| && t.nodes[arg].Identifier?
    requires st.text[arg] in t.bindings && t.nodes[t.bindings[st.text[arg]].path].ImportSpecifier?
    ensures AfterAttribute(t, st, attr, component) == Visited(st, true)
  {
    var ctx := Context(component, None, false, 0);
    FieldsInTree(t, attr);
    ImportedIdentifierThrows(t, st, arg, ctx);
    assert AfterTrace(t, st, arg, ctx) == Traced(st, None, false, true);
  }

  /** The context object with its location set, which is what the warning's code frame needs. */
  function Located(ctx: Context): (r: Context)
    ensures r.located && r.component == ctx.component && r.prop == ctx.prop && r.recurses == ctx.recurses
  {
    ctx.(located := true)
  }

  /**
    With a location set, the tracer never throws, and the location stays set:
    each imported name it meets gets its console warning instead.
   */
  lemma {:induction false} LocatedTraceNeverThrows(t: Tree, st: Store, id: Id, ctx: Context)
    requires SubVisitor.Fits(t, st) && id < |t.nodes| && ctx.located
    ensures !AfterTrace(t, st, id, ctx).thrown && AfterTrace(t, st, id, ctx).located
    decreases SubVisitor.Budget(ctx.recurses), |t.nodes| - id, 2, 0
  {
    var h := AfterTraceHandler(t, st, id, ctx);
    LocatedHandlerNeverThrows(t, st, id, ctx);
    LocatedTraceAllNeverThrows(t, h.store, Children(t.nodes[id]), id, Carry(ctx, h));
  }

  lemma {:induction false} LocatedTraceAllNeverThrows(t: Tree, st: Store, kids: seq<Id>, parent: int, ctx: Context)
    requires SubVisitor.Fits(t, st) && SubVisitor.Below(t, kids, parent) && ctx.located
    ensures !AfterTraceAll(t, st, kids, parent, ctx).thrown && AfterTraceAll(t, st, kids, parent, ctx).located
    decreases SubVisitor.Budget(ctx.recurses), |t.nodes| - parent, 0, |kids|
  {
    if kids != [] {
      var v := AfterTrace(t, st, kids[0], ctx);
      LocatedTraceNeverThrows(t, st, kids[0], ctx);
      LocatedTraceAllNeverThrows(t, v.store, kids[1..], parent, Carry(ctx, v));
    }
  }

  lemma {:induction false} LocatedHandlerNeverThrows(t: Tree, st: Store, id: Id, ctx: Context)
    requires SubVisitor.Fits(t, st) && id < |t.nodes| && ctx.located
    ensures !AfterTraceHandler(t, st, id, ctx).thrown && AfterTraceHandler(t, st, id, ctx).located
    decreases SubVisitor.Budget(ctx.recurses), |t.nodes| - id, 1, 0
  {
    FieldsInTree(t, id);
    match t.nodes[id]
    case Identifier =>
      if ctx.recurses <= 9 && st.text[id] in t.bindings {
        var b := t.bindings[st.text[id]];
        FieldsInTree(t, b.path);
        match t.nodes[b.path]
        case VariableDeclarator(_, init) =>
          if init.Some? && !t.nodes[init.value].StringLiteral? {
            LocatedTraceAllNeverThrows(t, st, Children(t.nodes[init.value]), init.value, ctx.(recurses := ctx.recurses + 1));
          }
        case _ =>
      }
    case _ =>
  }

  /**
    Past ten nested traversals the tracer rewrites no literal and does not
    throw: the StringLiteral and Identifier handlers only report, and the
    ObjectProperty handler starts no traversal of its own.
   */
  lemma {:induction false} SaturatedTraceKeepsText(t: Tree, st: Store, id: Id, ctx: Context)
    requires SubVisitor.Fits(t, st) && id < |t.nodes| && ctx.recurses > 9
    ensures AfterTrace(t, st, id, ctx).store.text == st.text && !AfterTrace(t, st, id, ctx).thrown
    decreases SubVisitor.Budget(ctx.recurses), |t.nodes| - id, 2, 0
  {
    var h := AfterTraceHandler(t, st, id, ctx);
    SaturatedTraceHandlerKeepsText(t, st, id, ctx);
    SaturatedTraceAllKeepsText(t, h.store, Children(t.nodes[id]), id, Carry(ctx, h));
  }

  lemma {:induction false} SaturatedTraceAllKeepsText(t: Tree, st: Store, kids: seq<Id>, parent: int, ctx: Context)
    requires SubVisitor.Fits(t, st) && SubVisitor.Below(t, kids, parent) && ctx.recurses > 9
    ensures AfterTraceAll(t, st, kids, parent, ctx).store.text == st.text
    ensures !AfterTraceAll(t, st, kids, parent, ctx).thrown
    decreases SubVisitor.Budget(ctx.recurses), |t.nodes| - parent, 0, |kids|
  {
    if kids != [] {
      var v := AfterTrace(t, st, kids[0], ctx);
      SaturatedTraceKeepsText(t, st, kids[0], ctx);
      SaturatedTraceAllKeepsText(t, v.store, kids[1..], parent, Carry(ctx, v));
    }
  }

  lemma {:induction false} SaturatedTraceHandlerKeepsText(t: Tree, st: Store, id: Id, ctx: Context)
    requires SubVisitor.Fits(t, st) && id < |t.nodes| && ctx.recurses > 9
    ensures AfterTraceHandler(t, st, id, ctx).store.text == st.text
    ensures !AfterTraceHandler(t, st, id, ctx).thrown
    decreases SubVisitor.Budget(ctx.recurses), |t.nodes| - id, 1, 0
  {
    FieldsInTree(t, id);
  }

  /** With a location set, the spread of an imported name gets its warning and the file goes on. */
  lemma LocatedSpreadOfImportWarns(t: Tree, st: Store, attr: Id, arg: Id, component: string)
    requires SubVisitor.Fits(t, st) && attr < |t.nodes| && t.nodes[attr] == JsxSpreadAttribute(arg)
    requires arg < |t.nodes| && t.nodes[arg].Identifier?
    requires st.text[arg] in t.bindings && t.nodes[t.bindings[st.text[arg]].path].ImportSpecifier?
    ensures attr < arg && t.nodes[t.bindings[st.text[arg]].path].local < |st.text|
    ensures var spec := t.nodes[t.bindings[st.text[arg]].path];
            var ctx := Located(Context(component, None, false, 0));
            AfterTraceAll(t, st, [arg], attr, ctx)
              == Normal(st.(console := st.console + [UntraceableImport(st.text[spec.local], spec.source, None, component)]), ctx)
  {
    var ctx := Located(Context(component, None, false, 0));
    FieldsInTree(t, attr);
    ImportedIdentifierWarns(t, st, arg, ctx);
    var h := AfterTraceHandler(t, st, arg, ctx);
    assert Carry(ctx, h) == ctx && Children(t.nodes[arg]) == [];
    assert AfterTrace(t, st, arg, ctx) == h;
  }

  // ---------------------------------------------------------------------------
  // Two files from the plugin's tests

  /**
    `import { Box as BraidBox } from 'braid-design-system';` then
    `<div background="card"><BraidBox background="card" boxShadow="standard" /></div>`.
   */
  function AliasedBoxTree(): Tree
  {
    Tree([Other([1, 4]),
          JsxOpeningElement(JsxIdentifier("div"), [2]),
          JsxAttribute(PlainName("background"), Some(3)),
          StringLiteral,
          Other([5]),
          JsxOpeningElement(JsxIdentifier("BraidBox"), [6, 8]),
          JsxAttribute(PlainName("background"), Some(7)),
          StringLiteral,
          JsxAttribute(PlainName("boxShadow"), Some(9)),
          StringLiteral],
         [-1, 0, 1, 2, 0, 4, 5, 6, 5, 8],
         map[])
  }

  lemma AliasedBoxTreeIsWellFormed()
    ensures WellFormed(AliasedBoxTree())
  {
    var t := AliasedBoxTree();
    NodeOfTwoFits(t, 0, 1, 4);
    NodeOfOneFits(t, 1, 2);
    NodeOfOneFits(t, 2, 3);
    LeafFits(t, 3);
    NodeOfOneFits(t, 4, 5);
    NodeOfTwoFits(t, 5, 6, 8);
    NodeOfOneFits(t, 6, 7);
    LeafFits(t, 7);
    NodeOfOneFits(t, 8, 9);
    LeafFits(t, 9);
    forall i | 0 <= i < |t.nodes|
      ensures NodeFits(t, i)
    {
      assert i in {0, 1, 2, 3, 4, 5, 6, 7, 8, 9};
    }
    WellFormedByNodes(t);
  }

  lemma LeafFits(t: Tree, i: int)
    requires |t.parent| == |t.nodes| && 0 <= i < |t.nodes|
    requires Children(t.nodes[i]) == [] && -1 <= t.parent[i] < i
    ensures NodeFits(t, i)
  {
  }

  lemma NodeOfOneFits(t: Tree, i: int, a: int)
    requires |t.parent| == |t.nodes| && 0 <= i < |t.nodes|
    requires Children(t.nodes[i]) == [a] && i < a < |t.nodes| && t.parent[a] == i && -1 <= t.parent[i] < i
    ensures NodeFits(t, i)
  {
  }

  lemma NodeOfTwoFits(t: Tree, i: int, a: int, b: int)
    requires |t.parent| == |t.nodes| && 0 <= i < |t.nodes|
    requires Children(t.nodes[i]) == [a, b] && i < a < |t.nodes| && i < b < |t.nodes|
    requires t.parent[a] == i && t.parent[b] == i && -1 <= t.parent[i] < i
    ensures NodeFits(t, i)
  {
  }

  /** The plugin's traversal does nothing inside an attribute whose value is a string literal. */
  lemma LiteralAttributeIsNoSite(t: Tree, st: Store, s: PluginState, id: Id)
    requires SubVisitor.Fits(t, st) && id < |t.nodes| && t.nodes[id].JsxAttribute?
    requires t.nodes[id].attrValue.Some? && t.nodes[id].attrValue.value < |t.nodes|
    requires t.nodes[t.nodes[id].attrValue.value].StringLiteral?
    ensures AfterProgram(t, st, s, id) == Visited(st, false)
  {
    var v := t.nodes[id].attrValue.value;
    FieldsInTree(t, id);
    assert Children(t.nodes[id]) == [v];
    assert AfterSite(t, st, s, id) == Visited(st, false);
    assert AfterProgram(t, st, s, v) == AfterProgramAll(t, st, s, [], v) == Visited(st, false);
    ProgramOfOne(t, st, s, v, id);
  }

  lemma ProgramOfOne(t: Tree, st: Store, s: PluginState, a: Id, parent: int)
    requires SubVisitor.Fits(t, st) && parent < a < |t.nodes|
    ensures AfterProgramAll(t, st, s, [a], parent) == AfterProgram(t, st, s, a)
  {
    assert [a][1..] == [];
  }

  lemma ProgramOfTwo(t: Tree, st: Store, s: PluginState, a: Id, b: Id, parent: int)
    requires SubVisitor.Fits(t, st) && parent < a < |t.nodes| && parent < b < |t.nodes|
    ensures var first := AfterProgram(t, st, s, a);
            AfterProgramAll(t, st, s, [a, b], parent) == if first.thrown then first else AfterProgram(t, first.store, s, b)
  {
    var mid := AfterProgram(t, st, s, a);
    assert [a, b][1..] == [b];
    if !mid.thrown {
      assert AfterProgramAll(t, st, s, [a, b], parent) == AfterProgramAll(t, mid.store, s, [b], parent);
      ProgramOfOne(t, mid.store, s, b, parent);
    }
  }

  /** Entering an element whose name stands for `owner` runs its attributes under that owner. */
  lemma TrackedElementSite(t: Tree, st: Store, s: PluginState, id: Id, owner: string)
    requires SubVisitor.Fits(t, st) && id < |t.nodes| && t.nodes[id].JsxOpeningElement?
    requires SubVisitor.Below(t, t.nodes[id].attributes, id)
    requires ElementName(s, t.nodes[id].elementName) == Some(owner) && owner != ""
    ensures AfterSite(t, st, s, id) == AfterAttributes(t, st, t.nodes[id].attributes, id, owner)
  {
  }

  lemma AttributesOfTwo(t: Tree, st: Store, a: Id, b: Id, parent: Id, component: string)
    requires SubVisitor.Fits(t, st) && parent < a < |t.nodes| && parent < b < |t.nodes|
    ensures var first := AfterAttribute(t, st, a, component);
            AfterAttributes(t, st, [a, b], parent, component) == if first.thrown then first else AfterAttribute(t, first.store, b, component)
  {
    var mid := AfterAttribute(t, st, a, component);
    assert [a, b][1..] == [b] && [b][1..] == [];
    if !mid.thrown {
      assert AfterAttributes(t, st, [a, b], parent, component) == AfterAttributes(t, mid.store, [b], parent, component);
      var last := AfterAttribute(t, mid.store, b, component);
      if !last.thrown {
        assert AfterAttributes(t, mid.store, [b], parent, component)
            == AfterAttributes(t, last.store, [], parent, component);
      }
    }
  }

  /** An attribute `name="..."` of a tracked element: its literal goes through the table. */
  lemma LiteralAttributeIsUpdated(t: Tree, st: Store, attr: Id, component: string, name: string, v: Id)
    requires SubVisitor.Fits(t, st) && attr < v < |t.nodes|
    requires t.nodes[attr] == JsxAttribute(PlainName(name), Some(v)) && t.nodes[v] == StringLiteral
    ensures AfterAttribute(t, st, attr, component)
         == Visited(st.(text := st.text[v := UpdatedValue(component, Some(name), st.text[v])]), false)
  {
  }

  /** An attribute `name={...}` of a tracked element: the tracer runs below its value, with the prop name. */
  lemma ExpressionAttributeIsTraced(t: Tree, st: Store, attr: Id, component: string, name: string, v: Id)
    requires SubVisitor.Fits(t, st) && attr < v < |t.nodes|
    requires t.nodes[attr] == JsxAttribute(PlainName(name), Some(v)) && !t.nodes[v].StringLiteral?
    ensures AfterAttribute(t, st, attr, component)
         == Outcome(AfterTraceAll(t, st, Children(t.nodes[v]), v, Context(component, Some(name), true, 0)))
  {
    FieldsInTree(t, v);
  }

  /** The entries of the table the two files below rely on. */
  lemma BoxCardBackground()
    ensures UpdatedValue("Box", Some("background"), "card") == "surface"
  {
    assert "card" in DeprecatedProps["Box"]["background"];
  }

  lemma BoxBodyBackground()
    ensures UpdatedValue("Box", Some("background"), "body") == "body"
  {
    assert "body" !in DeprecatedProps["Box"]["background"];
  }

  lemma BoxStandardShadow()
    ensures UpdatedValue("Box", Some("boxShadow"), "standard") == "neutralLight"
  {
    assert "standard" in DeprecatedProps["Box"]["boxShadow"];
  }

  /** The aliased element is rewritten as a `Box`; the `div` is not. */
  lemma AliasedBoxIsRewritten(t: Tree, before: Store, s: PluginState)
    requires t == AliasedBoxTree()
    requires before == Store(["", "", "", "card", "", "", "", "card", "", "standard"], [], [])
    requires s == ScanStatements(Pre, [ImportDeclaration("braid-design-system", [NamedSpecifier("BraidBox", IdentifierName("Box"))])])
    ensures WellFormed(t) && AfterProgram(t, before, s, 0) == Visited(before.(text := before.text[7 := "surface"][9 := "neutralLight"]), false)
  {
    var tracked := AliasedImportIsTracked();
    AliasedBoxTreeIsWellFormed();
    DivNodes(t);
    BraidBoxNodes(t);
    AliasedBoxRun(t, before, s);
  }

  lemma DivNodes(t: Tree)
    requires t == AliasedBoxTree()
    ensures |t.nodes| == 10
    ensures t.nodes[0] == Other([1, 4]) && t.nodes[1] == JsxOpeningElement(JsxIdentifier("div"), [2])
    ensures t.nodes[2] == JsxAttribute(PlainName("background"), Some(3)) && t.nodes[3] == StringLiteral
  {
  }

  lemma BraidBoxNodes(t: Tree)
    requires t == AliasedBoxTree()
    ensures t.nodes[4] == Other([5]) && t.nodes[5] == JsxOpeningElement(JsxIdentifier("BraidBox"), [6, 8])
    ensures t.nodes[6] == JsxAttribute(PlainName("background"), Some(7)) && t.nodes[7] == StringLiteral
    ensures t.nodes[8] == JsxAttribute(PlainName("boxShadow"), Some(9)) && t.nodes[9] == StringLiteral
  {
  }

  /** `import { Box as BraidBox }` from the design system tracks `BraidBox` as `Box`. */
  lemma AliasedImportIsTracked() returns (s: PluginState)
    ensures s == ScanStatements(Pre, [ImportDeclaration("braid-design-system", [NamedSpecifier("BraidBox", IdentifierName("Box"))])])
    ensures s.importNames == map["BraidBox" := "Box"]
  {
    var spec := NamedSpecifier("BraidBox", IdentifierName("Box"));
    assert IsBraidSource("braid-design-system");
    assert ScanSpecifiers(Pre, [spec]) == ScanSpecifiers(ScanSpecifier(Pre, spec), []);
    s := ScanStatements(Pre, [ImportDeclaration("braid-design-system", [spec])]);
  }

  lemma AliasedBoxRun(t: Tree, st: Store, s: PluginState)
    requires WellFormed(t) && |t.nodes| == 10 && |st.text| == 10
    requires t.nodes[0] == Other([1, 4]) && t.nodes[1] == JsxOpeningElement(JsxIdentifier("div"), [2])
    requires t.nodes[2] == JsxAttribute(PlainName("background"), Some(3)) && t.nodes[3] == StringLiteral
    requires t.nodes[4] == Other([5]) && t.nodes[5] == JsxOpeningElement(JsxIdentifier("BraidBox"), [6, 8])
    requires t.nodes[6] == JsxAttribute(PlainName("background"), Some(7)) && t.nodes[7] == StringLiteral
    requires t.nodes[8] == JsxAttribute(PlainName("boxShadow"), Some(9)) && t.nodes[9] == StringLiteral
    requires st.text[7] == "card" && st.text[9] == "standard"
    requires s.importNames == map["BraidBox" := "Box"]
    ensures AfterProgram(t, st, s, 0) == Visited(st.(text := st.text[7 := "surface"][9 := "neutralLight"]), false)
  {
    var end := st.(text := st.text[7 := "surface"][9 := "neutralLight"]);
    DivIsUntouched(t, st, s);
    BraidBoxIsRewritten(t, st, s);
    assert AfterSite(t, st, s, 4) == Visited(st, false) && Children(t.nodes[4]) == [5];
    ProgramOfOne(t, st, s, 5, 4);
    assert AfterProgram(t, st, s, 4) == Visited(end, false);
    assert AfterSite(t, st, s, 0) == Visited(st, false) && Children(t.nodes[0]) == [1, 4];
    ProgramOfTwo(t, st, s, 1, 4, 0);
  }

  lemma DivIsUntouched(t: Tree, st: Store, s: PluginState)
    requires SubVisitor.Fits(t, st) && |t.nodes| == 10
    requires t.nodes[1] == JsxOpeningElement(JsxIdentifier("div"), [2])
    requires t.nodes[2] == JsxAttribute(PlainName("background"), Some(3)) && t.nodes[3] == StringLiteral
    requires s.importNames == map["BraidBox" := "Box"]
    ensures AfterProgram(t, st, s, 1) == Visited(st, false)
  {
    assert "div" !in s.importNames;
    assert AfterSite(t, st, s, 1) == Visited(st, false) && Children(t.nodes[1]) == [2];
    LiteralAttributeIsNoSite(t, st, s, 2);
    ProgramOfOne(t, st, s, 2, 1);
  }

  lemma BraidBoxIsRewritten(t: Tree, st: Store, s: PluginState)
    requires SubVisitor.Fits(t, st) && |t.nodes| == 10
    requires t.nodes[5] == JsxOpeningElement(JsxIdentifier("BraidBox"), [6, 8])
    requires t.nodes[6] == JsxAttribute(PlainName("background"), Some(7)) && t.nodes[7] == StringLiteral
    requires t.nodes[8] == JsxAttribute(PlainName("boxShadow"), Some(9)) && t.nodes[9] == StringLiteral
    requires st.text[7] == "card" && st.text[9] == "standard"
    requires s.importNames == map["BraidBox" := "Box"]
    ensures AfterProgram(t, st, s, 5) == Visited(st.(text := st.text[7 := "surface"][9 := "neutralLight"]), false)
  {
    var mid := st.(text := st.text[7 := "surface"]);
    var end := mid.(text := mid.text[9 := "neutralLight"]);
    BoxCardBackground();
    BoxStandardShadow();
    LiteralAttributeIsUpdated(t, st, 6, "Box", "background", 7);
    LiteralAttributeIsUpdated(t, mid, 8, "Box", "boxShadow", 9);
    AttributesOfTwo(t, st, 6, 8, 5, "Box");
    TrackedElementSite(t, st, s, 5, "Box");
    assert AfterSite(t, st, s, 5) == Visited(end, false);
    LiteralAttributeIsNoSite(t, end, s, 6);
    LiteralAttributeIsNoSite(t, end, s, 8);
    assert Children(t.nodes[5]) == [6, 8];
    ProgramOfTwo(t, end, s, 6, 8, 5);
  }

  /** No JSX opening element and no call at or below node `id`. */
  ghost predicate Quiet(t: Tree, id: Id)
    requires WellFormed(t) && id < |t.nodes|
    decreases |t.nodes| - id
  {
    && !t.nodes[id].JsxOpeningElement? && !t.nodes[id].Call?
    && forall k | 0 <= k < |Children(t.nodes[id])| :: Quiet(t, Children(t.nodes[id])[k])
  }

  lemma {:induction false} QuietIsUntouched(t: Tree, st: Store, s: PluginState, id: Id)
    requires SubVisitor.Fits(t, st) && id < |t.nodes| && Quiet(t, id)
    ensures AfterProgram(t, st, s, id) == Visited(st, false)
    decreases |t.nodes| - id, 1
  {
    QuietAllIsUntouched(t, st, s, Children(t.nodes[id]), id);
  }

  lemma {:induction false} QuietAllIsUntouched(t: Tree, st: Store, s: PluginState, kids: seq<Id>, parent: Id)
    requires SubVisitor.Fits(t, st) && SubVisitor.Below(t, kids, parent)
    requires forall k | 0 <= k < |kids| :: Quiet(t, kids[k])
    ensures AfterProgramAll(t, st, s, kids, parent) == Visited(st, false)
    decreases |t.nodes| - parent, 0, |kids|
  {
    if kids != [] {
      QuietIsUntouched(t, st, s, kids[0]);
      QuietAllIsUntouched(t, st, s, kids[1..], parent);
    }
  }

  /**
    `import { Box } from 'braid-design-system';`,
    `const bgColor = true ? 'card' : 'body';` and
    `<Box background={bgColor} boxShadow="standard" />`: the tracer follows
    the variable to its declaration and rewrites the branch that holds a
    deprecated value.
   */
  lemma FollowedVariableIsRewritten(t: Tree, st: Store, s: PluginState)
    requires WellFormed(t) && |t.nodes| == 13 && |st.text| == 13
    requires t.nodes[0] == Other([1, 7]) && t.nodes[1] == VariableDeclarator(2, Some(3))
    requires t.nodes[2] == Identifier && t.nodes[3] == Conditional(4, 5, 6) && t.nodes[4] == OtherLiteral
    requires t.nodes[5] == StringLiteral && t.nodes[6] == StringLiteral
    requires t.nodes[7] == JsxOpeningElement(JsxIdentifier("Box"), [8, 11])
    requires t.nodes[8] == JsxAttribute(PlainName("background"), Some(9)) && t.nodes[9] == Other([10])
    requires t.nodes[10] == Identifier
    requires t.nodes[11] == JsxAttribute(PlainName("boxShadow"), Some(12)) && t.nodes[12] == StringLiteral
    requires t.bindings == map["bgColor" := Binding(1, [10])]
    requires st.text[5] == "card" && st.text[6] == "body" && st.text[10] == "bgColor" && st.text[12] == "standard"
    requires s.importNames == map["Box" := "Box"]
    ensures AfterProgram(t, st, s, 0) == Visited(st.(text := st.text[5 := "surface"][12 := "neutralLight"]), false)
  {
    DeclarationIsQuiet(t);
    QuietIsUntouched(t, st, s, 1);
    BoxElementIsRewritten(t, st, s);
    assert AfterSite(t, st, s, 0) == Visited(st, false) && Children(t.nodes[0]) == [1, 7];
    ProgramOfTwo(t, st, s, 1, 7, 0);
  }

  lemma DeclarationIsQuiet(t: Tree)
    requires WellFormed(t) && |t.nodes| == 13
    requires t.nodes[1] == VariableDeclarator(2, Some(3))
    requires t.nodes[2] == Identifier && t.nodes[3] == Conditional(4, 5, 6) && t.nodes[4] == OtherLiteral
    requires t.nodes[5] == StringLiteral && t.nodes[6] == StringLiteral
    ensures Quiet(t, 1)
  {
    assert Quiet(t, 2) && Quiet(t, 4) && Quiet(t, 5) && Quiet(t, 6);
    assert Children(t.nodes[3]) == [4, 5, 6] && Quiet(t, 3);
    assert Children(t.nodes[1]) == [2, 3];
  }

  lemma BoxElementIsRewritten(t: Tree, st: Store, s: PluginState)
    requires WellFormed(t) && |t.nodes| == 13 && |st.text| == 13
    requires t.nodes[1] == VariableDeclarator(2, Some(3))
    requires t.nodes[3] == Conditional(4, 5, 6) && t.nodes[4] == OtherLiteral
    requires t.nodes[5] == StringLiteral && t.nodes[6] == StringLiteral
    requires t.nodes[7] == JsxOpeningElement(JsxIdentifier("Box"), [8, 11])
    requires t.nodes[8] == JsxAttribute(PlainName("background"), Some(9)) && t.nodes[9] == Other([10])
    requires t.nodes[10] == Identifier
    requires t.nodes[11] == JsxAttribute(PlainName("boxShadow"), Some(12)) && t.nodes[12] == StringLiteral
    requires t.bindings == map["bgColor" := Binding(1, [10])]
    requires st.text[5] == "card" && st.text[6] == "body" && st.text[10] == "bgColor" && st.text[12] == "standard"
    requires s.importNames == map["Box" := "Box"]
    ensures AfterProgram(t, st, s, 7) == Visited(st.(text := st.text[5 := "surface"][12 := "neutralLight"]), false)
  {
    var mid := st.(text := st.text[5 := "surface"]);
    var end := mid.(text := mid.text[12 := "neutralLight"]);
    BackgroundVariableIsFollowed(t, st);
    ExpressionAttributeIsTraced(t, st, 8, "Box", "background", 9);
    assert Children(t.nodes[9]) == [10];
    BoxStandardShadow();
    LiteralAttributeIsUpdated(t, mid, 11, "Box", "boxShadow", 12);
    AttributesOfTwo(t, st, 8, 11, 7, "Box");
    TrackedElementSite(t, st, s, 7, "Box");
    assert AfterSite(t, st, s, 7) == Visited(end, false);
    BoxAttributesAreQuiet(t);
    QuietIsUntouched(t, end, s, 8);
    QuietIsUntouched(t, end, s, 11);
    assert Children(t.nodes[7]) == [8, 11];
    ProgramOfTwo(t, end, s, 8, 11, 7);
  }

  lemma BoxAttributesAreQuiet(t: Tree)
    requires WellFormed(t) && |t.nodes| == 13
    requires t.nodes[8] == JsxAttribute(PlainName("background"), Some(9)) && t.nodes[9] == Other([10])
    requires t.nodes[10] == Identifier
    requires t.nodes[11] == JsxAttribute(PlainName("boxShadow"), Some(12)) && t.nodes[12] == StringLiteral
    ensures Quiet(t, 8) && Quiet(t, 11)
  {
    assert Quiet(t, 10) && Children(t.nodes[9]) == [10] && Quiet(t, 9);
    assert Children(t.nodes[8]) == [9] && Quiet(t, 8);
    assert Quiet(t, 12) && Children(t.nodes[11]) == [12] && Quiet(t, 11);
  }

  lemma BackgroundVariableIsFollowed(t: Tree, st: Store)
    requires WellFormed(t) && |t.nodes| == 13 && |st.text| == 13
    requires t.nodes[1] == VariableDeclarator(2, Some(3))
    requires t.nodes[3] == Conditional(4, 5, 6) && t.nodes[4] == OtherLiteral
    requires t.nodes[5] == StringLiteral && t.nodes[6] == StringLiteral
    requires t.nodes[10] == Identifier
    requires t.bindings == map["bgColor" := Binding(1, [10])]
    requires st.text[5] == "card" && st.text[6] == "body" && st.text[10] == "bgColor"
    ensures AfterTraceAll(t, st, [10], 9, Context("Box", Some("background"), true, 0))
         == Traced(st.(text := st.text[5 := "surface"]), Some("background"), true, false)
  {
    var ctx := Context("Box", Some("background"), true, 0);
    var mid := st.(text := st.text[5 := "surface"]);
    ConditionalIsRewritten(t, st, ctx.(recurses := 1));
    IdentifierFollowsDeclaration(t, st, 10, ctx, 1, 3);
    TraceOfLeaf(t, st, 10, ctx);
    TraceAllStep(t, st, [10], 9, ctx, Normal(mid, ctx));
    assert [10][1..] == [];
  }

  /** Inside `true ? 'card' : 'body'`, traced for `Box`'s `background`, only `card` is rewritten. */
  lemma ConditionalIsRewritten(t: Tree, st: Store, ctx: Context)
    requires WellFormed(t) && |t.nodes| == 13 && |st.text| == 13
    requires t.nodes[3] == Conditional(4, 5, 6) && t.nodes[4] == OtherLiteral
    requires t.nodes[5] == StringLiteral && t.nodes[6] == StringLiteral
    requires st.text[5] == "card" && st.text[6] == "body"
    requires ctx == Context("Box", Some("background"), true, 1)
    ensures AfterTraceAll(t, st, Children(t.nodes[3]), 3, ctx) == Normal(st.(text := st.text[5 := "surface"]), ctx)
  {
    var mid := st.(text := st.text[5 := "surface"]);
    BoxCardBackground();
    BoxBodyBackground();
    TraceOfLeaf(t, st, 4, ctx);
    TraceOfLiteral(t, st, 5, ctx, "surface");
    TraceOfKeptLiteral(t, mid, 6, ctx);
    assert Children(t.nodes[3]) == [4, 5, 6];
    assert [4, 5, 6][1..] == [5, 6] && [5, 6][1..] == [6] && [6][1..] == [];
    TraceAllStep(t, st, [4, 5, 6], 3, ctx, Normal(st, ctx));
    TraceAllStep(t, st, [5, 6], 3, ctx, Normal(mid, ctx));
    TraceAllStep(t, mid, [6], 3, ctx, Normal(mid, ctx));
  }

  /** The tracer's traversal, one child at a time. */
  lemma TraceAllStep(t: Tree, st: Store, kids: seq<Id>, parent: int, ctx: Context, first: Traced)
    requires SubVisitor.Fits(t, st) && SubVisitor.Below(t, kids, parent) && kids != []
    requires AfterTrace(t, st, kids[0], ctx) == first && !first.thrown
    ensures SubVisitor.Fits(t, first.store)
    ensures AfterTraceAll(t, st, kids, parent, ctx) == AfterTraceAll(t, first.store, kids[1..], parent, Carry(ctx, first))
  {
  }

  /** A node without children is traced by its handler alone. */
  lemma TraceOfLeaf(t: Tree, st: Store, id: Id, ctx: Context)
    requires SubVisitor.Fits(t, st) && id < |t.nodes| && Children(t.nodes[id]) == []
    ensures AfterTrace(t, st, id, ctx) == AfterTraceHandler(t, st, id, ctx)
  {
  }

  /** Within the recursion limit, the tracer rewrites a string literal to what the table gives. */
  lemma TraceOfLiteral(t: Tree, st: Store, id: Id, ctx: Context, value: string)
    requires SubVisitor.Fits(t, st) && id < |t.nodes| && t.nodes[id] == StringLiteral && ctx.recurses <= 9
    requires UpdatedValue(ctx.component, ctx.prop, st.text[id]) == value
    ensures AfterTrace(t, st, id, ctx) == Normal(st.(text := st.text[id := value]), ctx)
  {
  }

  /** A string literal the table has no entry for is left as it is. */
  lemma TraceOfKeptLiteral(t: Tree, st: Store, id: Id, ctx: Context)
    requires SubVisitor.Fits(t, st) && id < |t.nodes| && t.nodes[id] == StringLiteral && ctx.recurses <= 9
    requires UpdatedValue(ctx.component, ctx.prop, st.text[id]) == st.text[id]
    ensures AfterTrace(t, st, id, ctx) == Normal(st, ctx)
  {
    assert st.text[id := st.text[id]] == st.text;
  }

  /**
    Within the recursion limit, an identifier bound to `const x = <init>`, where
    `<init>` is not a string literal, is followed into a nested traversal of
    `<init>` with a copy of the context; the prop name is kept.
   */
  lemma IdentifierFollowsDeclaration(t: Tree, st: Store, id: Id, ctx: Context, decl: Id, init: Id)
    requires SubVisitor.Fits(t, st) && id < |t.nodes| && t.nodes[id] == Identifier && ctx.recurses <= 9
    requires st.text[id] in t.bindings && t.bindings[st.text[id]].path == decl
    requires decl < init < |t.nodes| && t.nodes[decl].VariableDeclarator? && t.nodes[decl].init == Some(init)
    requires !t.nodes[init].StringLiteral?
    ensures var nested := AfterTraceAll(t, st, Children(t.nodes[init]), init, ctx.(recurses := ctx.recurses + 1));
            AfterTraceHandler(t, st, id, ctx) == Traced(nested.store, ctx.prop, ctx.located, nested.thrown)
  {
    FieldsInTree(t, decl);
  }

  // ---------------------------------------------------------------------------
  // The tracer, as the source runs it

  /** The tracer's context object (`this` inside the visitor); a nested traversal gets a copy. */
  class TraceContext {
    const component: string
    var prop: Option<string>
    var located: bool
    const recurses: nat

    function Value(): Context
      reads this
    {
      Context(component, prop, located, recurses)
    }

    constructor (component: string, prop: Option<string>, located: bool, recurses: nat)
      ensures Value() == Context(component, prop, located, recurses)
    {
      this.component := component;
      this.prop := prop;
      this.located := located;
      this.recurses := recurses;
    }
  }

  method Trace(f: SourceFile, id: Id, c: TraceContext) returns (thrown: bool)
    requires f.Valid() && id < |f.tree.nodes|
    modifies f, f.text, c
    ensures Traced(f.Snapshot(), c.prop, c.located, thrown) == AfterTrace(f.tree, old(f.Snapshot()), id, old(c.Value()))
    decreases SubVisitor.Budget(c.recurses), |f.tree.nodes| - id, 2, 0
  {
    thrown := false;
    var node := f.tree.nodes[id];
    if node.StringLiteral? {
      TraceStringLiteral(f, id, c);
    } else if node.ObjectProperty? {
      TraceObjectProperty(f, id, c);
    } else if node.Identifier? {
      thrown := TraceIdentifier(f, id, c);
    }
    if !thrown {
      thrown := TraceAll(f, Children(node), id, c);
    }
  }

  method TraceAll(f: SourceFile, kids: seq<Id>, parent: int, c: TraceContext) returns (thrown: bool)
    requires f.Valid() && SubVisitor.Below(f.tree, kids, parent)
    modifies f, f.text, c
    ensures Traced(f.Snapshot(), c.prop, c.located, thrown) == AfterTraceAll(f.tree, old(f.Snapshot()), kids, parent, old(c.Value()))
    decreases SubVisitor.Budget(c.recurses), |f.tree.nodes| - parent, 0, |kids|
  {
    thrown := false;
    var i := 0;
    while i < |kids| && !thrown
      invariant 0 <= i <= |kids|
      invariant (if thrown then Traced(f.Snapshot(), c.prop, c.located, true)
                 else AfterTraceAll(f.tree, f.Snapshot(), kids[i..], parent, c.Value()))
             == AfterTraceAll(f.tree, old(f.Snapshot()), kids, parent, old(c.Value()))
    {
      assert kids[i..][1..] == kids[i + 1..];
      thrown := Trace(f, kids[i], c);
      i := i + 1;
    }
  }

  method TraceStringLiteral(f: SourceFile, id: Id, c: TraceContext)
    requires f.Valid() && id < |f.tree.nodes| && f.tree.nodes[id].StringLiteral?
    modifies f, f.text
    ensures Normal(f.Snapshot(), c.Value()) == AfterTraceHandler(f.tree, old(f.Snapshot()), id, c.Value())
  {
    if c.recurses > 9 {
      f.console := f.console + [TooManyRecurses];
      return;
    }
    UpdateStringLiteral(f, id, c.component, c.prop);
  }

  method TraceObjectProperty(f: SourceFile, id: Id, c: TraceContext)
    requires f.Valid() && id < |f.tree.nodes| && f.tree.nodes[id].ObjectProperty?
    modifies f, c
    ensures Traced(f.Snapshot(), c.prop, c.located, false) == AfterTraceHandler(f.tree, old(f.Snapshot()), id, old(c.Value()))
  {
    var key, computed := f.tree.nodes[id].key, f.tree.nodes[id].computed;
    assert key == Children(f.tree.nodes[id])[0];
    if !HasProp(c.prop) && !computed && f.tree.nodes[key].Identifier? {
      c.prop, c.located := Some(f.text[key]), true;
    } else if f.tree.nodes[key].StringLiteral? {
      c.prop, c.located := Some(f.text[key]), true;
    } else {
      f.console := f.console + [UntraceableProperty(Some(c.component))];
    }
  }

  method TraceIdentifier(f: SourceFile, id: Id, c: TraceContext) returns (thrown: bool)
    requires f.Valid() && id < |f.tree.nodes| && f.tree.nodes[id].Identifier?
    modifies f, f.text
    ensures Traced(f.Snapshot(), c.prop, c.located, thrown) == AfterTraceHandler(f.tree, old(f.Snapshot()), id, c.Value())
    decreases SubVisitor.Budget(c.recurses), |f.tree.nodes| - id, 1, 1
  {
    thrown := false;
    if c.recurses > 9 {
      f.console := f.console + [TooManyRecurses];
      return;
    }
    var name := f.text[id];
    if name !in f.tree.bindings {
      return;
    }
    var b := f.tree.bindings[name];
    match f.tree.nodes[b.path]
    case VariableDeclarator(_, init) =>
      thrown := TraceDeclaredIdentifier(f, id, c, b.path);
    case ImportSpecifier(_, local, source) =>
      assert local == Children(f.tree.nodes[b.path])[1];
      if c.located {
        f.console := f.console + [UntraceableImport(f.text[local], source, c.prop, c.component)];
      } else {
        thrown := true;
      }
    case _ =>
  }

  /** The Identifier handler for a name bound by a variable declaration: its initializer is followed. */
  method TraceDeclaredIdentifier(f: SourceFile, id: Id, c: TraceContext, decl: Id) returns (thrown: bool)
    requires f.Valid() && id < |f.tree.nodes| && f.tree.nodes[id].Identifier?
    requires c.recurses <= 9 && f.text[id] in f.tree.bindings && f.tree.bindings[f.text[id]].path == decl
    requires decl < |f.tree.nodes| && f.tree.nodes[decl].VariableDeclarator?
    modifies f, f.text
    ensures Traced(f.Snapshot(), c.prop, c.located, thrown) == AfterTraceHandler(f.tree, old(f.Snapshot()), id, c.Value())
    decreases SubVisitor.Budget(c.recurses), |f.tree.nodes| - id, 1, 0
  {
    thrown := false;
    var init := f.tree.nodes[decl].init;
    if init.Some? {
      FieldsInTree(f.tree, decl);
      if f.tree.nodes[init.value].StringLiteral? {
        UpdateStringLiteral(f, init.value, c.component, c.prop);
      } else {
        IdentifierFollowsDeclaration(f.tree, f.Snapshot(), id, c.Value(), decl, init.value);
        var copy := new TraceContext(c.component, c.prop, c.located, c.recurses + 1);
        thrown := TraceAll(f, Children(f.tree.nodes[init.value]), init.value, copy);
      }
    }
  }

  // ---------------------------------------------------------------------------
  // The plugin, as the source runs it

  method Attribute(f: SourceFile, attr: Id, component: string) returns (thrown: bool)
    requires f.Valid() && attr < |f.tree.nodes|
    modifies f, f.text
    ensures Visited(f.Snapshot(), thrown) == AfterAttribute(f.tree, old(f.Snapshot()), attr, component)
  {
    thrown := false;
    FieldsInTree(f.tree, attr);
    match f.tree.nodes[attr]
    case JsxAttribute(name, value) =>
      if name.NamespacedAttrName? || value.None? {
        return;
      }
      if f.tree.nodes[value.value].StringLiteral? {
        UpdateStringLiteral(f, value.value, component, Some(name.name));
      } else {
        var c := new TraceContext(component, Some(name.name), true, 0);
        thrown := TraceAll(f, Children(f.tree.nodes[value.value]), value.value, c);
      }
    case JsxSpreadAttribute(argument) =>
      var c := new TraceContext(component, None, false, 0);
      thrown := TraceAll(f, [argument], attr, c);
    case _ =>
  }

  method Argument(f: SourceFile, call: Id, arg: Id, component: string) returns (thrown: bool)
    requires f.Valid() && call < |f.tree.nodes| && f.tree.nodes[call].Call? && arg in f.tree.nodes[call].arguments
    modifies f, f.text
    ensures Visited(f.Snapshot(), thrown) == AfterArgument(f.tree, old(f.Snapshot()), call, arg, component)
  {
    thrown := false;
    FieldsInTree(f.tree, call);
    if f.tree.nodes[arg].Identifier? {
      var name := f.text[arg];
      if name !in f.tree.bindings {
        return;
      }
      var b := f.tree.bindings[name];
      var c := new TraceContext(component, None, false, 0);
      thrown := TraceAll(f, Children(f.tree.nodes[b.path]), b.path, c);
    } else if f.tree.nodes[arg].ObjectExpression? {
      var first := DeArray(Many(f.tree.nodes[call].arguments)).value;
      var c := new TraceContext(component, None, false, 0);
      thrown := TraceAll(f, Children(f.tree.nodes[first]), first, c);
    }
  }

  /** The plugin object: its state, and the file it transforms. */
  class PropDeprecationPass {
    const file: SourceFile
    var importNames: map<string, string>
    var namespace: Option<string>

    function State(): PluginState
      reads this
    {
      PluginState(importNames, namespace)
    }

    /** `pre()`. */
    constructor (file: SourceFile)
      ensures this.file == file && State() == Pre
    {
      this.file := file;
      importNames := map[];
      namespace := None;
    }

    method ProgramEnter(body: seq<Statement>)
      modifies this
      ensures State() == ScanStatements(old(State()), body)
    {
      var i := 0;
      while i < |body|
        invariant 0 <= i <= |body|
        invariant ScanStatements(State(), body[i..]) == ScanStatements(old(State()), body)
      {
        assert body[i..][1..] == body[i + 1..];
        var statement := body[i];
        if statement.ImportDeclaration? && IsBraidSource(statement.source) {
          var specs := statement.specifiers;
          ghost var start := State();
          var j := 0;
          while j < |specs|
            invariant 0 <= j <= |specs|
            invariant ScanSpecifiers(State(), specs[j..]) == ScanSpecifiers(start, specs)
          {
            assert specs[j..][1..] == specs[j + 1..];
            match specs[j] {
              case NamedSpecifier(local, imported) =>
                if imported.IdentifierName? && imported.name in Owners {
                  importNames := importNames[local := imported.name];
                }
              case NamespaceSpecifier(local) =>
                namespace := Some(local);
              case DefaultSpecifier(_) =>
            }
            j := j + 1;
          }
        }
        i := i + 1;
      }
    }

    method OnJsxOpeningElement(id: Id) returns (thrown: bool)
      requires file.Valid() && id < |file.tree.nodes| && file.tree.nodes[id].JsxOpeningElement?
      modifies file, file.text
      ensures Visited(file.Snapshot(), thrown) == AfterOpeningElement(file.tree, old(file.Snapshot()), State(), id)
    {
      thrown := false;
      var owner := ElementName(State(), file.tree.nodes[id].elementName);
      if owner.None? || owner.value == "" {
        return;
      }
      var attrs := file.tree.nodes[id].attributes;
      assert attrs == Children(file.tree.nodes[id]);
      var i := 0;
      while i < |attrs| && !thrown
        invariant 0 <= i <= |attrs|
        invariant (if thrown then Visited(file.Snapshot(), true)
                   else AfterAttributes(file.tree, file.Snapshot(), attrs[i..], id, owner.value))
               == AfterAttributes(file.tree, old(file.Snapshot()), attrs, id, owner.value)
      {
        assert attrs[i..][1..] == attrs[i + 1..];
        thrown := Attribute(file, attrs[i], owner.value);
        i := i + 1;
      }
    }

    method OnCallExpression(id: Id) returns (thrown: bool)
      requires file.Valid() && id < |file.tree.nodes| && file.tree.nodes[id].Call?
      modifies file, file.text
      ensures Visited(file.Snapshot(), thrown) == AfterCall(file.tree, old(file.Snapshot()), State(), id)
    {
      thrown := false;
      FieldsInTree(file.tree, id);
      var callee := file.tree.nodes[id].callee;
      if !file.tree.nodes[callee].Identifier? {
        return;
      }
      var name := file.text[callee];
      if name !in importNames || importNames[name] == "" {
        return;
      }
      var component := importNames[name];
      var args := file.tree.nodes[id].arguments;
      var i := 0;
      while i < |args| && !thrown
        invariant 0 <= i <= |args|
        invariant (if thrown then Visited(file.Snapshot(), true)
                   else AfterArguments(file.tree, file.Snapshot(), id, i, component))
               == AfterArguments(file.tree, old(file.Snapshot()), id, 0, component)
      {
        thrown := Argument(file, id, args[i], component);
        i := i + 1;
      }
    }

    /** The plugin's traversal from node `id`: enter the node, then its children; `thrown` when a visitor threw. */
    method Run(id: Id) returns (thrown: bool)
      requires file.Valid() && id < |file.tree.nodes|
      modifies file, file.text
      ensures Visited(file.Snapshot(), thrown) == AfterProgram(file.tree, old(file.Snapshot()), State(), id)
      decreases |file.tree.nodes| - id, 1, 0
    {
      thrown := false;
      var node := file.tree.nodes[id];
      if node.JsxOpeningElement? {
        thrown := OnJsxOpeningElement(id);
      } else if node.Call? {
        thrown := OnCallExpression(id);
      }
      if !thrown {
        thrown := RunAll(Children(node), id);
      }
    }

    method RunAll(kids: seq<Id>, parent: int) returns (thrown: bool)
      requires file.Valid() && SubVisitor.Below(file.tree, kids, parent)
      modifies file, file.text
      ensures Visited(file.Snapshot(), thrown) == AfterProgramAll(file.tree, old(file.Snapshot()), State(), kids, parent)
      decreases |file.tree.nodes| - parent, 0, |kids|
    {
      thrown := false;
      var i := 0;
      while i < |kids| && !thrown
        invariant 0 <= i <= |kids|
        invariant (if thrown then Visited(file.Snapshot(), true)
                   else AfterProgramAll(file.tree, file.Snapshot(), State(), kids[i..], parent))
               == AfterProgramAll(file.tree, old(file.Snapshot()), State(), kids, parent)
      {
        assert kids[i..][1..] == kids[i + 1..];
        thrown := Run(kids[i]);
        i := i + 1;
      }
    }
  }
}
