/**
  The value tracer of the deprecation plugins (`subVisitor`): its
  StringLiteral, ObjectProperty and Identifier handlers, run by Babel's
  `path.traverse`, which visits the proper descendants of a node depth first,
  each node's handler before its children.  Every nested traversal gets its
  own copy of the context.  Warnings go to `file.metadata.warnings`;
  "Too many recurses" goes to the console.
 */
module SubVisitor {
  import opened Options
  import opened DeprecatedPropMap
  import opened Ast
  import opened Helpers

  datatype Context = Context(component: string, prop: Option<string>, recurses: nat)

  /** How many more nested traversals an identifier may still start. */
  function Budget(recurses: nat): nat
  {
    if recurses >= 10 then 0 else 10 - recurses
  }

  ghost predicate Fits(t: Tree, st: Store)
  {
    WellFormed(t) && |st.text| == |t.nodes|
  }

  ghost predicate Below(t: Tree, kids: seq<Id>, parent: int)
  {
    forall i | 0 <= i < |kids| :: parent < kids[i] < |t.nodes|
  }

  /** The store after visiting node `id`: its handler, then its descendants. */
  function AfterVisit(t: Tree, st: Store, id: Id, ctx: Context): (r: Store)
    requires Fits(t, st) && id < |t.nodes|
    ensures |r.text| == |t.nodes|
    decreases Budget(ctx.recurses), |t.nodes| - id, 2, 0
  {
    AfterTraverse(t, AfterHandler(t, st, id, ctx), Children(t.nodes[id]), id, ctx)
  }

  /** The store after `path.traverse(subVisitor, ctx)` over the given children of `parent`. */
  function AfterTraverse(t: Tree, st: Store, kids: seq<Id>, parent: int, ctx: Context): (r: Store)
    requires Fits(t, st) && Below(t, kids, parent)
    ensures |r.text| == |t.nodes|
    decreases Budget(ctx.recurses), |t.nodes| - parent, 0, |kids|
  {
    if kids == [] then st
    else AfterTraverse(t, AfterVisit(t, st, kids[0], ctx), kids[1..], parent, ctx)
  }

  /** The store after the handler for the kind of node `id`. */
  function AfterHandler(t: Tree, st: Store, id: Id, ctx: Context): (r: Store)
    requires Fits(t, st) && id < |t.nodes|
    ensures |r.text| == |t.nodes|
    decreases Budget(ctx.recurses), |t.nodes| - id, 1, 0
  {
    FieldsInTree(t, id);
    match t.nodes[id]
    case StringLiteral =>
      if ctx.recurses > 9 then st.(console := st.console + [TooManyRecurses])
      else st.(text := st.text[id := UpdatedValue(ctx.component, ctx.prop, st.text[id])])
    case ObjectProperty(key, computed, _) =>
      if ctx.component !in DeprecatedProps then st
      else if !computed && t.nodes[key].Identifier? && IsDeprecatedProp(ctx.component, st.text[key]) then
        AfterTraverse(t, st, Children(t.nodes[id]), id,
                      ctx.(prop := Some(st.text[key]), recurses := ctx.recurses + 1))
      else if computed && t.nodes[key].StringLiteral? && IsDeprecatedProp(ctx.component, st.text[key]) then
        AfterTraverse(t, st, Children(t.nodes[id]), id,
                      ctx.(prop := Some(st.text[key]), recurses := ctx.recurses + 1))
      else if computed then st.(warnings := st.warnings + [UntraceableProperty(Some(ctx.component))])
      else st
    case Identifier =>
      if ctx.recurses > 9 then st.(console := st.console + [TooManyRecurses])
      else if st.text[id] !in t.bindings then st
      else
        var b := t.bindings[st.text[id]];
        FieldsInTree(t, b.path);
        (match t.nodes[b.path]
         case VariableDeclarator(_, init) =>
           if init.None? then st
           else if t.nodes[init.value].StringLiteral? then
             st.(text := st.text[init.value := UpdatedValue(ctx.component, ctx.prop, st.text[init.value])])
           else AfterTraverse(t, st, Children(t.nodes[init.value]), init.value, ctx.(recurses := ctx.recurses + 1))
         case ImportSpecifier(_, local, source) =>
           st.(warnings := st.warnings + [UntraceableImport(st.text[local], source, ctx.prop, ctx.component)])
         case _ => st)
    case _ => st
  }

  // ---------------------------------------------------------------------------
  // What the tracer does, over every tree

  /** Visiting a node only rewrites string literals through the table and appends diagnostics. */
  lemma {:induction false} VisitEvolves(t: Tree, st: Store, id: Id, ctx: Context)
    requires Fits(t, st) && id < |t.nodes|
    ensures Evolves(t, st, AfterVisit(t, st, id, ctx))
    decreases Budget(ctx.recurses), |t.nodes| - id, 2, 0
  {
    var mid := AfterHandler(t, st, id, ctx);
    HandlerEvolves(t, st, id, ctx);
    TraverseEvolves(t, mid, Children(t.nodes[id]), id, ctx);
    EvolvesTransitive(t, st, mid, AfterVisit(t, st, id, ctx));
  }

  lemma {:induction false} TraverseEvolves(t: Tree, st: Store, kids: seq<Id>, parent: int, ctx: Context)
    requires Fits(t, st) && Below(t, kids, parent)
    ensures Evolves(t, st, AfterTraverse(t, st, kids, parent, ctx))
    decreases Budget(ctx.recurses), |t.nodes| - parent, 0, |kids|
  {
    if kids != [] {
      var mid := AfterVisit(t, st, kids[0], ctx);
      VisitEvolves(t, st, kids[0], ctx);
      TraverseEvolves(t, mid, kids[1..], parent, ctx);
      EvolvesTransitive(t, st, mid, AfterTraverse(t, st, kids, parent, ctx));
    }
  }

  lemma {:induction false} HandlerEvolves(t: Tree, st: Store, id: Id, ctx: Context)
    requires Fits(t, st) && id < |t.nodes|
    ensures Evolves(t, st, AfterHandler(t, st, id, ctx))
    decreases Budget(ctx.recurses), |t.nodes| - id, 1, 1
  {
    match t.nodes[id]
    case StringLiteral =>
      if ctx.recurses <= 9 {
        UpdateEvolves(t, st, id, ctx.component, ctx.prop);
      }
    case ObjectProperty(_, _, _) =>
      ObjectPropertyHandlerEvolves(t, st, id, ctx);
    case Identifier =>
      IdentifierHandlerEvolves(t, st, id, ctx);
    case _ =>
  }

  lemma {:induction false} ObjectPropertyHandlerEvolves(t: Tree, st: Store, id: Id, ctx: Context)
    requires Fits(t, st) && id < |t.nodes| && t.nodes[id].ObjectProperty?
    ensures Evolves(t, st, AfterHandler(t, st, id, ctx))
    decreases Budget(ctx.recurses), |t.nodes| - id, 1, 0
  {
    FieldsInTree(t, id);
    var key, computed := t.nodes[id].key, t.nodes[id].computed;
    if ctx.component in DeprecatedProps {
      var sub := ctx.(prop := Some(st.text[key]), recurses := ctx.recurses + 1);
      if (!computed && t.nodes[key].Identifier? && IsDeprecatedProp(ctx.component, st.text[key]))
        || (computed && t.nodes[key].StringLiteral? && IsDeprecatedProp(ctx.component, st.text[key]))
      {
        TraverseEvolves(t, st, Children(t.nodes[id]), id, sub);
      }
    }
  }

  lemma {:induction false} IdentifierHandlerEvolves(t: Tree, st: Store, id: Id, ctx: Context)
    requires Fits(t, st) && id < |t.nodes| && t.nodes[id].Identifier?
    ensures Evolves(t, st, AfterHandler(t, st, id, ctx))
    decreases Budget(ctx.recurses), |t.nodes| - id, 1, 0
  {
    if ctx.recurses <= 9 && st.text[id] in t.bindings {
      var b := t.bindings[st.text[id]];
      FieldsInTree(t, b.path);
      match t.nodes[b.path]
      case VariableDeclarator(_, init) =>
        if init.Some? {
          if t.nodes[init.value].StringLiteral? {
            UpdateEvolves(t, st, init.value, ctx.component, ctx.prop);
          } else {
            TraverseEvolves(t, st, Children(t.nodes[init.value]), init.value, ctx.(recurses := ctx.recurses + 1));
          }
        }
      case _ =>
    }
  }

  /** Past ten nested traversals the tracer rewrites no literal (it still reports). */
  lemma {:induction false} SaturatedVisitKeepsText(t: Tree, st: Store, id: Id, ctx: Context)
    requires Fits(t, st) && id < |t.nodes| && ctx.recurses > 9
    ensures AfterVisit(t, st, id, ctx).text == st.text
    decreases |t.nodes| - id, 2, 0
  {
    SaturatedHandlerKeepsText(t, st, id, ctx);
    SaturatedTraverseKeepsText(t, AfterHandler(t, st, id, ctx), Children(t.nodes[id]), id, ctx);
  }

  lemma {:induction false} SaturatedTraverseKeepsText(t: Tree, st: Store, kids: seq<Id>, parent: int, ctx: Context)
    requires Fits(t, st) && Below(t, kids, parent) && ctx.recurses > 9
    ensures AfterTraverse(t, st, kids, parent, ctx).text == st.text
    decreases |t.nodes| - parent, 0, |kids|
  {
    if kids != [] {
      SaturatedVisitKeepsText(t, st, kids[0], ctx);
      SaturatedTraverseKeepsText(t, AfterVisit(t, st, kids[0], ctx), kids[1..], parent, ctx);
    }
  }

  lemma {:induction false} SaturatedHandlerKeepsText(t: Tree, st: Store, id: Id, ctx: Context)
    requires Fits(t, st) && id < |t.nodes| && ctx.recurses > 9
    ensures AfterHandler(t, st, id, ctx).text == st.text
    decreases |t.nodes| - id, 1, 0
  {
    FieldsInTree(t, id);
    if t.nodes[id].ObjectProperty? && ctx.component in DeprecatedProps {
      var key := t.nodes[id].key;
      var sub := ctx.(prop := Some(st.text[key]), recurses := ctx.recurses + 1);
      SaturatedTraverseKeepsText(t, st, Children(t.nodes[id]), id, sub);
    }
  }

  /** For an owner the table does not list, the tracer rewrites no literal. */
  lemma {:induction false} UnlistedOwnerKeepsText(t: Tree, st: Store, id: Id, ctx: Context)
    requires Fits(t, st) && id < |t.nodes| && ctx.component !in DeprecatedProps
    ensures AfterVisit(t, st, id, ctx).text == st.text
    decreases Budget(ctx.recurses), |t.nodes| - id, 2, 0
  {
    UnlistedOwnerHandlerKeepsText(t, st, id, ctx);
    UnlistedOwnerTraverseKeepsText(t, AfterHandler(t, st, id, ctx), Children(t.nodes[id]), id, ctx);
  }

  lemma {:induction false} UnlistedOwnerTraverseKeepsText(t: Tree, st: Store, kids: seq<Id>, parent: int, ctx: Context)
    requires Fits(t, st) && Below(t, kids, parent) && ctx.component !in DeprecatedProps
    ensures AfterTraverse(t, st, kids, parent, ctx).text == st.text
    decreases Budget(ctx.recurses), |t.nodes| - parent, 0, |kids|
  {
    if kids != [] {
      UnlistedOwnerKeepsText(t, st, kids[0], ctx);
      UnlistedOwnerTraverseKeepsText(t, AfterVisit(t, st, kids[0], ctx), kids[1..], parent, ctx);
    }
  }

  lemma {:induction false} UnlistedOwnerHandlerKeepsText(t: Tree, st: Store, id: Id, ctx: Context)
    requires Fits(t, st) && id < |t.nodes| && ctx.component !in DeprecatedProps
    ensures AfterHandler(t, st, id, ctx).text == st.text
    decreases Budget(ctx.recurses), |t.nodes| - id, 1, 0
  {
    FieldsInTree(t, id);
    if t.nodes[id].Identifier? && ctx.recurses <= 9 && st.text[id] in t.bindings {
      var b := t.bindings[st.text[id]];
      FieldsInTree(t, b.path);
      if t.nodes[b.path].VariableDeclarator? && t.nodes[b.path].init.Some? {
        var init := t.nodes[b.path].init.value;
        if !t.nodes[init].StringLiteral? {
          UnlistedOwnerTraverseKeepsText(t, st, Children(t.nodes[init]), init, ctx.(recurses := ctx.recurses + 1));
        }
      }
    }
  }

  /** An identifier bound by an import specifier yields one untraceable-import warning naming the local name. */
  lemma ImportedIdentifierWarns(t: Tree, st: Store, id: Id, ctx: Context)
    requires Fits(t, st) && id < |t.nodes| && t.nodes[id].Identifier? && ctx.recurses <= 9
    requires st.text[id] in t.bindings && t.nodes[t.bindings[st.text[id]].path].ImportSpecifier?
    requires t.nodes[t.bindings[st.text[id]].path].local < |t.nodes|
    ensures var spec := t.nodes[t.bindings[st.text[id]].path];
            AfterVisit(t, st, id, ctx)
            == st.(warnings := st.warnings + [UntraceableImport(st.text[spec.local], spec.source, ctx.prop, ctx.component)])
  {
    FieldsInTree(t, t.bindings[st.text[id]].path);
  }

  /** An identifier bound to `const x = '<literal>'` rewrites that literal under the current owner and prop. */
  lemma ConstLiteralIsRewritten(t: Tree, st: Store, id: Id, ctx: Context)
    requires Fits(t, st) && id < |t.nodes| && t.nodes[id].Identifier? && ctx.recurses <= 9
    requires st.text[id] in t.bindings
    requires var decl := t.nodes[t.bindings[st.text[id]].path];
             decl.VariableDeclarator? && decl.init.Some? && decl.init.value < |t.nodes|
             && t.nodes[decl.init.value].StringLiteral?
    ensures var lit := t.nodes[t.bindings[st.text[id]].path].init.value;
            AfterVisit(t, st, id, ctx)
            == st.(text := st.text[lit := UpdatedValue(ctx.component, ctx.prop, st.text[lit])])
  {
    FieldsInTree(t, t.bindings[st.text[id]].path);
  }

  /** No owner in the table deprecates a prop called "undefined", so a missing prop name rewrites nothing. */
  lemma MissingPropRewritesNothing(component: string, value: string)
    ensures UpdatedValue(component, None, value) == value
  {
    if component in DeprecatedProps {
      DeprecatedPairs(component, "undefined");
    }
  }

  /**
    `{ background: 'neutral' }` under a listed owner with no prop name yet:
    the value literal is rewritten as a `background` value, and the second
    visit of the children, under the outer context, leaves it as it is.
   */
  lemma DeprecatedKeyRewritesItsValue(t: Tree, st: Store, id: Id, ctx: Context)
    requires Fits(t, st) && id < |t.nodes| && t.nodes[id].ObjectProperty? && !t.nodes[id].computed
    requires t.nodes[id].key < |t.nodes| && t.nodes[id].value < |t.nodes|
    requires t.nodes[t.nodes[id].key].Identifier? && st.text[t.nodes[id].key] !in t.bindings
    requires t.nodes[t.nodes[id].value].StringLiteral?
    requires IsDeprecatedProp(ctx.component, st.text[t.nodes[id].key])
    requires ctx.prop.None? && ctx.recurses <= 8
    ensures var value := t.nodes[id].value;
            AfterVisit(t, st, id, ctx)
            == st.(text := st.text[value := UpdatedValue(ctx.component, Some(st.text[t.nodes[id].key]), st.text[value])])
  {
    FieldsInTree(t, id);
    var key, value := t.nodes[id].key, t.nodes[id].value;
    var sub := ctx.(prop := Some(st.text[key]), recurses := ctx.recurses + 1);
    var mid := st.(text := st.text[value := UpdatedValue(ctx.component, sub.prop, st.text[value])]);
    assert Children(t.nodes[id]) == [key, value];
    assert AfterHandler(t, st, id, ctx) == AfterTraverse(t, st, [key, value], id, sub);
    TraversePair(t, st, key, value, id, sub);
    assert AfterVisit(t, st, key, sub) == st;
    assert AfterVisit(t, st, value, sub) == mid;
    TraversePair(t, mid, key, value, id, ctx);
    assert AfterVisit(t, mid, key, ctx) == mid;
    MissingPropRewritesNothing(ctx.component, mid.text[value]);
    assert AfterVisit(t, mid, value, ctx) == mid;
  }

  /**
    A key naming a deprecated prop of a listed owner, plain (`background:`) or
    a computed string literal (`['background']`): the property's children are
    traversed again with that prop name, one level deeper.
   */
  lemma DeprecatedKeyIsDescended(t: Tree, st: Store, id: Id, ctx: Context)
    requires Fits(t, st) && id < |t.nodes| && t.nodes[id].ObjectProperty? && t.nodes[id].key < |t.nodes|
    requires var key := t.nodes[id].key;
             (!t.nodes[id].computed && t.nodes[key].Identifier?) || (t.nodes[id].computed && t.nodes[key].StringLiteral?)
    requires IsDeprecatedProp(ctx.component, st.text[t.nodes[id].key])
    ensures AfterHandler(t, st, id, ctx)
         == AfterTraverse(t, st, Children(t.nodes[id]), id,
                          ctx.(prop := Some(st.text[t.nodes[id].key]), recurses := ctx.recurses + 1))
  {
    FieldsInTree(t, id);
  }

  /**
    Under a listed owner, a computed key that is not a literal naming one of
    its deprecated props: the handler adds exactly one untraceable-property
    warning and rewrites nothing.
   */
  lemma ComputedKeyWarns(t: Tree, st: Store, id: Id, ctx: Context)
    requires Fits(t, st) && id < |t.nodes| && t.nodes[id].ObjectProperty? && t.nodes[id].computed
    requires t.nodes[id].key < |t.nodes| && ctx.component in DeprecatedProps
    requires !(t.nodes[t.nodes[id].key].StringLiteral? && IsDeprecatedProp(ctx.component, st.text[t.nodes[id].key]))
    ensures AfterHandler(t, st, id, ctx) == st.(warnings := st.warnings + [UntraceableProperty(Some(ctx.component))])
  {
    FieldsInTree(t, id);
  }

  /**
    A plain key that names no deprecated prop, or any key under an owner the
    table does not list: the handler does nothing, and the property's children
    are visited only by the enclosing traversal, under its own context.
   */
  lemma QuietPropertyIsNotDescended(t: Tree, st: Store, id: Id, ctx: Context)
    requires Fits(t, st) && id < |t.nodes| && t.nodes[id].ObjectProperty? && t.nodes[id].key < |t.nodes|
    requires var key := t.nodes[id].key;
             ctx.component !in DeprecatedProps
             || (!t.nodes[id].computed && !(t.nodes[key].Identifier? && IsDeprecatedProp(ctx.component, st.text[key])))
    ensures AfterHandler(t, st, id, ctx) == st
    ensures AfterVisit(t, st, id, ctx) == AfterTraverse(t, st, Children(t.nodes[id]), id, ctx)
  {
    FieldsInTree(t, id);
  }

  lemma TraversePair(t: Tree, st: Store, a: Id, b: Id, parent: int, ctx: Context)
    requires Fits(t, st) && parent < a < |t.nodes| && parent < b < |t.nodes|
    ensures AfterTraverse(t, st, [a, b], parent, ctx) == AfterVisit(t, AfterVisit(t, st, a, ctx), b, ctx)
  {
    var mid := AfterVisit(t, st, a, ctx);
    assert [a, b][1..] == [b] && [b][1..] == [];
    assert AfterTraverse(t, st, [a, b], parent, ctx) == AfterTraverse(t, mid, [b], parent, ctx);
    assert AfterTraverse(t, mid, [b], parent, ctx) == AfterTraverse(t, AfterVisit(t, mid, b, ctx), [], parent, ctx);
  }

  // ---------------------------------------------------------------------------
  // The handlers and the traversal, as the source runs them on the file in place

  method Visit(f: SourceFile, id: Id, ctx: Context)
    requires f.Valid() && id < |f.tree.nodes|
    modifies f, f.text
    ensures f.Snapshot() == AfterVisit(f.tree, old(f.Snapshot()), id, ctx)
    decreases Budget(ctx.recurses), |f.tree.nodes| - id, 2, 0
  {
    var node := f.tree.nodes[id];
    if node.StringLiteral? {
      OnStringLiteral(f, id, ctx);
    } else if node.ObjectProperty? {
      OnObjectProperty(f, id, ctx);
    } else if node.Identifier? {
      OnIdentifier(f, id, ctx);
    }
    Traverse(f, Children(node), id, ctx);
  }

  /** `path.traverse(subVisitor, ctx)`: visit each child and its descendants in order. */
  method Traverse(f: SourceFile, kids: seq<Id>, parent: int, ctx: Context)
    requires f.Valid() && Below(f.tree, kids, parent)
    modifies f, f.text
    ensures f.Snapshot() == AfterTraverse(f.tree, old(f.Snapshot()), kids, parent, ctx)
    decreases Budget(ctx.recurses), |f.tree.nodes| - parent, 0, |kids|
  {
    var i := 0;
    while i < |kids|
      invariant 0 <= i <= |kids|
      invariant AfterTraverse(f.tree, f.Snapshot(), kids[i..], parent, ctx)
             == AfterTraverse(f.tree, old(f.Snapshot()), kids, parent, ctx)
    {
      assert kids[i..][1..] == kids[i + 1..];
      Visit(f, kids[i], ctx);
      i := i + 1;
    }
  }

  method OnStringLiteral(f: SourceFile, id: Id, ctx: Context)
    requires f.Valid() && id < |f.tree.nodes| && f.tree.nodes[id].StringLiteral?
    modifies f, f.text
    ensures f.Snapshot() == AfterHandler(f.tree, old(f.Snapshot()), id, ctx)
  {
    if ctx.recurses > 9 {
      f.console := f.console + [TooManyRecurses];
      return;
    }
    UpdateStringLiteral(f, id, ctx.component, ctx.prop);
  }

  method OnObjectProperty(f: SourceFile, id: Id, ctx: Context)
    requires f.Valid() && id < |f.tree.nodes| && f.tree.nodes[id].ObjectProperty?
    modifies f, f.text
    ensures f.Snapshot() == AfterHandler(f.tree, old(f.Snapshot()), id, ctx)
    decreases Budget(ctx.recurses), |f.tree.nodes| - id, 1, 0
  {
    var key, computed := f.tree.nodes[id].key, f.tree.nodes[id].computed;
    assert key == Children(f.tree.nodes[id])[0];
    if ctx.component in DeprecatedProps {
      if !computed && f.tree.nodes[key].Identifier? && IsDeprecatedProp(ctx.component, f.text[key]) {
        Traverse(f, Children(f.tree.nodes[id]), id,
                 ctx.(prop := Some(f.text[key]), recurses := ctx.recurses + 1));
      }
      if computed {
        if f.tree.nodes[key].StringLiteral? && IsDeprecatedProp(ctx.component, f.text[key]) {
          Traverse(f, Children(f.tree.nodes[id]), id,
                   ctx.(prop := Some(f.text[key]), recurses := ctx.recurses + 1));
        } else {
          f.warnings := f.warnings + [UntraceableProperty(Some(ctx.component))];
        }
      }
    }
  }

  method OnIdentifier(f: SourceFile, id: Id, ctx: Context)
    requires f.Valid() && id < |f.tree.nodes| && f.tree.nodes[id].Identifier?
    modifies f, f.text
    ensures f.Snapshot() == AfterHandler(f.tree, old(f.Snapshot()), id, ctx)
    decreases Budget(ctx.recurses), |f.tree.nodes| - id, 1, 1
  {
    if ctx.recurses > 9 {
      f.console := f.console + [TooManyRecurses];
      return;
    }
    var name := f.text[id];
    if name !in f.tree.bindings {
      return;
    }
    OnBoundIdentifier(f, id, ctx);
  }

  /** The part of the Identifier handler past the recursion check, for a name that has a binding. */
  method OnBoundIdentifier(f: SourceFile, id: Id, ctx: Context)
    requires f.Valid() && id < |f.tree.nodes| && f.tree.nodes[id].Identifier?
    requires ctx.recurses <= 9 && f.text[id] in f.tree.bindings
    modifies f, f.text
    ensures f.Snapshot() == AfterHandler(f.tree, old(f.Snapshot()), id, ctx)
    decreases Budget(ctx.recurses), |f.tree.nodes| - id, 1, 0
  {
    var b := f.tree.bindings[f.text[id]];
    match f.tree.nodes[b.path]
    case VariableDeclarator(_, init) =>
      OnDeclaredIdentifier(f, id, ctx, b.path);
    case ImportSpecifier(_, local, source) =>
      assert local == Children(f.tree.nodes[b.path])[1];
      f.warnings := f.warnings + [UntraceableImport(f.text[local], source, ctx.prop, ctx.component)];
    case _ =>
  }

  /** The Identifier handler for a name bound by a variable declaration: its initializer is followed. */
  method OnDeclaredIdentifier(f: SourceFile, id: Id, ctx: Context, decl: Id)
    requires f.Valid() && id < |f.tree.nodes| && f.tree.nodes[id].Identifier?
    requires ctx.recurses <= 9 && f.text[id] in f.tree.bindings && f.tree.bindings[f.text[id]].path == decl
    requires decl < |f.tree.nodes| && f.tree.nodes[decl].VariableDeclarator?
    modifies f, f.text
    ensures f.Snapshot() == AfterHandler(f.tree, old(f.Snapshot()), id, ctx)
    decreases Budget(ctx.recurses), |f.tree.nodes| - id, 0, 0
  {
    var init := f.tree.nodes[decl].init;
    if init.Some? {
      assert init.value == Children(f.tree.nodes[decl])[1];
      if f.tree.nodes[init.value].StringLiteral? {
        UpdateStringLiteral(f, init.value, ctx.component, ctx.prop);
      } else {
        Traverse(f, Children(f.tree.nodes[init.value]), init.value, ctx.(recurses := ctx.recurses + 1));
      }
    }
  }
}
