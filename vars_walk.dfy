/**
  The `vars` plugin (`codemod/plugin-deprecate/plugin-deprecate-vars.ts`):
  `Program.enter` finds `import { vars } from 'braid-design-system'` and
  `walk`s every reference to it.  `walk` follows member accesses
  (`vars.borderColor.standard`), aliases (`const c = vars.borderColor`) and
  destructuring (`const { borderColor: b } = vars`), renaming the last
  property of an access when the table maps it to a new name.

  `walk` is recursive and nothing stops it from following an alias back to
  itself, so the model gives it a stack depth `fuel`; running out is the
  engine's stack overflow.  The `throw` on destructuring a renamed key ends
  the whole pass.
 */
module VarsWalk {
  import opened Options
  import opened DeprecatedPropMap
  import opened Ast
  import SubVisitor

  /** One entry of the `deprecations` record: a new name, or a nested record of new names. */
  datatype Entry = Leaf(value: string) | Group(entries: map<string, string>)

  type Deprecations = map<string, Entry>

  /** `deprecatedPropMap.vars`. */
  function VarsTable(): (r: Deprecations)
    ensures r.Keys == {"backgroundColor", "borderColor"}
    ensures forall k | k in r :: r[k].Group?
  {
    map k | k in DeprecatedProps["vars"] :: Group(DeprecatedProps["vars"][k])
  }

  /** A nested record, as the `deprecations` of the next `walk`. */
  function GroupTable(m: map<string, string>): (r: Deprecations)
    ensures r.Keys == m.Keys
    ensures forall k | k in r :: r[k].Leaf? && r[k].value in m.Values
  {
    map k | k in m :: Leaf(m[k])
  }

  datatype Outcome = Completed | Thrown(key: string) | StackOverflow

  datatype Walked = Walked(store: Store, outcome: Outcome)

  // ---------------------------------------------------------------------------
  // walk, as functions

  /** `walk({ path, deprecations })` for the node `id`, with `fuel` stack frames left. */
  function AfterWalk(t: Tree, st: Store, id: Id, d: Deprecations, fuel: nat): (r: Walked)
    requires SubVisitor.Fits(t, st) && id < |t.nodes|
    ensures |r.store.text| == |t.nodes|
    decreases fuel, 1, 0
  {
    if fuel == 0 then Walked(st, StackOverflow)
    else if t.parent[id] < 0 then Walked(st, Completed)
    else
      var p := t.parent[id];
      FieldsInTree(t, p);
      match t.nodes[p]
      case MemberExpression(_, property, computed) =>
        var named :=
          if t.nodes[property].Identifier? && st.text[property] in d then
            AfterEntry(t, st, p, property, d[st.text[property]], fuel)
          else Walked(st, Completed);
        if named.outcome != Completed || !computed then named
        else if t.nodes[property].StringLiteral? then
          if named.store.text[property] in d then
            AfterEntry(t, named.store, p, property, d[named.store.text[property]], fuel)
          else named
        else Walked(named.store.(console := named.store.console + [UntraceableProperty(None)]), Completed)
      case VariableDeclarator(declared, _) =>
        if t.nodes[declared].Identifier? then
          if st.text[declared] in t.bindings then
            AfterWalkRefs(t, st, t.bindings[st.text[declared]].references, 0, d, fuel - 1)
          else Walked(st, Completed)
        else if t.nodes[declared].ObjectPattern? then
          AfterWalkPattern(t, st, declared, 0, d, fuel - 1)
        else Walked(st, Completed)
      case _ => Walked(st, Completed)
  }

  /** What `walk` does with the entry found for a member's property: walk the member, or rename the property. */
  function AfterEntry(t: Tree, st: Store, member: Id, property: Id, e: Entry, fuel: nat): (r: Walked)
    requires SubVisitor.Fits(t, st) && member < |t.nodes| && property < |t.nodes| && fuel > 0
    ensures |r.store.text| == |t.nodes|
    decreases fuel, 0, 0
  {
    match e
    case Group(m) => AfterWalk(t, st, member, GroupTable(m), fuel - 1)
    case Leaf(v) => Walked(st.(text := st.text[property := v]), Completed)
  }

  /** `for (const refPath of binding.referencePaths) walk(...)`, from reference `i` on. */
  function AfterWalkRefs(t: Tree, st: Store, refs: seq<Id>, i: nat, d: Deprecations, fuel: nat): (r: Walked)
    requires SubVisitor.Fits(t, st) && i <= |refs| && forall r | r in refs :: r < |t.nodes|
    ensures |r.store.text| == |t.nodes|
    decreases fuel, 2, |refs| - i
  {
    if i == |refs| then Walked(st, Completed)
    else
      assert refs[i] in refs;
      var w := AfterWalk(t, st, refs[i], d, fuel);
      if w.outcome != Completed then w else AfterWalkRefs(t, w.store, refs, i + 1, d, fuel)
  }

  /** The loop over the properties of the pattern `pattern`, from property `i` on. */
  function AfterWalkPattern(t: Tree, st: Store, pattern: Id, i: nat, d: Deprecations, fuel: nat): (r: Walked)
    requires SubVisitor.Fits(t, st) && pattern < |t.nodes| && t.nodes[pattern].ObjectPattern?
    requires i <= |t.nodes[pattern].properties|
    ensures |r.store.text| == |t.nodes|
    decreases fuel, 4, |t.nodes[pattern].properties| - i
  {
    FieldsInTree(t, pattern);
    if i == |t.nodes[pattern].properties| then Walked(st, Completed)
    else
      var w := AfterPatternProperty(t, st, t.nodes[pattern].properties[i], d, fuel);
      if w.outcome != Completed then w else AfterWalkPattern(t, w.store, pattern, i + 1, d, fuel)
  }

  /** One property of a destructuring pattern: `{ key: value }` or `...rest`. */
  function AfterPatternProperty(t: Tree, st: Store, prop: Id, d: Deprecations, fuel: nat): (r: Walked)
    requires SubVisitor.Fits(t, st) && prop < |t.nodes|
    ensures |r.store.text| == |t.nodes|
    decreases fuel, 3, 0
  {
    FieldsInTree(t, prop);
    match t.nodes[prop]
    case ObjectProperty(key, _, value) =>
      if t.nodes[value].Identifier? && t.nodes[key].Identifier? then
        var entry := if st.text[key] in d then Some(d[st.text[key]]) else None;
        if entry.Some? && entry.value.Leaf? then Walked(st, Thrown(st.text[key]))
        else if st.text[value] in t.bindings && entry.Some? then
          AfterWalkRefs(t, st, t.bindings[st.text[value]].references, 0, GroupTable(entry.value.entries), fuel)
        else Walked(st, Completed)
      else Walked(st, Completed)
    case RestElement(argument) =>
      if t.nodes[argument].Identifier? && st.text[argument] in t.bindings then
        AfterWalkRefs(t, st, t.bindings[st.text[argument]].references, 0, d, fuel)
      else Walked(st, Completed)
    case _ => Walked(st, Completed)
  }

  // ---------------------------------------------------------------------------
  // Program.enter

  /** Whether the pass has stopped: a `return` out of `enter`, or an exception. */
  datatype Progress = Progress(walked: Walked, returned: bool)

  predicate Stopped(p: Progress)
  {
    p.returned || p.walked.outcome != Completed
  }

  function AfterVarsSpecifier(t: Tree, st: Store, spec: Specifier, fuel: nat): (r: Progress)
    requires SubVisitor.Fits(t, st)
    ensures |r.walked.store.text| == |t.nodes|
  {
    if spec.NamedSpecifier? && spec.imported.IdentifierName? && spec.imported.name == "vars" then
      if spec.local !in t.bindings then Progress(Walked(st, Completed), true)
      else Progress(AfterWalkRefs(t, st, t.bindings[spec.local].references, 0, VarsTable(), fuel), false)
    else Progress(Walked(st, Completed), false)
  }

  function AfterVarsSpecifiers(t: Tree, st: Store, specs: seq<Specifier>, fuel: nat): (r: Progress)
    requires SubVisitor.Fits(t, st)
    ensures |r.walked.store.text| == |t.nodes|
    decreases |specs|
  {
    if specs == [] then Progress(Walked(st, Completed), false)
    else
      var p := AfterVarsSpecifier(t, st, specs[0], fuel);
      if Stopped(p) then p else AfterVarsSpecifiers(t, p.walked.store, specs[1..], fuel)
  }

  /** `Program.enter` of the vars plugin over the statements of the program body. */
  function AfterVarsEnter(t: Tree, st: Store, body: seq<Statement>, fuel: nat): (r: Progress)
    requires SubVisitor.Fits(t, st)
    ensures |r.walked.store.text| == |t.nodes|
    decreases |body|
  {
    if body == [] then Progress(Walked(st, Completed), false)
    else
      var p :=
        if body[0].ImportDeclaration? && IsBraidSource(body[0].source)
        then AfterVarsSpecifiers(t, st, body[0].specifiers, fuel)
        else Progress(Walked(st, Completed), false);
      if Stopped(p) then p else AfterVarsEnter(t, p.walked.store, body[1..], fuel)
  }

  // ---------------------------------------------------------------------------
  // walk and Program.enter, as the source runs them on the file in place

  method Walk(f: SourceFile, id: Id, d: Deprecations, fuel: nat) returns (outcome: Outcome)
    requires f.Valid() && id < |f.tree.nodes|
    modifies f, f.text
    ensures Walked(f.Snapshot(), outcome) == AfterWalk(f.tree, old(f.Snapshot()), id, d, fuel)
    decreases fuel, 1, 0
  {
    if fuel == 0 {
      return StackOverflow;
    }
    var p := f.tree.parent[id];
    if p < 0 {
      return Completed;
    }
    FieldsInTree(f.tree, p);
    outcome := Completed;
    match f.tree.nodes[p]
    case MemberExpression(_, property, computed) =>
      if f.tree.nodes[property].Identifier? && f.text[property] in d {
        outcome := ApplyEntry(f, p, property, d[f.text[property]], fuel);
        if outcome != Completed {
          return;
        }
      }
      if computed {
        if f.tree.nodes[property].StringLiteral? {
          if f.text[property] in d {
            outcome := ApplyEntry(f, p, property, d[f.text[property]], fuel);
          }
        } else {
          f.console := f.console + [UntraceableProperty(None)];
        }
      }
    case VariableDeclarator(declared, _) =>
      if f.tree.nodes[declared].Identifier? {
        if f.text[declared] in f.tree.bindings {
          outcome := WalkRefs(f, f.tree.bindings[f.text[declared]].references, d, fuel - 1);
        }
      } else if f.tree.nodes[declared].ObjectPattern? {
        outcome := WalkPattern(f, declared, d, fuel - 1);
      }
    case _ =>
  }

  method ApplyEntry(f: SourceFile, member: Id, property: Id, e: Entry, fuel: nat) returns (outcome: Outcome)
    requires f.Valid() && member < |f.tree.nodes| && property < |f.tree.nodes| && fuel > 0
    modifies f, f.text
    ensures Walked(f.Snapshot(), outcome) == AfterEntry(f.tree, old(f.Snapshot()), member, property, e, fuel)
    decreases fuel, 0, 0
  {
    match e
    case Group(m) =>
      outcome := Walk(f, member, GroupTable(m), fuel - 1);
    case Leaf(v) =>
      f.text[property] := v;
      outcome := Completed;
  }

  method WalkRefs(f: SourceFile, refs: seq<Id>, d: Deprecations, fuel: nat) returns (outcome: Outcome)
    requires f.Valid() && forall r | r in refs :: r < |f.tree.nodes|
    modifies f, f.text
    ensures Walked(f.Snapshot(), outcome) == AfterWalkRefs(f.tree, old(f.Snapshot()), refs, 0, d, fuel)
    decreases fuel, 2, |refs|
  {
    var i := 0;
    while i < |refs|
      invariant 0 <= i <= |refs|
      invariant AfterWalkRefs(f.tree, f.Snapshot(), refs, i, d, fuel)
             == AfterWalkRefs(f.tree, old(f.Snapshot()), refs, 0, d, fuel)
    {
      assert refs[i] in refs;
      outcome := Walk(f, refs[i], d, fuel);
      if outcome != Completed {
        return;
      }
      i := i + 1;
    }
    return Completed;
  }

  method WalkPattern(f: SourceFile, pattern: Id, d: Deprecations, fuel: nat) returns (outcome: Outcome)
    requires f.Valid() && pattern < |f.tree.nodes| && f.tree.nodes[pattern].ObjectPattern?
    modifies f, f.text
    ensures Walked(f.Snapshot(), outcome) == AfterWalkPattern(f.tree, old(f.Snapshot()), pattern, 0, d, fuel)
    decreases fuel, 4, |f.tree.nodes[pattern].properties|
  {
    FieldsInTree(f.tree, pattern);
    var props := f.tree.nodes[pattern].properties;
    var i := 0;
    while i < |props|
      invariant 0 <= i <= |props|
      invariant AfterWalkPattern(f.tree, f.Snapshot(), pattern, i, d, fuel)
             == AfterWalkPattern(f.tree, old(f.Snapshot()), pattern, 0, d, fuel)
    {
      outcome := PatternProperty(f, props[i], d, fuel);
      if outcome != Completed {
        return;
      }
      i := i + 1;
    }
    return Completed;
  }

  method PatternProperty(f: SourceFile, prop: Id, d: Deprecations, fuel: nat) returns (outcome: Outcome)
    requires f.Valid() && prop < |f.tree.nodes|
    modifies f, f.text
    ensures Walked(f.Snapshot(), outcome) == AfterPatternProperty(f.tree, old(f.Snapshot()), prop, d, fuel)
    decreases fuel, 3, 0
  {
    FieldsInTree(f.tree, prop);
    outcome := Completed;
    match f.tree.nodes[prop]
    case ObjectProperty(key, _, value) =>
      if f.tree.nodes[value].Identifier? && f.tree.nodes[key].Identifier? {
        var name := f.text[key];
        if name in d && d[name].Leaf? {
          return Thrown(name);
        }
        if f.text[value] in f.tree.bindings && name in d {
          outcome := WalkRefs(f, f.tree.bindings[f.text[value]].references, GroupTable(d[name].entries), fuel);
        }
      }
    case RestElement(argument) =>
      if f.tree.nodes[argument].Identifier? && f.text[argument] in f.tree.bindings {
        outcome := WalkRefs(f, f.tree.bindings[f.text[argument]].references, d, fuel);
      }
    case _ =>
  }

  /** `Program.enter` of the vars plugin; `fuel` is the stack depth each `walk` may use. */
  method VarsProgramEnter(f: SourceFile, body: seq<Statement>, fuel: nat) returns (outcome: Outcome)
    requires f.Valid()
    modifies f, f.text
    ensures Walked(f.Snapshot(), outcome) == AfterVarsEnter(f.tree, old(f.Snapshot()), body, fuel).walked
  {
    var i := 0;
    while i < |body|
      invariant 0 <= i <= |body|
      invariant AfterVarsEnter(f.tree, f.Snapshot(), body[i..], fuel) == AfterVarsEnter(f.tree, old(f.Snapshot()), body, fuel)
    {
      assert body[i..][1..] == body[i + 1..];
      var statement := body[i];
      if statement.ImportDeclaration? && IsBraidSource(statement.source) {
        var specs := statement.specifiers;
        ghost var start := f.Snapshot();
        var j := 0;
        while j < |specs|
          invariant 0 <= j <= |specs|
          invariant AfterVarsSpecifiers(f.tree, f.Snapshot(), specs[j..], fuel)
                 == AfterVarsSpecifiers(f.tree, start, specs, fuel)
        {
          assert specs[j..][1..] == specs[j + 1..];
          var spec := specs[j];
          if spec.NamedSpecifier? && spec.imported.IdentifierName? && spec.imported.name == "vars" {
            if spec.local !in f.tree.bindings {
              return Completed;
            }
            outcome := WalkRefs(f, f.tree.bindings[spec.local].references, VarsTable(), fuel);
            if outcome != Completed {
              return;
            }
          }
          j := j + 1;
        }
      }
      i := i + 1;
    }
    return Completed;
  }

  // ---------------------------------------------------------------------------
  // One step of walk

  /** `obj.property` with `property` not a key of the record: nothing is renamed or followed. */
  lemma AbsentPropertyIsKept(t: Tree, st: Store, id: Id, d: Deprecations, fuel: nat, p: Id, property: Id)
    requires SubVisitor.Fits(t, st) && p < id < |t.nodes| && property < |t.nodes| && fuel > 0
    requires t.nodes[p] == MemberExpression(id, property, false)
    requires t.nodes[property].Identifier? && st.text[property] !in d
    ensures AfterWalk(t, st, id, d, fuel) == Walked(st, Completed)
  {
    assert Children(t.nodes[p])[0] == id;
    FieldsInTree(t, p);
  }

  /** `obj['property']` with `'property'` a key of the record: the literal is looked up like a plain name. */
  lemma ComputedLiteralIsLookedUp(t: Tree, st: Store, id: Id, d: Deprecations, fuel: nat, p: Id, property: Id)
    requires SubVisitor.Fits(t, st) && p < id < |t.nodes| && property < |t.nodes| && fuel > 0
    requires t.nodes[p] == MemberExpression(id, property, true)
    requires t.nodes[property].StringLiteral? && st.text[property] in d
    ensures AfterWalk(t, st, id, d, fuel) == AfterEntry(t, st, p, property, d[st.text[property]], fuel)
  {
    assert Children(t.nodes[p])[0] == id;
    FieldsInTree(t, p);
  }

  /**
    `obj[expression]` whose property is neither a literal nor a name the record
    lists: one untraceable-property warning on the console, and nothing renamed.
   */
  lemma ComputedExpressionWarns(t: Tree, st: Store, id: Id, d: Deprecations, fuel: nat, p: Id, property: Id)
    requires SubVisitor.Fits(t, st) && p < id < |t.nodes| && property < |t.nodes| && fuel > 0
    requires t.nodes[p] == MemberExpression(id, property, true) && !t.nodes[property].StringLiteral?
    requires !(t.nodes[property].Identifier? && st.text[property] in d)
    ensures AfterWalk(t, st, id, d, fuel) == Walked(st.(console := st.console + [UntraceableProperty(None)]), Completed)
  {
    assert Children(t.nodes[p])[0] == id;
    FieldsInTree(t, p);
  }

  /** `...rest` in a destructuring pattern: the references of `rest` are walked with the same record. */
  lemma RestElementKeepsRecord(t: Tree, st: Store, prop: Id, d: Deprecations, fuel: nat)
    requires SubVisitor.Fits(t, st) && prop < |t.nodes| && t.nodes[prop].RestElement?
    requires prop < t.nodes[prop].argument < |t.nodes| && t.nodes[t.nodes[prop].argument].Identifier?
    requires st.text[t.nodes[prop].argument] in t.bindings
    ensures AfterPatternProperty(t, st, prop, d, fuel)
         == AfterWalkRefs(t, st, t.bindings[st.text[t.nodes[prop].argument]].references, 0, d, fuel)
  {
  }

  /**
    `vars.group.name` with `name` renamed by the table: the walk renames it, and
    walking the same access again, now under its new name, changes nothing.
   */
  lemma RenamedMemberIsFinal(t: Tree, st: Store, id: Id, group: string, fuel: nat, p: Id, property: Id)
    requires SubVisitor.Fits(t, st) && p < id < |t.nodes| && property < |t.nodes| && fuel > 0
    requires t.nodes[p] == MemberExpression(id, property, false) && t.nodes[property].Identifier?
    requires group in VarsTable() && st.text[property] in DeprecatedProps["vars"][group]
    ensures var d := GroupTable(DeprecatedProps["vars"][group]);
            var once := AfterWalk(t, st, id, d, fuel);
            && once == Walked(st.(text := st.text[property := DeprecatedProps["vars"][group][st.text[property]]]), Completed)
            && AfterWalk(t, once.store, id, d, fuel) == once
  {
    var m := DeprecatedProps["vars"][group];
    var d := GroupTable(m);
    MemberStep(t, st, id, d, fuel, p, property);
    var once := AfterWalk(t, st, id, d, fuel);
    VarsRenamesAreFinal(group);
    assert m[st.text[property]] in m.Values;
    AbsentPropertyIsKept(t, once.store, id, d, fuel, p, property);
  }

  // ---------------------------------------------------------------------------
  // What walk may change

  /** The new names of the vars table, the only strings the vars pass writes. */
  const VarsNewNames: set<string> :=
    {"surface", "neutralLight", "neutralSoft", "formAccentSoft", "neutralInverted", "formAccent"}

  /** Every name `d` renames to, directly or through one of its nested records, is in `names`. */
  ghost predicate WritesOnly(d: Deprecations, names: set<string>)
  {
    forall k | k in d :: (d[k].Leaf? ==> d[k].value in names) && (d[k].Group? ==> d[k].entries.Values <= names)
  }

  /** Node `k` is the property of some member expression. */
  ghost predicate IsMemberProperty(t: Tree, k: Id)
  {
    exists p | 0 <= p < |t.nodes| :: t.nodes[p].MemberExpression? && t.nodes[p].property == k
  }

  /**
    From `a` to `b` the pass only renamed member properties that are identifiers or
    string literals, only to names in `names`, added no warning and only appended
    to the console.
   */
  ghost predicate Renames(t: Tree, names: set<string>, a: Store, b: Store)
  {
    && |a.text| == |t.nodes| && |b.text| == |t.nodes|
    && (forall k | 0 <= k < |t.nodes| && a.text[k] != b.text[k] ::
          b.text[k] in names && IsMemberProperty(t, k) && (t.nodes[k].Identifier? || t.nodes[k].StringLiteral?))
    && b.warnings == a.warnings
    && a.console <= b.console
  }

  lemma RenamesTransitive(t: Tree, names: set<string>, a: Store, b: Store, c: Store)
    requires Renames(t, names, a, b) && Renames(t, names, b, c)
    ensures Renames(t, names, a, c)
  {
  }

  lemma VarsTableWritesVarsNames()
    ensures WritesOnly(VarsTable(), VarsNewNames)
  {
    assert DeprecatedProps["vars"].Keys == {"backgroundColor", "borderColor"};
  }

  lemma GroupTableWritesItsValues(m: map<string, string>, names: set<string>)
    requires m.Values <= names
    ensures WritesOnly(GroupTable(m), names)
  {
    forall k | k in GroupTable(m)
      ensures GroupTable(m)[k].value in names
    {
      assert m[k] in m.Values;
    }
  }

  lemma {:induction false} WalkRenames(t: Tree, st: Store, id: Id, d: Deprecations, names: set<string>, fuel: nat)
    requires SubVisitor.Fits(t, st) && id < |t.nodes| && WritesOnly(d, names)
    ensures Renames(t, names, st, AfterWalk(t, st, id, d, fuel).store)
    decreases fuel, 1, 0
  {
    if fuel == 0 || t.parent[id] < 0 {
      return;
    }
    var p := t.parent[id];
    FieldsInTree(t, p);
    match t.nodes[p]
    case MemberExpression(_, property, computed) =>
      var named :=
        if t.nodes[property].Identifier? && st.text[property] in d then
          AfterEntry(t, st, p, property, d[st.text[property]], fuel)
        else Walked(st, Completed);
      if t.nodes[property].Identifier? && st.text[property] in d {
        EntryRenames(t, st, p, property, d[st.text[property]], names, fuel);
      }
      if named.outcome == Completed && computed && t.nodes[property].StringLiteral?
         && named.store.text[property] in d {
        EntryRenames(t, named.store, p, property, d[named.store.text[property]], names, fuel);
        RenamesTransitive(t, names, st, named.store,
          AfterEntry(t, named.store, p, property, d[named.store.text[property]], fuel).store);
      }
    case VariableDeclarator(declared, _) =>
      if t.nodes[declared].Identifier? && st.text[declared] in t.bindings {
        RefsRenames(t, st, t.bindings[st.text[declared]].references, 0, d, names, fuel - 1);
      } else if t.nodes[declared].ObjectPattern? {
        PatternRenames(t, st, declared, 0, d, names, fuel - 1);
      }
    case _ =>
  }

  lemma {:induction false} EntryRenames(t: Tree, st: Store, member: Id, property: Id, e: Entry, names: set<string>, fuel: nat)
    requires SubVisitor.Fits(t, st) && member < |t.nodes| && property < |t.nodes| && fuel > 0
    requires t.nodes[member].MemberExpression? && t.nodes[member].property == property
    requires t.nodes[property].Identifier? || t.nodes[property].StringLiteral?
    requires e.Leaf? ==> e.value in names
    requires e.Group? ==> e.entries.Values <= names
    ensures Renames(t, names, st, AfterEntry(t, st, member, property, e, fuel).store)
    decreases fuel, 0, 0
  {
    match e
    case Group(m) =>
      GroupTableWritesItsValues(m, names);
      WalkRenames(t, st, member, GroupTable(m), names, fuel - 1);
    case Leaf(v) =>
      assert IsMemberProperty(t, property);
  }

  lemma {:induction false} RefsRenames(t: Tree, st: Store, refs: seq<Id>, i: nat, d: Deprecations, names: set<string>, fuel: nat)
    requires SubVisitor.Fits(t, st) && i <= |refs| && forall r | r in refs :: r < |t.nodes|
    requires WritesOnly(d, names)
    ensures Renames(t, names, st, AfterWalkRefs(t, st, refs, i, d, fuel).store)
    decreases fuel, 2, |refs| - i
  {
    if i < |refs| {
      assert refs[i] in refs;
      var w := AfterWalk(t, st, refs[i], d, fuel);
      WalkRenames(t, st, refs[i], d, names, fuel);
      if w.outcome == Completed {
        RefsRenames(t, w.store, refs, i + 1, d, names, fuel);
        RenamesTransitive(t, names, st, w.store, AfterWalkRefs(t, w.store, refs, i + 1, d, fuel).store);
      }
    }
  }

  lemma {:induction false} PatternRenames(t: Tree, st: Store, pattern: Id, i: nat, d: Deprecations, names: set<string>, fuel: nat)
    requires SubVisitor.Fits(t, st) && pattern < |t.nodes| && t.nodes[pattern].ObjectPattern?
    requires i <= |t.nodes[pattern].properties| && WritesOnly(d, names)
    ensures Renames(t, names, st, AfterWalkPattern(t, st, pattern, i, d, fuel).store)
    decreases fuel, 4, |t.nodes[pattern].properties| - i
  {
    FieldsInTree(t, pattern);
    if i < |t.nodes[pattern].properties| {
      var w := AfterPatternProperty(t, st, t.nodes[pattern].properties[i], d, fuel);
      PatternPropertyRenames(t, st, t.nodes[pattern].properties[i], d, names, fuel);
      if w.outcome == Completed {
        PatternRenames(t, w.store, pattern, i + 1, d, names, fuel);
        RenamesTransitive(t, names, st, w.store, AfterWalkPattern(t, w.store, pattern, i + 1, d, fuel).store);
      }
    }
  }

  lemma {:induction false} PatternPropertyRenames(t: Tree, st: Store, prop: Id, d: Deprecations, names: set<string>, fuel: nat)
    requires SubVisitor.Fits(t, st) && prop < |t.nodes| && WritesOnly(d, names)
    ensures Renames(t, names, st, AfterPatternProperty(t, st, prop, d, fuel).store)
    decreases fuel, 3, 0
  {
    FieldsInTree(t, prop);
    match t.nodes[prop]
    case ObjectProperty(key, _, value) =>
      if t.nodes[value].Identifier? && t.nodes[key].Identifier? && st.text[key] in d
         && d[st.text[key]].Group? && st.text[value] in t.bindings {
        var m := d[st.text[key]].entries;
        GroupTableWritesItsValues(m, names);
        RefsRenames(t, st, t.bindings[st.text[value]].references, 0, GroupTable(m), names, fuel);
      }
    case RestElement(argument) =>
      if t.nodes[argument].Identifier? && st.text[argument] in t.bindings {
        RefsRenames(t, st, t.bindings[st.text[argument]].references, 0, d, names, fuel);
      }
    case _ =>
  }

  lemma {:induction false} SpecifiersRename(t: Tree, st: Store, specs: seq<Specifier>, fuel: nat)
    requires SubVisitor.Fits(t, st)
    ensures Renames(t, VarsNewNames, st, AfterVarsSpecifiers(t, st, specs, fuel).walked.store)
    decreases |specs|
  {
    if specs != [] {
      var p := AfterVarsSpecifier(t, st, specs[0], fuel);
      var spec := specs[0];
      if spec.NamedSpecifier? && spec.imported.IdentifierName? && spec.imported.name == "vars"
         && spec.local in t.bindings {
        VarsTableWritesVarsNames();
        RefsRenames(t, st, t.bindings[spec.local].references, 0, VarsTable(), VarsNewNames, fuel);
      }
      if !Stopped(p) {
        SpecifiersRename(t, p.walked.store, specs[1..], fuel);
        RenamesTransitive(t, VarsNewNames, st, p.walked.store,
          AfterVarsSpecifiers(t, p.walked.store, specs[1..], fuel).walked.store);
      }
    }
  }

  /**
    The whole vars pass renames nothing but member properties, only to new names
    of the vars table, and never records a warning.
   */
  lemma {:induction false} VarsPassOnlyRenamesMemberProperties(t: Tree, st: Store, body: seq<Statement>, fuel: nat)
    requires SubVisitor.Fits(t, st)
    ensures Renames(t, VarsNewNames, st, AfterVarsEnter(t, st, body, fuel).walked.store)
    decreases |body|
  {
    if body != [] {
      if body[0].ImportDeclaration? && IsBraidSource(body[0].source) {
        SpecifiersRename(t, st, body[0].specifiers, fuel);
      }
      var p :=
        if body[0].ImportDeclaration? && IsBraidSource(body[0].source)
        then AfterVarsSpecifiers(t, st, body[0].specifiers, fuel)
        else Progress(Walked(st, Completed), false);
      if !Stopped(p) {
        VarsPassOnlyRenamesMemberProperties(t, p.walked.store, body[1..], fuel);
        RenamesTransitive(t, VarsNewNames, st, p.walked.store,
          AfterVarsEnter(t, p.walked.store, body[1..], fuel).walked.store);
      }
    }
  }

  /** A renamed name is never looked up again in the same record, so a second run renames nothing more. */
  lemma VarsRenamesAreFinal(group: string)
    requires group in VarsTable()
    ensures VarsTable()[group].Group?
    ensures VarsTable()[group].entries.Values !! VarsTable()[group].entries.Keys
  {
    assert DeprecatedProps["vars"].Keys == {"backgroundColor", "borderColor"};
  }

  // ---------------------------------------------------------------------------
  // Example programs

  /** The import statement `import { vars } from 'braid-design-system'`. */
  const VarsImport: Statement := ImportDeclaration("braid-design-system", [NamedSpecifier("vars", IdentifierName("vars"))])

  /** The pass over a program whose only import is that of `vars` is the walk of its references. */
  lemma VarsImportWalksReferences(t: Tree, st: Store, fuel: nat)
    requires SubVisitor.Fits(t, st) && "vars" in t.bindings
    ensures AfterVarsEnter(t, st, [VarsImport], fuel).walked
         == AfterWalkRefs(t, st, t.bindings["vars"].references, 0, VarsTable(), fuel)
  {
    assert IsBraidSource("braid-design-system");
    var specs := VarsImport.specifiers;
    assert specs[1..] == [];
    var p := AfterVarsSpecifiers(t, st, specs, fuel);
    assert p == Progress(AfterWalkRefs(t, st, t.bindings["vars"].references, 0, VarsTable(), fuel), false);
    assert [VarsImport][1..] == [];
  }

  /** `vars.backgroundColor.card` becomes `vars.backgroundColor.surface`. */
  lemma NestedAccessIsRenamed(t: Tree, st: Store, fuel: nat)
    requires WellFormed(t) && |st.text| == |t.nodes| && |t.nodes| == 7 && fuel >= 2
    requires t.nodes[2] == MemberExpression(3, 6, false) && t.nodes[3] == MemberExpression(4, 5, false)
    requires t.nodes[4] == Identifier && t.nodes[5] == Identifier && t.nodes[6] == Identifier
    requires t.bindings == map["vars" := Binding(1, [4])]
    requires st.text[4] == "vars" && st.text[5] == "backgroundColor" && st.text[6] == "card"
    ensures AfterVarsEnter(t, st, [VarsImport], fuel).walked == Walked(st.(text := st.text[6 := "surface"]), Completed)
  {
    BackgroundCardIsSurface();
    var background := GroupTable(VarsTable()["backgroundColor"].entries);
    MemberStep(t, st, 3, background, fuel - 1, 2, 6);
    MemberStep(t, st, 4, VarsTable(), fuel, 3, 5);
    RefsOfOne(t, st, 4, VarsTable(), fuel);
    VarsImportWalksReferences(t, st, fuel);
  }

  /** `const { borderColor: border } = vars; border.standard` renames `standard` to `neutralLight`. */
  lemma DestructuredGroupIsFollowed(t: Tree, st: Store, fuel: nat)
    requires WellFormed(t) && |st.text| == |t.nodes| && |t.nodes| == 11 && fuel >= 2
    requires t.nodes[2] == VariableDeclarator(3, Some(7)) && t.nodes[3] == ObjectPattern([4])
    requires t.nodes[4] == ObjectProperty(5, false, 6) && t.nodes[5] == Identifier && t.nodes[6] == Identifier
    requires t.nodes[7] == Identifier
    requires t.nodes[8] == MemberExpression(9, 10, false) && t.nodes[9] == Identifier && t.nodes[10] == Identifier
    requires t.bindings == map["vars" := Binding(1, [7]), "border" := Binding(2, [9])]
    requires st.text[5] == "borderColor" && st.text[6] == "border" && st.text[10] == "standard"
    ensures AfterVarsEnter(t, st, [VarsImport], fuel).walked == Walked(st.(text := st.text[10 := "neutralLight"]), Completed)
  {
    BorderStandardIsNeutralLight();
    BorderReferenceIsRenamed(t, st, fuel - 1);
    GroupPropertyIsFollowed(t, st, 4, VarsTable(), fuel - 1);
    PatternOfOne(t, st, 3, VarsTable(), fuel - 1);
    PatternDeclaratorStep(t, st, 7, VarsTable(), fuel, 2, 3);
    RefsOfOne(t, st, 7, VarsTable(), fuel);
    VarsImportWalksReferences(t, st, fuel);
  }

  /** `border.standard`, with `border` bound to `vars.borderColor`, becomes `border.neutralLight`. */
  lemma BorderReferenceIsRenamed(t: Tree, st: Store, fuel: nat)
    requires SubVisitor.Fits(t, st) && |t.nodes| == 11 && fuel >= 1
    requires t.nodes[8] == MemberExpression(9, 10, false) && t.nodes[10] == Identifier
    requires "border" in t.bindings && t.bindings["border"].references == [9] && st.text[10] == "standard"
    requires "borderColor" in VarsTable() && VarsTable()["borderColor"].Group?
    ensures AfterWalkRefs(t, st, t.bindings["border"].references, 0, GroupTable(VarsTable()["borderColor"].entries), fuel)
         == Walked(st.(text := st.text[10 := "neutralLight"]), Completed)
  {
    BorderStandardIsNeutralLight();
    var border := GroupTable(VarsTable()["borderColor"].entries);
    MemberStep(t, st, 9, border, fuel, 8, 10);
    RefsOfOne(t, st, 9, border, fuel);
  }

  /** `const { standard } = vars.borderColor` cannot be renamed in place: the pass throws on `standard`. */
  lemma DestructuredLeafThrows(t: Tree, st: Store, fuel: nat)
    requires WellFormed(t) && |st.text| == |t.nodes| && |t.nodes| == 10 && fuel >= 2
    requires t.nodes[2] == VariableDeclarator(3, Some(7)) && t.nodes[3] == ObjectPattern([4])
    requires t.nodes[4] == ObjectProperty(5, false, 6) && t.nodes[5] == Identifier && t.nodes[6] == Identifier
    requires t.nodes[7] == MemberExpression(8, 9, false) && t.nodes[8] == Identifier && t.nodes[9] == Identifier
    requires t.bindings == map["vars" := Binding(1, [8]), "standard" := Binding(2, [])]
    requires st.text[5] == "standard" && st.text[6] == "standard" && st.text[9] == "borderColor"
    ensures AfterVarsEnter(t, st, [VarsImport], fuel).walked == Walked(st, Thrown("standard"))
  {
    BorderStandardIsNeutralLight();
    var border := GroupTable(VarsTable()["borderColor"].entries);
    LeafPropertyThrows(t, st, 4, border, fuel - 2);
    PatternOfOne(t, st, 3, border, fuel - 2);
    PatternDeclaratorStep(t, st, 7, border, fuel - 1, 2, 3);
    MemberStep(t, st, 8, VarsTable(), fuel, 7, 9);
    RefsOfOne(t, st, 8, VarsTable(), fuel);
    VarsImportWalksReferences(t, st, fuel);
  }

  /** `vars.backgroundColor.card` is renamed `surface`. */
  lemma BackgroundCardIsSurface()
    ensures "backgroundColor" in VarsTable() && VarsTable()["backgroundColor"].Group?
    ensures GroupTable(VarsTable()["backgroundColor"].entries)["card"] == Leaf("surface")
  {
    assert "backgroundColor" in DeprecatedProps["vars"];
  }

  /** `vars.borderColor.standard` is renamed `neutralLight`. */
  lemma BorderStandardIsNeutralLight()
    ensures "borderColor" in VarsTable() && VarsTable()["borderColor"].Group?
    ensures GroupTable(VarsTable()["borderColor"].entries)["standard"] == Leaf("neutralLight")
  {
    assert "borderColor" in DeprecatedProps["vars"];
  }

  /** A walk that reaches `obj.property`, with `property` a key of the record, goes on with that key's entry. */
  lemma MemberStep(t: Tree, st: Store, id: Id, d: Deprecations, fuel: nat, p: Id, property: Id)
    requires SubVisitor.Fits(t, st) && p < id < |t.nodes| && property < |t.nodes| && fuel > 0
    requires t.nodes[p] == MemberExpression(id, property, false)
    requires t.nodes[property].Identifier? && st.text[property] in d
    ensures AfterWalk(t, st, id, d, fuel) == AfterEntry(t, st, p, property, d[st.text[property]], fuel)
  {
    assert Children(t.nodes[p])[0] == id;
    FieldsInTree(t, p);
  }

  /** Walking a single reference is walking that reference. */
  lemma RefsOfOne(t: Tree, st: Store, r: Id, d: Deprecations, fuel: nat)
    requires SubVisitor.Fits(t, st) && r < |t.nodes|
    ensures AfterWalkRefs(t, st, [r], 0, d, fuel) == AfterWalk(t, st, r, d, fuel)
  {
    var w := AfterWalk(t, st, r, d, fuel);
    if w.outcome == Completed {
      assert AfterWalkRefs(t, w.store, [r], 1, d, fuel) == Walked(w.store, Completed);
    }
  }

  /** A walk that reaches the initialiser of a destructuring declaration goes on with the pattern. */
  lemma PatternDeclaratorStep(t: Tree, st: Store, id: Id, d: Deprecations, fuel: nat, p: Id, pattern: Id)
    requires SubVisitor.Fits(t, st) && p < pattern < id < |t.nodes| && fuel > 0
    requires t.nodes[p] == VariableDeclarator(pattern, Some(id)) && t.nodes[pattern].ObjectPattern?
    ensures AfterWalk(t, st, id, d, fuel) == AfterWalkPattern(t, st, pattern, 0, d, fuel - 1)
  {
    assert Children(t.nodes[p])[1] == id;
  }

  /** The loop over a pattern of one property is that property. */
  lemma PatternOfOne(t: Tree, st: Store, pattern: Id, d: Deprecations, fuel: nat)
    requires SubVisitor.Fits(t, st) && pattern < |t.nodes| && t.nodes[pattern].ObjectPattern?
    requires |t.nodes[pattern].properties| == 1
    ensures t.nodes[pattern].properties[0] < |t.nodes|
    ensures AfterWalkPattern(t, st, pattern, 0, d, fuel)
         == AfterPatternProperty(t, st, t.nodes[pattern].properties[0], d, fuel)
  {
    FieldsInTree(t, pattern);
    var w := AfterPatternProperty(t, st, t.nodes[pattern].properties[0], d, fuel);
    if w.outcome == Completed {
      assert AfterWalkPattern(t, w.store, pattern, 1, d, fuel) == Walked(w.store, Completed);
    }
  }

  /** `{ key: value }` with `key` naming a nested record walks the references of `value` with that record. */
  lemma GroupPropertyIsFollowed(t: Tree, st: Store, prop: Id, d: Deprecations, fuel: nat)
    requires SubVisitor.Fits(t, st) && prop < |t.nodes| && t.nodes[prop].ObjectProperty?
    requires prop < t.nodes[prop].key < |t.nodes| && prop < t.nodes[prop].value < |t.nodes|
    requires t.nodes[t.nodes[prop].key].Identifier? && t.nodes[t.nodes[prop].value].Identifier?
    requires st.text[t.nodes[prop].key] in d && d[st.text[t.nodes[prop].key]].Group?
    requires st.text[t.nodes[prop].value] in t.bindings
    ensures AfterPatternProperty(t, st, prop, d, fuel)
         == AfterWalkRefs(t, st, t.bindings[st.text[t.nodes[prop].value]].references, 0,
                          GroupTable(d[st.text[t.nodes[prop].key]].entries), fuel)
  {
  }

  /** `{ key }` with `key` naming a leaf throws on `key`. */
  lemma LeafPropertyThrows(t: Tree, st: Store, prop: Id, d: Deprecations, fuel: nat)
    requires SubVisitor.Fits(t, st) && prop < |t.nodes| && t.nodes[prop].ObjectProperty?
    requires prop < t.nodes[prop].key < |t.nodes| && prop < t.nodes[prop].value < |t.nodes|
    requires t.nodes[t.nodes[prop].key].Identifier? && t.nodes[t.nodes[prop].value].Identifier?
    requires st.text[t.nodes[prop].key] in d && d[st.text[t.nodes[prop].key]].Leaf?
    ensures AfterPatternProperty(t, st, prop, d, fuel) == Walked(st, Thrown(st.text[t.nodes[prop].key]))
  {
  }

  /**
    `var x = x`: the declarator's initialiser refers to the variable it declares, so
    walking it walks itself again; however deep the stack, it overflows.
   */
  lemma {:induction false} SelfAliasOverflows(t: Tree, st: Store, d: Deprecations, fuel: nat)
    requires WellFormed(t) && |st.text| == |t.nodes| && |t.nodes| == 8
    requires t.nodes[5] == VariableDeclarator(6, Some(7)) && t.nodes[6] == Identifier && t.nodes[7] == Identifier
    requires "x" in t.bindings && t.bindings["x"].references == [7] && st.text[6] == "x"
    ensures AfterWalk(t, st, 7, d, fuel) == Walked(st, StackOverflow)
  {
    if fuel > 0 {
      assert Children(t.nodes[5]) == [6, 7] && t.parent[Children(t.nodes[5])[1]] == 5;
      SelfAliasOverflows(t, st, d, fuel - 1);
      assert AfterWalkRefs(t, st, [7], 0, d, fuel - 1) == Walked(st, StackOverflow);
    }
  }

  /** `var x = vars; var x = x; ...`: the pass never completes, whatever the stack depth. */
  lemma RedeclaredAliasOverflows(t: Tree, st: Store, fuel: nat)
    requires WellFormed(t) && |st.text| == |t.nodes| && |t.nodes| == 8
    requires t.nodes[2] == VariableDeclarator(3, Some(4)) && t.nodes[3] == Identifier && t.nodes[4] == Identifier
    requires t.nodes[5] == VariableDeclarator(6, Some(7)) && t.nodes[6] == Identifier && t.nodes[7] == Identifier
    requires t.bindings == map["vars" := Binding(1, [4]), "x" := Binding(2, [7])]
    requires st.text[3] == "x" && st.text[6] == "x"
    ensures AfterVarsEnter(t, st, [VarsImport], fuel).walked == Walked(st, StackOverflow)
  {
    assert Children(t.nodes[2]) == [3, 4] && t.parent[Children(t.nodes[2])[1]] == 2;
    if fuel > 0 {
      SelfAliasOverflows(t, st, VarsTable(), fuel - 1);
      assert AfterWalkRefs(t, st, [7], 0, VarsTable(), fuel - 1) == Walked(st, StackOverflow);
    }
    assert AfterWalk(t, st, 4, VarsTable(), fuel) == Walked(st, StackOverflow);
    VarsImportWalksReferences(t, st, fuel);
  }
}
