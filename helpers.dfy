/**
  `updateStringLiteral` and `deArray`, shared by the two sub-visitors.
  The lookups go through the deprecation table; a missing prop name
  (`undefined` in the source) is looked up under the key "undefined", as
  JavaScript's property access does.
 */
module Helpers {
  import opened Options
  import opened DeprecatedPropMap
  import opened Ast

  /** The property key JavaScript uses for a prop name that may be `undefined`. */
  function PropKey(prop: Option<string>): (r: string)
    ensures prop.Some? ==> r == prop.value
    ensures r == "undefined" <==> prop.None? || prop.value == "undefined"
  {
    if prop.Some? then prop.value else "undefined"
  }

  /** The value a string literal holds after `updateStringLiteral(path, component, prop)`. */
  function UpdatedValue(component: string, prop: Option<string>, value: string): (r: string)
    ensures r != value ==> IsDeprecatedProp(component, PropKey(prop)) && value in DeprecatedProps[component][PropKey(prop)]
    ensures r == value || r in ReplacementValues
  {
    if IsDeprecatedProp(component, PropKey(prop))
    then GetPropReplacement(component, PropKey(prop), value)
    else value
  }

  method UpdateStringLiteral(f: SourceFile, id: Id, component: string, prop: Option<string>)
    requires f.Valid() && id < |f.tree.nodes| && f.tree.nodes[id].StringLiteral?
    modifies f.text
    ensures f.text[..] == old(f.text[..])[id := UpdatedValue(component, prop, old(f.text[id]))]
  {
    if IsDeprecatedProp(component, PropKey(prop)) {
      f.text[id] := GetPropReplacement(component, PropKey(prop), f.text[id]);
    }
  }

  /** A literal is left alone, or set to the value the table maps it to. */
  ghost predicate Rewrites(before: string, after: string)
  {
    after == before || IsReplacementOf(before, after)
  }

  /** The update changes a value only when the owner/prop pair is deprecated and the value is mapped. */
  lemma UpdatedValueIsTableReplacement(component: string, prop: Option<string>, value: string)
    ensures UpdatedValue(component, prop, value) != value ==>
      && IsDeprecatedProp(component, PropKey(prop))
      && value in DeprecatedProps[component][PropKey(prop)]
      && UpdatedValue(component, prop, value) == DeprecatedProps[component][PropKey(prop)][value]
    ensures Rewrites(value, UpdatedValue(component, prop, value))
  {
    var r := UpdatedValue(component, prop, value);
    if r != value {
      assert IsDeprecatedProp(component, PropKey(prop)) && value in DeprecatedProps[component][PropKey(prop)];
      assert IsReplacementOf(value, r) by {
        assert DeprecatedProps[component][PropKey(prop)][value] == r;
      }
    }
  }

  /** A replacement value is never replaced again, under any owner and prop. */
  lemma ReplacementIsFinal(before: string, after: string, component: string, prop: Option<string>)
    requires IsReplacementOf(before, after)
    ensures UpdatedValue(component, prop, after) == after
  {
    var c, p :| IsDeprecatedProp(c, p) && before in DeprecatedProps[c][p] && DeprecatedProps[c][p][before] == after;
    ReplacementValuesAreTheNewValues(c, p, before);
    if IsDeprecatedProp(component, PropKey(prop)) {
      ReplacementValuesAreNotOldValues(component, PropKey(prop), after);
    }
  }

  /** Updating twice, under any two owner/prop pairs, gives a rewrite of the original. */
  lemma RewritesCompose(a: string, b: string, component: string, prop: Option<string>)
    requires Rewrites(a, b)
    ensures Rewrites(a, UpdatedValue(component, prop, b))
  {
    if b == a {
      UpdatedValueIsTableReplacement(component, prop, a);
    } else {
      ReplacementIsFinal(a, b, component, prop);
    }
  }

  lemma RewritesTransitive(a: string, b: string, c: string)
    requires Rewrites(a, b) && Rewrites(b, c)
    ensures Rewrites(a, c)
  {
    if b != a && c != b {
      var c1, p1 :| IsDeprecatedProp(c1, p1) && a in DeprecatedProps[c1][p1] && DeprecatedProps[c1][p1][a] == b;
      var c2, p2 :| IsDeprecatedProp(c2, p2) && b in DeprecatedProps[c2][p2] && DeprecatedProps[c2][p2][b] == c;
      ReplacementValuesAreTheNewValues(c1, p1, a);
      ReplacementValuesAreNotOldValues(c2, p2, b);
    }
  }

  /** What a visitor may do to the store: rewrite string literals through the table and append diagnostics. */
  ghost predicate Evolves(t: Tree, a: Store, b: Store)
  {
    && |b.text| == |a.text|
    && (forall i | 0 <= i < |a.text| :: Rewrites(a.text[i], b.text[i]))
    && (forall i | 0 <= i < |a.text| && b.text[i] != a.text[i] :: i < |t.nodes| && t.nodes[i].StringLiteral?)
    && a.warnings <= b.warnings
    && a.console <= b.console
  }

  lemma EvolvesTransitive(t: Tree, a: Store, b: Store, c: Store)
    requires Evolves(t, a, b) && Evolves(t, b, c)
    ensures Evolves(t, a, c)
  {
    forall i | 0 <= i < |a.text|
      ensures Rewrites(a.text[i], c.text[i])
    {
      RewritesTransitive(a.text[i], b.text[i], c.text[i]);
    }
  }

  /** Updating a string literal through `updateStringLiteral` is such a step. */
  lemma UpdateEvolves(t: Tree, st: Store, id: Id, component: string, prop: Option<string>)
    requires id < |st.text| && id < |t.nodes| && t.nodes[id].StringLiteral?
    ensures Evolves(t, st, st.(text := st.text[id := UpdatedValue(component, prop, st.text[id])]))
  {
    UpdatedValueIsTableReplacement(component, prop, st.text[id]);
  }

  /** Updating a literal twice under the same owner and prop is the same as updating it once. */
  lemma UpdateIsIdempotent(component: string, prop: Option<string>, value: string)
    ensures UpdatedValue(component, prop, UpdatedValue(component, prop, value))
         == UpdatedValue(component, prop, value)
  {
    UpdatedValueIsTableReplacement(component, prop, value);
    if UpdatedValue(component, prop, value) != value {
      ReplacementIsFinal(value, UpdatedValue(component, prop, value), component, prop);
    }
  }

  /** A value that is either one item or an array of items, as `deArray` accepts. */
  datatype OneOrMany<T> = One(item: T) | Many(items: seq<T>)

  /** `deArray`: the first element of an array (`undefined` for an empty one), anything else unchanged. */
  function DeArray<T>(input: OneOrMany<T>): (r: Option<T>)
    ensures input.One? ==> r == Some(input.item)
    ensures input.Many? ==> (r.Some? <==> input.items != [])
    ensures r.Some? && input.Many? ==> r.value == input.items[0]
  {
    match input
    case One(item) => Some(item)
    case Many(items) => if items == [] then None else Some(items[0])
  }
}
